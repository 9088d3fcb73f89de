/** The worker service: what a shipped worker answers to each command (src/worker.cpp). */
module Workers {
  import opened Basics
  import opened Records
  import opened Protocol
  import opened Compositions

  type Residency = map<Bytes, (bool, u64)>

  function Blank(kind: byte): Message {
    Message(kind, [], [], [], [], 0, 0, 0, 0, false, [])
  }

  function Reply(req: Message, kind: byte, bytes: u64, note: Bytes): Message {
    Blank(kind).(reqId := req.reqId, ok := true, a := bytes, text := note)
  }

  /** Commands the worker answers; every other message is ignored. */
  predicate Answerable(kind: byte) {
    kind in {WK_LOAD, WK_ACTIVATE, WK_DEACTIVATE, WK_MIGRATE, WK_INVALIDATE}
  }

  /** The type of an answer is the type that follows its command's. */
  predicate AnswerOf(reply: Message, command: Message) {
    && Answerable(command.kind) && reply.kind == command.kind + 1
    && reply.reqId == command.reqId && reply.ok
  }

  function NoteFor(kind: byte): Bytes
    requires Answerable(kind)
  {
    if kind == WK_LOAD then Ascii("loaded")
    else if kind == WK_ACTIVATE then Ascii("activated")
    else if kind == WK_DEACTIVATE then Ascii("deactivated")
    else if kind == WK_MIGRATE then Ascii("migrated")
    else Ascii("invalidated")
  }

  /** A load is of at least one byte; an activation reports the adapter's load; the others report none. */
  function BytesFor(local: Residency, msg: Message): u64 {
    if msg.kind == WK_LOAD then (if msg.a == 0 then 1 else msg.a)
    else if msg.kind == WK_ACTIVATE && msg.text in local then local[msg.text].1
    else 0
  }

  /** The answer to one command, if it gets one. */
  function AnswerTo(local: Residency, msg: Message): seq<Message> {
    if Answerable(msg.kind) then [Reply(msg, msg.kind + 1, BytesFor(local, msg), NoteFor(msg.kind))] else []
  }

  function LocalAfter(local: Residency, msg: Message): Residency {
    if msg.kind == WK_LOAD then local[msg.text := (true, BytesFor(local, msg))]
    else if msg.kind == WK_INVALIDATE then local - {msg.text}
    else local
  }

  function LocalAfterAll(local: Residency, commands: seq<Message>): Residency {
    if commands == [] then local
    else LocalAfter(LocalAfterAll(local, commands[..|commands| - 1]), commands[|commands| - 1])
  }

  /** The answers to a sequence of commands, in command order. */
  function AllAnswers(local: Residency, commands: seq<Message>): seq<Message> {
    if commands == [] then []
    else
      var before := commands[..|commands| - 1];
      AllAnswers(local, before) + AnswerTo(LocalAfterAll(local, before), commands[|commands| - 1])
  }

  lemma AnswersGrow(local: Residency, commands: seq<Message>, n: nat)
    requires n < |commands|
    ensures var before, after := commands[..n], commands[..n + 1];
      && LocalAfterAll(local, after) == LocalAfter(LocalAfterAll(local, before), commands[n])
      && AllAnswers(local, after) == AllAnswers(local, before) + AnswerTo(LocalAfterAll(local, before), commands[n])
  {
    assert commands[..n + 1][..n] == commands[..n];
  }

  /** Every answer is the answer to some command, and their number is that of the answerable commands. */
  lemma {:induction false} AnswersBelong(local: Residency, commands: seq<Message>)
    ensures |AllAnswers(local, commands)| == Answerables(commands)
    ensures forall k :: 0 <= k < |AllAnswers(local, commands)| ==>
              exists i :: 0 <= i < |commands| && AnswerOf(AllAnswers(local, commands)[k], commands[i])
  {
    if commands != [] {
      var n := |commands| - 1;
      var before, all := AllAnswers(local, commands[..n]), AllAnswers(local, commands);
      AnswersBelong(local, commands[..n]);
      forall k | 0 <= k < |all|
        ensures exists i :: 0 <= i < |commands| && AnswerOf(all[k], commands[i])
      {
        if k < |before| {
          var i :| 0 <= i < n && AnswerOf(before[k], commands[..n][i]);
          assert AnswerOf(all[k], commands[i]);
        } else {
          assert AnswerOf(all[k], commands[n]);
        }
      }
    }
  }

  predicate Touches(msg: Message, text: Bytes) {
    msg.text == text && (msg.kind == WK_LOAD || msg.kind == WK_INVALIDATE)
  }

  /** Command k loads the adapter, and no later command loads or invalidates it. */
  predicate LoadedLast(commands: seq<Message>, k: nat, text: Bytes) {
    && k < |commands| && commands[k].kind == WK_LOAD && commands[k].text == text
    && forall m :: k < m < |commands| ==> !Touches(commands[m], text)
  }

  lemma LoadedLastLonger(commands: seq<Message>, k: nat, text: Bytes)
    requires commands != []
    ensures var n := |commands| - 1;
      LoadedLast(commands, k, text) <==>
      if k < n then LoadedLast(commands[..n], k, text) && !Touches(commands[n], text)
      else k == n && commands[n].kind == WK_LOAD && commands[n].text == text
  {
    var n := |commands| - 1;
    if k < n && LoadedLast(commands, k, text) {
      assert forall m :: k < m < n ==> commands[..n][m] == commands[m];
    }
    if k < n && LoadedLast(commands[..n], k, text) && !Touches(commands[n], text) {
      forall m | k < m < |commands|
        ensures !Touches(commands[m], text)
      {
        assert m < n ==> commands[..n][m] == commands[m];
      }
    }
  }

  /**
   After any sequence of commands a worker holds exactly the adapters whose last load was not followed by an
   invalidation, each with the bytes of that load, at least one.
   */
  lemma {:induction false} HoldsTheLastLoaded(commands: seq<Message>, text: Bytes)
    ensures text in LocalAfterAll(map[], commands) <==> exists k: nat :: LoadedLast(commands, k, text)
    ensures forall k: nat :: LoadedLast(commands, k, text) ==>
              text in LocalAfterAll(map[], commands)
              && LocalAfterAll(map[], commands)[text] == (true, if commands[k].a == 0 then 1 else commands[k].a)
  {
    hide LoadedLast;
    forall k: nat
      ensures LoadedLast(commands, k, text) ==> k < |commands|
    {
      LoadedLastIsWithin(commands, k, text);
    }
    if commands != [] {
      var n := |commands| - 1;
      HoldsTheLastLoaded(commands[..n], text);
      forall k: nat
        ensures LoadedLast(commands[..n], k, text) ==> k < n
        ensures LoadedLast(commands, k, text) <==>
                if k < n then LoadedLast(commands[..n], k, text) && !Touches(commands[n], text)
                else k == n && commands[n].kind == WK_LOAD && commands[n].text == text
      {
        LoadedLastIsWithin(commands[..n], k, text);
        LoadedLastLonger(commands, k, text);
      }
      LoadedLastLonger(commands, n, text);
    }
  }

  lemma LoadedLastIsWithin(commands: seq<Message>, k: nat, text: Bytes)
    ensures LoadedLast(commands, k, text) ==> k < |commands|
  {
  }

  class WorkerService {
    var local: Residency
    var stopped: bool
    var outbox: seq<Message>

    constructor ()
      ensures local == map[] && !stopped && outbox == []
    {
      local, stopped, outbox := map[], false, [];
    }

    method Answer(req: Message, kind: byte, bytes: u64, note: Bytes)
      modifies `outbox
      ensures outbox == old(outbox) + [Reply(req, kind, bytes, note)]
    {
      var m := Blank(kind);
      m := m.(reqId := req.reqId, ok := true, a := bytes, text := note);
      outbox := outbox + [m];
    }

    /**
     Answers exactly the five commands, once each and positively, under the command's own request id.
     A load is recorded under the adapter with at least one byte, which is the number acknowledged; an
     activation acknowledges what the adapter was loaded with; invalidation forgets the adapter. Each answer has
     the note of its command.
     */
    method HandleCommand(msg: Message)
      modifies this
      ensures outbox == old(outbox) + AnswerTo(old(local), msg) && local == LocalAfter(old(local), msg)
      ensures if Answerable(msg.kind) then |outbox| == |old(outbox)| + 1 else outbox == old(outbox)
      ensures old(outbox) <= outbox
      ensures Answerable(msg.kind) ==> AnswerOf(outbox[|outbox| - 1], msg)
      ensures msg.kind == WK_LOAD ==> outbox[|outbox| - 1].a >= 1
      ensures msg.kind == WK_LOAD && msg.a >= 1 ==> outbox[|outbox| - 1].a == msg.a
      ensures msg.kind == WK_LOAD ==> local == old(local)[msg.text := (true, outbox[|outbox| - 1].a)]
      ensures msg.kind == WK_ACTIVATE ==>
                outbox[|outbox| - 1].a == if msg.text in local then local[msg.text].1 else 0
      ensures msg.kind == WK_INVALIDATE ==> local == old(local) - {msg.text}
      ensures msg.kind != WK_LOAD && msg.kind != WK_INVALIDATE ==> local == old(local)
      ensures stopped <==> old(stopped) || msg.kind == WK_SHUTDOWN
    {
      if msg.kind == WK_LOAD {
        var bytes := msg.a;
        if bytes == 0 { bytes := 1; }
        local := local[msg.text := (true, bytes)];
        Answer(msg, WK_LOAD_ACK, bytes, Ascii("loaded"));
      } else if msg.kind == WK_ACTIVATE {
        Answer(msg, WK_ACTIVATE_ACK, if msg.text in local then local[msg.text].1 else 0, Ascii("activated"));
      } else if msg.kind == WK_DEACTIVATE {
        Answer(msg, WK_DEACTIVATE_ACK, 0, Ascii("deactivated"));
      } else if msg.kind == WK_MIGRATE {
        Answer(msg, WK_MIGRATE_ACK, 0, Ascii("migrated"));
      } else if msg.kind == WK_INVALIDATE {
        local := local - {msg.text};
        Answer(msg, WK_INVALIDATE_ACK, 0, Ascii("invalidated"));
      } else if msg.kind == WK_SHUTDOWN {
        stopped := true;
      }
    }

    /** Handles commands in order until told to stop; what comes after a shutdown is not answered. */
    method Serve(commands: seq<Message>) returns (handled: nat)
      modifies this
      ensures handled <= |commands|
      ensures forall i :: 0 <= i < handled - 1 ==> commands[i].kind != WK_SHUTDOWN
      ensures handled < |commands| ==> stopped
      ensures outbox == old(outbox) + AllAnswers(old(local), commands[..handled])
      ensures local == LocalAfterAll(old(local), commands[..handled])
      ensures old(outbox) <= outbox
      ensures |outbox| - |old(outbox)| == Answerables(commands[..handled])
      ensures forall k :: |old(outbox)| <= k < |outbox| ==>
                exists i :: 0 <= i < handled && AnswerOf(outbox[k], commands[i])
    {
      hide AnswerTo, LocalAfter, AnswerOf, Answerables;
      handled := 0;
      while !stopped && handled < |commands|
        invariant 0 <= handled <= |commands|
        invariant forall i :: 0 <= i < handled - 1 ==> commands[i].kind != WK_SHUTDOWN
        invariant !stopped ==> forall i :: 0 <= i < handled ==> commands[i].kind != WK_SHUTDOWN
        invariant outbox == old(outbox) + AllAnswers(old(local), commands[..handled])
        invariant local == LocalAfterAll(old(local), commands[..handled])
      {
        AnswersGrow(old(local), commands, handled);
        ConcatAssociates(old(outbox), AllAnswers(old(local), commands[..handled]), AnswerTo(local, commands[handled]));
        HandleCommand(commands[handled]);
        handled := handled + 1;
      }
      AnswersBelong(old(local), commands[..handled]);
      ghost var all := AllAnswers(old(local), commands[..handled]);
      forall k | |old(outbox)| <= k < |outbox|
        ensures exists i :: 0 <= i < handled && AnswerOf(outbox[k], commands[i])
      {
        assert outbox[k] == all[k - |old(outbox)|];
      }
    }
  }

  function Answerables(commands: seq<Message>): nat {
    if commands == [] then 0
    else Answerables(commands[..|commands| - 1]) + if Answerable(commands[|commands| - 1].kind) then 1 else 0
  }
}
