/** Runs of the whole coordinator, from its start, that show what it does not keep. */
module Scenarios {
  import opened Basics
  import opened Records
  import opened Authorities
  import opened Capacity
  import opened Fabrics
  import opened FabricRuns
  import opened Reuse
  import opened AdapterCodec
  import opened Codec
  import opened Protocol
  import opened Workers
  import opened Coordinators
  import opened CoordinatorRuns
  import opened Correlation
  import opened Conservation
  import Compositions
  import Uuids

  const NO_OPS: seq<FabricOp> := []

  // ---- putting runs together ----

  lemma {:induction false} AfterConcat(s: System, xs: seq<Event>, ys: seq<Event>)
    ensures After(s, xs + ys) == After(After(s, xs), ys)
  {
    hide Step;
    if ys == [] {
      assert xs + ys == xs;
    } else {
      var all := xs + ys;
      assert all[..|all| - 1] == xs + ys[..|ys| - 1];
      AfterConcat(s, xs, ys[..|ys| - 1]);
    }
  }

  lemma {:induction false} TraceConcat(s: System, xs: seq<Event>, ys: seq<Event>)
    ensures FabricTrace(s, xs + ys) == FabricTrace(s, xs) + FabricTrace(After(s, xs), ys)
  {
    hide Step, Enabled, FabricOps, After;
    if ys == [] {
      assert xs + ys == xs;
    } else {
      var all, n := xs + ys, |ys| - 1;
      assert all[..|all| - 1] == xs + ys[..n];
      TraceConcat(s, xs, ys[..n]);
      AfterConcat(s, xs, ys[..n]);
    }
  }

  lemma HonestConcat(s: System, xs: seq<Event>, ys: seq<Event>)
    requires HonestRun(s, xs) && HonestRun(After(s, xs), ys)
    ensures HonestRun(s, xs + ys)
  {
    hide After, Honest;
    var all := xs + ys;
    forall k | 0 <= k < |all|
      ensures Honest(After(s, all[..k]), all[k])
    {
      if k < |xs| {
        assert all[..k] == xs[..k];
      } else {
        assert all[..k] == xs + ys[..k - |xs|];
        AfterConcat(s, xs, ys[..k - |xs|]);
      }
    }
  }

  /** A stretch of a run with honest workers: where it leads, and what it does to the fabric. */
  ghost predicate Leads(s: System, es: seq<Event>, t: System, ops: seq<FabricOp>) {
    After(s, es) == t && FabricTrace(s, es) == ops && HonestRun(s, es)
  }

  lemma LeadsOn(
      s: System, xs: seq<Event>, t: System, ops: seq<FabricOp>, ys: seq<Event>, u: System, more: seq<FabricOp>)
    requires Leads(s, xs, t, ops) && Leads(t, ys, u, more)
    ensures Leads(s, xs + ys, u, ops + more)
  {
    hide HonestRun, After, FabricTrace;
    AfterConcat(s, xs, ys);
    TraceConcat(s, xs, ys);
    HonestConcat(s, xs, ys);
  }

  lemma OneEvent(s: System, e: Event)
    requires Enabled(s, e) && Honest(s, e)
    ensures Leads(s, [e], Do(s, e), FabricOps(s, e))
  {
    hide Enabled, Do, FabricOps, Honest;
    assert [e][..0] == [];
    assert After(s, []) == s && FabricTrace(s, []) == [];
    assert FabricTrace(s, [e]) == [] + FabricOps(s, e);
  }

  // ---- stretches every request goes through ----

  function Joined(s: System, l: nat, text: Bytes, slot: Slot): System {
    s.(links := s.links[l := Serving], shared := WorkerUp(SlotUp(s.shared, l, text, slot), l, NIL))
  }

  function Joining(l: nat, text: Bytes, slot: Slot): seq<Event> { [NewSlot(l, text, slot)] + [Attach(l, NIL)] }

  lemma JoiningLeads(s: System, l: nat, text: Bytes, slot: Slot)
    requires l !in s.links && slot.connected && slot.address == []
    ensures Leads(s, Joining(l, text, slot), Joined(s, l, text, slot), [JoinOp(slot.id, slot.boot, [], NIL)])
  {
    hide Join, Leads;
    var e1, e2 := NewSlot(l, text, slot), Attach(l, NIL);
    OneEvent(s, e1);
    var t := Do(s, e1);
    OneEvent(t, e2);
    assert Do(t, e2) == Joined(s, l, text, slot);
    LeadsOn(s, [e1], t, [], [e2], Joined(s, l, text, slot), [JoinOp(slot.id, slot.boot, [], NIL)]);
    assert [] + [JoinOp(slot.id, slot.boot, [], NIL)] == [JoinOp(slot.id, slot.boot, [], NIL)];
  }

  function NewLoad(f: AuthorityFence, worker: Bytes, inst: Uuid): Task {
    Task(Load(f), worker, Begun, 0, inst, Blank(0x50), false)
  }

  function Created(s: System, i: nat, f: AuthorityFence, worker: Bytes, inst: Uuid): System {
    s.(tasks := s.tasks[i := NewLoad(f, worker, inst)], shared := CreateSection(s.shared, f, inst).0,
       generated := s.generated + {inst})
  }

  function Creating(i: nat, f: AuthorityFence, worker: Bytes, inst: Uuid): seq<Event> {
    [NewTask(i, Load(f), worker)] + [Check(i)] + [Create(i, inst)]
  }

  lemma CreatingLeads(s: System, i: nat, f: AuthorityFence, worker: Bytes, inst: Uuid)
    requires i !in s.tasks && inst !in s.generated && inst != NIL
    requires CheckFence(s.shared.fabric, f) == Authorized
    ensures f.adapter in s.shared.fabric.adapters
    ensures Leads(s, Creating(i, f, worker, inst), Created(s, i, f, worker, inst),
                  [CreateOp(f.adapter, f.worker, f.boot, f.device,
                            s.shared.fabric.adapters[f.adapter].memoryBytes, inst)])
  {
    hide CheckFence, Leads;
    AuthorizedIsAttached(s.shared.fabric, f);
    var e1, e2, e3 := NewTask(i, Load(f), worker), Check(i), Create(i, inst);
    var ops := [CreateOp(f.adapter, f.worker, f.boot, f.device, s.shared.fabric.adapters[f.adapter].memoryBytes, inst)];
    OneEvent(s, e1);
    var s1 := Do(s, e1);
    OneEvent(s1, e2);
    var s2 := Do(s1, e2);
    OneEvent(s2, e3);
    assert Do(s2, e3) == Created(s, i, f, worker, inst) by {
      assert s.tasks[i := s1.tasks[i]][i := s2.tasks[i]][i := NewLoad(f, worker, inst)] ==
             s.tasks[i := NewLoad(f, worker, inst)];
    }
    LeadsOn(s, [e1], s1, [], [e2], s2, []);
    LeadsOn(s, [e1] + [e2], s2, [] + [], [e3], Created(s, i, f, worker, inst), ops);
    assert [] + [] + ops == ops;
  }

  function Requested(s: System, j: nat, f: AuthorityFence, worker: Bytes): System {
    s.(tasks := s.tasks[j := Task(Activate(f), worker, Begun, 0, NIL, Blank(0x50), false)])
  }

  function Requesting(j: nat, f: AuthorityFence, worker: Bytes): seq<Event> {
    [NewTask(j, Activate(f), worker)] + [Check(j)]
  }

  lemma RequestingLeads(s: System, j: nat, f: AuthorityFence, worker: Bytes)
    requires j !in s.tasks && CheckFence(s.shared.fabric, f) == Authorized
    ensures Leads(s, Requesting(j, f, worker), Requested(s, j, f, worker), [])
  {
    hide CheckFence, Leads;
    var e1, e2 := NewTask(j, Activate(f), worker), Check(j);
    OneEvent(s, e1);
    var s1 := Do(s, e1);
    OneEvent(s1, e2);
    assert s.tasks[j := s1.tasks[j]][j := Do(s1, e2).tasks[j]] == s.tasks[j := Do(s1, e2).tasks[j]];
    assert Do(s1, e2) == Requested(s, j, f, worker);
    LeadsOn(s, [e1], s1, [], [e2], Requested(s, j, f, worker), []);
    assert NO_OPS + NO_OPS == NO_OPS;
  }

  function ForwardedTask(s: System, i: nat): System
    requires i in s.tasks && s.shared.nextReq < U64_MAX
  {
    var x := s.tasks[i].(phase := Waiting, req := s.shared.nextReq);
    s.(tasks := s.tasks[i := x], shared := Insert(Draw(s.shared), x.req), sent := s.sent[x.req := Forwarded(x)])
  }

  function Forwarding(i: nat): seq<Event> { [DrawId(i)] + [Lookup(i)] + [InsertEntry(i)] + [Send(i, true)] }

  /** The steps of a forwarded request leave the fabric alone. */
  lemma DrawLeads(s: System, i: nat)
    requires At(s, i, Begun) && s.shared.nextReq < U64_MAX
    ensures Leads(s, [DrawId(i)], DoDraw(s, i), NO_OPS)
  {
    hide DoDraw, Leads;
    OneEvent(s, DrawId(i));
  }

  lemma LookupLeads(s: System, i: nat)
    requires At(s, i, Drawn)
    ensures Leads(s, [Lookup(i)], DoLookup(s, i), NO_OPS)
  {
    hide DoLookup, Leads;
    OneEvent(s, Lookup(i));
  }

  lemma InsertLeads(s: System, i: nat)
    requires At(s, i, Found)
    ensures Leads(s, [InsertEntry(i)], DoInsert(s, i), NO_OPS)
  {
    hide DoInsert, Leads;
    OneEvent(s, InsertEntry(i));
  }

  lemma SendLeads(s: System, i: nat)
    requires At(s, i, Inserted)
    ensures Leads(s, [Send(i, true)], DoSend(s, i, true), NO_OPS)
  {
    hide DoSend, Leads;
    OneEvent(s, Send(i, true));
  }

  lemma ReceiveLeads(s: System, l: nat, msg: Message)
    requires LinkIs(s, l, Serving) && msg in s.replies
    ensures Leads(s, [Receive(l, msg)], DoReceive(s, l, msg), NO_OPS)
  {
    hide DoReceive, Leads;
    OneEvent(s, Receive(l, msg));
  }

  lemma PostLeads(s: System, l: nat)
    requires l in s.links && s.links[l].Holding?
    ensures Leads(s, [PostHeld(l)], DoPost(s, l), NO_OPS)
  {
    hide DoPost, Leads;
    OneEvent(s, PostHeld(l));
  }

  lemma TakeLeads(s: System, i: nat)
    requires At(s, i, Waiting) && s.tasks[i].req in s.shared.entries && s.shared.entries[s.tasks[i].req].done
    ensures Leads(s, [Take(i)], DoTake(s, i), NO_OPS)
  {
    hide DoTake, Leads;
    OneEvent(s, Take(i));
  }

  lemma EraseLeads(s: System, i: nat)
    requires At(s, i, Woken)
    ensures Leads(s, [EraseEntry(i)], DoErase(s, i), NO_OPS)
  {
    hide DoErase, Leads;
    OneEvent(s, EraseEntry(i));
  }

  /** Four stretches that leave the fabric alone, one after another. */
  lemma FourLead(s: System, e1: Event, s1: System, e2: Event, s2: System, e3: Event, s3: System, e4: Event, s4: System)
    requires Leads(s, [e1], s1, NO_OPS) && Leads(s1, [e2], s2, NO_OPS)
    requires Leads(s2, [e3], s3, NO_OPS) && Leads(s3, [e4], s4, NO_OPS)
    ensures Leads(s, [e1] + [e2] + [e3] + [e4], s4, NO_OPS)
  {
    hide Leads;
    assert NO_OPS + NO_OPS == NO_OPS;
    LeadsOn(s, [e1], s1, NO_OPS, [e2], s2, NO_OPS);
    LeadsOn(s, [e1] + [e2], s2, NO_OPS, [e3], s3, NO_OPS);
    LeadsOn(s, [e1] + [e2] + [e3], s3, NO_OPS, [e4], s4, NO_OPS);
  }

  lemma ForwardingLeads(s: System, i: nat)
    requires At(s, i, Begun) && s.shared.nextReq < U64_MAX && Reachable(s.shared, s.tasks[i].worker)
    ensures Leads(s, Forwarding(i), ForwardedTask(s, i), NO_OPS)
  {
    hide Leads, Forwarded;
    var s1 := DoDraw(s, i);
    var s2 := DoLookup(s1, i);
    var s3 := DoInsert(s2, i);
    var s4 := DoSend(s3, i, true);
    DrawLeads(s, i);
    LookupLeads(s1, i);
    InsertLeads(s2, i);
    SendLeads(s3, i);
    SameCommand(s3.tasks[i], s4.tasks[i]);
    assert s.tasks[i := s1.tasks[i]][i := s2.tasks[i]][i := s3.tasks[i]][i := s4.tasks[i]] == s.tasks[i := s4.tasks[i]];
    assert s4 == ForwardedTask(s, i);
    FourLead(s, DrawId(i), s1, Lookup(i), s2, InsertEntry(i), s3, Send(i, true), s4);
  }

  function Replied(s: System, i: nat, ack: Message): System
    requires i in s.tasks
  {
    s.(tasks := s.tasks[i := s.tasks[i].(phase := Answered, ack := ack)],
       shared := Erase(Post(s.shared, ack), s.tasks[i].req), received := s.received + {ack})
  }

  function Replying(i: nat, l: nat, ack: Message): seq<Event> {
    [Receive(l, ack)] + [PostHeld(l)] + [Take(i)] + [EraseEntry(i)]
  }

  lemma ReplyingLeads(s: System, i: nat, l: nat, ack: Message)
    requires At(s, i, Waiting) && s.tasks[i].req in s.shared.pending && LinkIs(s, l, Serving)
    requires ack.reqId == s.tasks[i].req != 0 && ack in s.replies
    ensures Leads(s, Replying(i, l, ack), Replied(s, i, ack), NO_OPS)
  {
    hide Leads;
    var s1 := DoReceive(s, l, ack);
    var s2 := DoPost(s1, l);
    var s3 := DoTake(s2, i);
    var s4 := DoErase(s3, i);
    ReceiveLeads(s, l, ack);
    PostLeads(s1, l);
    TakeLeads(s2, i);
    EraseLeads(s3, i);
    assert s.links[l := Holding(ack)][l := Serving] == s.links;
    assert s.tasks[i := s3.tasks[i]][i := s4.tasks[i]] == s.tasks[i := s4.tasks[i]];
    assert s4 == Replied(s, i, ack);
    FourLead(s, Receive(l, ack), s1, PostHeld(l), s2, Take(i), s3, EraseEntry(i), s4);
  }

  /** As events, a forwarded request goes through the sections of `ForwardToWorker`, and takes the same answer. */
  lemma ForwardedAsEvents(s: System, i: nat, l: nat, ack: Message)
    requires At(s, i, Begun) && 0 < s.shared.nextReq < U64_MAX && Reachable(s.shared, s.tasks[i].worker)
    requires LinkIs(s, l, Serving) && ack in s.replies && ack.reqId == s.shared.nextReq
    ensures var t, req := After(s, Forwarding(i) + Replying(i, l, ack)), s.shared.nextReq;
      && t.shared == Erase(Post(Insert(Draw(s.shared), req), ack), req)
      && At(t, i, Answered) && t.tasks[i].ack == ack && t.tasks[i].req == req
      && FabricTrace(s, Forwarding(i) + Replying(i, l, ack)) == []
  {
    hide Leads, Forwarded, Reachable, Forwarding, Replying, After, FabricTrace;
    var u := ForwardedTask(s, i);
    ForwardingLeads(s, i);
    ReplyingLeads(u, i, l, ack);
    LeadsOn(s, Forwarding(i), u, NO_OPS, Replying(i, l, ack), Replied(u, i, ack), NO_OPS);
    LeadsThere(s, Forwarding(i) + Replying(i, l, ack), Replied(u, i, ack), NO_OPS + NO_OPS);
  }

  // ---- a first load, up to its reply ----

  /** A shipped worker's answer to the load command. */
  function LoadAck(command: Message): Message { Reply(command, WK_LOAD_ACK, 1, Compositions.Ascii("loaded")) }

  function ActivateAck(command: Message): Message {
    Reply(command, WK_ACTIVATE_ACK, 1, Compositions.Ascii("activated"))
  }

  lemma LoadAckAnswers(command: Message)
    requires command.kind == WK_LOAD && command.a == 0
    ensures Answers(LoadAck(command), command)
  {
  }

  lemma ActivateAckAnswers(command: Message)
    requires command.kind == WK_ACTIVATE
    ensures Answers(ActivateAck(command), command)
  {
  }

  /** The scene: an adapter, a worker process and how it names itself, an attempt and an instance. */
  datatype Scene = Scene(
    d: AdapterDescriptor, worker: Uuid, boot: Uuid, text: Bytes, attempt: Uuid, inst: Uuid, i: nat, l: nat)

  predicate Playable(x: Scene) {
    Registrable(x.d) && AdapterOk(x.d) && NIL !in {x.worker, x.boot, x.attempt, x.inst}
  }

  function FenceOf(x: Scene): AuthorityFence { FirstFence(x.d, x.worker, x.boot, x.attempt) }

  function WaitingLoad(x: Scene): Task { NewLoad(FenceOf(x), x.text, x.inst).(phase := Waiting, req := 1) }

  function FirstAck(x: Scene): Message { LoadAck(Forwarded(WaitingLoad(x))) }

  /** The adapter is registered, the worker joins, the load is created, forwarded and handled. */
  function FirstLoad(x: Scene): seq<Event> {
    [Direct(AdapterOp(x.d))] + Joining(x.l, x.text, Slot(x.worker, x.boot, [], true))
    + Creating(x.i, FenceOf(x), x.text, x.inst) + Forwarding(x.i) + [Handle(1, FirstAck(x))]
  }

  function FirstOps(x: Scene): seq<FabricOp> {
    [AdapterOp(x.d)] + [JoinOp(x.worker, x.boot, [], NIL)]
    + [CreateOp(x.d.id, x.worker, x.boot, NIL, x.d.memoryBytes, x.inst)]
  }

  function FirstWorld(x: Scene): FabricState
    requires Registrable(x.d)
  {
    Join(RegisterAdapter(FRESH, x.d).0, x.worker, x.boot, [], NIL)
  }

  /** What there is when the first load waits: one request, one connection, and the worker's answer on its way. */
  ghost predicate Waits(s: System, x: Scene, t: System)
    requires Registrable(x.d)
  {
    && t.tasks == map[x.i := WaitingLoad(x)] && t.links == map[x.l := Serving]
    && t.shared.slots == map[x.l := Slot(x.worker, x.boot, [], true)] && t.shared.workers == map[x.text := x.l]
    && t.shared.pending == {1} && t.shared.nextReq == 2 && t.shared.cap == s.shared.cap
    && t.shared.fabric ==
         CreateInstance(FirstWorld(x), x.d.id, x.worker, x.boot, NIL, x.d.memoryBytes, x.inst).0
    && t.generated == {x.inst} && FirstAck(x) in t.replies
  }

  lemma DirectLeads(s: System, d: AdapterDescriptor)
    requires Init(s) && AdapterOk(d)
    ensures Leads(s, [Direct(AdapterOp(d))],
                  s.(shared := s.shared.(fabric := RegisterAdapter(FRESH, d).0)), [AdapterOp(d)])
  {
    hide Leads, RegisterAdapter, AdapterOk, Balanced;
    OneEvent(s, Direct(AdapterOp(d)));
  }

  lemma HandleLeads(s: System, req: u64, reply: Message)
    requires req in s.sent && Answers(reply, s.sent[req])
    ensures Leads(s, [Handle(req, reply)], s.(replies := s.replies + {reply}), NO_OPS)
  {
    hide Leads, Answers;
    OneEvent(s, Handle(req, reply));
  }

  lemma FirstFenceIsCurrent(x: Scene)
    requires Playable(x)
    ensures CheckFence(FirstWorld(x), FenceOf(x)) == Authorized
    ensures x.d.id in FirstWorld(x).adapters && FirstWorld(x).adapters[x.d.id] == x.d.(generation := 1)
  {
    hide Join, AdapterOk;
    FirstAdapterAndWorker(x.d, x.worker, x.boot);
  }

  function Stage1(s: System, x: Scene): System { s.(shared := s.shared.(fabric := RegisterAdapter(FRESH, x.d).0)) }
  function Stage2(s: System, x: Scene): System {
    Joined(Stage1(s, x), x.l, x.text, Slot(x.worker, x.boot, [], true))
  }
  function Stage3(s: System, x: Scene): System { Created(Stage2(s, x), x.i, FenceOf(x), x.text, x.inst) }
  function Stage4(s: System, x: Scene): System
    requires s.shared.nextReq < U64_MAX
  {
    ForwardedTask(Stage3(s, x), x.i)
  }

  function Stage5(s: System, x: Scene): System
    requires s.shared.nextReq < U64_MAX
  {
    Stage4(s, x).(replies := Stage4(s, x).replies + {FirstAck(x)})
  }

  lemma StagesAreReady(s: System, x: Scene)
    requires Init(s) && Playable(x)
    ensures s.shared.nextReq < U64_MAX && x.l !in Stage1(s, x).links
    ensures x.i !in Stage2(s, x).tasks && x.inst !in Stage2(s, x).generated
    ensures Stage2(s, x).shared.fabric == FirstWorld(x)
    ensures At(Stage3(s, x), x.i, Begun) && Reachable(Stage3(s, x).shared, Stage3(s, x).tasks[x.i].worker)
    ensures Stage3(s, x).shared.nextReq == 1
    ensures 1 in Stage4(s, x).sent && Stage4(s, x).sent[1] == Forwarded(WaitingLoad(x))
  {
    hide Balanced, RegisterAdapter, Join, CreateInstance, AdapterOk, Forwarded;
  }

  lemma LoadCommandsStateNoSize(x: Scene)
    ensures Forwarded(WaitingLoad(x)).kind == WK_LOAD && Forwarded(WaitingLoad(x)).a == 0
    ensures Forwarded(WaitingLoad(x)).reqId == 1
  {
  }

  lemma StagesWait(s: System, x: Scene)
    requires Init(s) && Playable(x)
    ensures s.shared.nextReq < U64_MAX && Waits(s, x, Stage5(s, x))
  {
    hide Balanced, RegisterAdapter, Join, CreateInstance, AdapterOk, Forwarded;
    FirstFenceIsCurrent(x);
  }

  lemma FirstLoadLeads(s: System, x: Scene)
    requires Init(s) && Playable(x)
    ensures Leads(s, FirstLoad(x), Stage5(s, x), FirstOps(x)) && Waits(s, x, Stage5(s, x))
  {
    hide Init, Leads, Stage1, Stage2, Stage3, Stage4, Stage5, AdapterOk, Waits, CheckFence, Answers, Joining, Creating,
         Forwarding, FirstAck;
    StagesWait(s, x);
    FirstStretches(s, x);
    FiveLead(s, [Direct(AdapterOp(x.d))], Stage1(s, x), [AdapterOp(x.d)],
             Joining(x.l, x.text, Slot(x.worker, x.boot, [], true)), Stage2(s, x), [JoinOp(x.worker, x.boot, [], NIL)],
             Creating(x.i, FenceOf(x), x.text, x.inst), Stage3(s, x),
             [CreateOp(x.d.id, x.worker, x.boot, NIL, x.d.memoryBytes, x.inst)],
             Forwarding(x.i), Stage4(s, x), [Handle(1, FirstAck(x))], Stage5(s, x));
  }

  lemma FiveLead(
      s: System, e1: seq<Event>, s1: System, o1: seq<FabricOp>, e2: seq<Event>, s2: System, o2: seq<FabricOp>,
      e3: seq<Event>, s3: System, o3: seq<FabricOp>, e4: seq<Event>, s4: System, e5: seq<Event>, s5: System)
    requires Leads(s, e1, s1, o1) && Leads(s1, e2, s2, o2) && Leads(s2, e3, s3, o3)
    requires Leads(s3, e4, s4, NO_OPS) && Leads(s4, e5, s5, NO_OPS)
    ensures Leads(s, e1 + e2 + e3 + e4 + e5, s5, o1 + o2 + o3)
  {
    hide Leads;
    LeadsOn(s, e1, s1, o1, e2, s2, o2);
    LeadsOn(s, e1 + e2, s2, o1 + o2, e3, s3, o3);
    LeadsOn(s, e1 + e2 + e3, s3, o1 + o2 + o3, e4, s4, NO_OPS);
    assert o1 + o2 + o3 + NO_OPS == o1 + o2 + o3;
    LeadsOn(s, e1 + e2 + e3 + e4, s4, o1 + o2 + o3, e5, s5, NO_OPS);
  }

  lemma FirstStretches(s: System, x: Scene)
    requires Init(s) && Playable(x)
    ensures var slot := Slot(x.worker, x.boot, [], true);
      && Leads(s, [Direct(AdapterOp(x.d))], Stage1(s, x), [AdapterOp(x.d)])
      && Leads(Stage1(s, x), Joining(x.l, x.text, slot), Stage2(s, x), [JoinOp(x.worker, x.boot, [], NIL)])
      && Leads(Stage2(s, x), Creating(x.i, FenceOf(x), x.text, x.inst), Stage3(s, x),
               [CreateOp(x.d.id, x.worker, x.boot, NIL, x.d.memoryBytes, x.inst)])
      && Leads(Stage3(s, x), Forwarding(x.i), Stage4(s, x), NO_OPS)
      && Leads(Stage4(s, x), [Handle(1, FirstAck(x))], Stage5(s, x), NO_OPS)
  {
    hide Leads, AdapterOk, CheckFence, Answers, RegisterAdapter, Join, CreateInstance, Balanced, Forwarded, Reachable;
    StagesAreReady(s, x);
    FirstFenceIsCurrent(x);
    DirectLeads(s, x.d);
    JoiningLeads(Stage1(s, x), x.l, x.text, Slot(x.worker, x.boot, [], true));
    CreatingLeads(Stage2(s, x), x.i, FenceOf(x), x.text, x.inst);
    ForwardingLeads(Stage3(s, x), x.i);
    LoadCommandsStateNoSize(x);
    LoadAckAnswers(Forwarded(WaitingLoad(x)));
    HandleLeads(Stage4(s, x), 1, FirstAck(x));
  }

  // ---- the leak, from the start ----

  lemma OvertakenIsHonest(s: System, i: nat, j: nat, inst: Uuid, worker: Bytes, l: nat, ack: Message)
    requires ack in s.replies
    ensures HonestRun(s, Overtaken(i, j, inst, worker, l, ack))
  {
    hide Step, After;
    var e1, e2, es := NewTask(j, Eviction(inst), worker), Begin(j), Overtaken(i, j, inst, worker, l, ack);
    assert es[2] == Receive(l, ack) && es[..2] == [e1] + [e2];
    var none: seq<Event> := [];
    assert none + [e1] == [e1];
    AfterNothing(s);
    AfterSnoc(s, none, e1);
    AfterSnoc(s, [e1], e2);
    TaskEventsKeepHistory(s, e1);
    TaskEventsKeepHistory(Step(s, e1), e2);
    forall k | 0 <= k < |es|
      ensures Honest(After(s, es[..k]), es[k])
    {
      assert k != 2 ==> !es[k].Receive?;
    }
  }

  lemma WaitingIsExposed(s: System, x: Scene, t: System)
    requires Playable(x) && Waits(s, x, t)
    ensures Exposed(t, x.i, x.inst) && LinkIs(t, x.l, Serving) && FirstAck(x) in t.replies
    ensures t.tasks.Keys == {x.i} && t.tasks[x.i].req == 1
  {
    hide Join, RegisterAdapter, AdapterOk, Forwarded, CheckFence;
    FirstFenceIsCurrent(x);
  }

  lemma NothingIsUsed(c: CapState)
    requires Balanced(c) && c.held == map[]
    ensures Free(c, DeviceMemory) == Limit(c, DeviceMemory)
  {
    assert Used(c, DeviceMemory) == Total(c.held, DeviceMemory);
  }

  /** The whole run: the first load, and an eviction that overtakes its reply. */
  function LeakRun(x: Scene, j: nat): seq<Event> {
    FirstLoad(x) + Overtaken(x.i, j, x.inst, x.text, x.l, FirstAck(x))
  }

  /**
   Negative result, from a coordinator just started and with honest workers: this run leaves a byte reserved
   for an instance that is not there, in every continuation, whatever the adapter and the identities.
   */
  lemma LeakFromTheStart(s: System, x: Scene, j: nat, rest: seq<Event>)
    requires Init(s) && Playable(x) && j != x.i && Limit(s.shared.cap, DeviceMemory) >= 1
    ensures HonestRun(s, LeakRun(x, j))
    ensures var t := After(After(s, LeakRun(x, j)), rest);
      !Resident(t, x.inst) && HeldBy(t, x.inst) == 1 && !IsClean(t.shared.cap)
  {
    hide After, HonestRun, Conserved, Stage5, FirstLoad, Overtaken, Waits, Exposed, Free, Limit, HeldBy, IsClean;
    FirstLoadLeads(s, x);
    var t, ack := Stage5(s, x), FirstAck(x);
    WaitingIsExposed(s, x, t);
    RunConserves(s, FirstLoad(x));
    AfterConcat(s, FirstLoad(x), Overtaken(x.i, j, x.inst, x.text, x.l, ack));
    OvertakenIsHonest(t, x.i, j, x.inst, x.text, x.l, ack);
    HonestConcat(s, FirstLoad(x), Overtaken(x.i, j, x.inst, x.text, x.l, ack));
    StartIsEmpty(s, x);
    NothingIsUsed(s.shared.cap);
    LoadCommandsStateNoSize(x);
    EarlyEvictionLeaks(t, x.i, j, x.inst, x.text, x.l, ack, rest);
  }

  lemma StartIsEmpty(s: System, x: Scene)
    requires Init(s) && Playable(x)
    ensures s.shared.nextReq < U64_MAX && Stage5(s, x).shared.cap == s.shared.cap
    ensures Balanced(s.shared.cap) && s.shared.cap.held == map[]
  {
    hide Balanced, WithinLimits;
    StagesWait(s, x);
  }

  // ---- a late disconnect ----

  /** The disconnect of a slot's connection detaches every process of its worker, and of no other. */
  lemma DetachTakesDown(s: System, l: nat, worker: Uuid, boot: Uuid)
    requires Enabled(s, Detach(l))
    ensures Attached(Do(s, Detach(l)).shared.fabric, worker, boot) <==>
            Attached(s.shared.fabric, worker, boot) && worker != s.shared.slots[l].id
  {
    hide AuthorityDown, AttemptsDown, ResidenciesDown;
  }

  /** It takes down a process that is not the slot's own exactly when the worker is registered under another boot. */
  lemma DetachTakesDownAnotherExactly(s: System, l: nat)
    requires Enabled(s, Detach(l))
    ensures var f, g, slot := s.shared.fabric, Do(s, Detach(l)).shared.fabric, s.shared.slots[l];
      (exists worker, boot :: Attached(f, worker, boot) && !Attached(g, worker, boot)
                              && (worker, boot) != (slot.id, slot.boot)) <==>
      slot.id in f.workers && f.workers[slot.id].connected && f.workers[slot.id].boot != slot.boot
  {
    hide Do;
    var f, g, slot := s.shared.fabric, Do(s, Detach(l)).shared.fabric, s.shared.slots[l];
    forall worker, boot
      ensures Attached(g, worker, boot) <==> Attached(f, worker, boot) && worker != slot.id
    {
      DetachTakesDown(s, l, worker, boot);
    }
    if slot.id in f.workers {
      assert f.workers[slot.id].connected ==> Attached(f, slot.id, f.workers[slot.id].boot);
    }
  }

  /** A worker joins, joins again under another boot, and then its first connection is lost. */
  function LateDisconnect(x: Scene, l: nat, boot': Uuid): seq<Event> {
    Joining(x.l, x.text, Slot(x.worker, x.boot, [], true)) + Joining(l, x.text, Slot(x.worker, boot', [], true))
    + [LoseSlot(x.l)] + [AbortPending(x.l)] + [Detach(x.l)]
  }

  function Rejoined(s: System, x: Scene, l: nat, boot': Uuid): System {
    Joined(Joined(s, x.l, x.text, Slot(x.worker, x.boot, [], true)), l, x.text, Slot(x.worker, boot', [], true))
  }

  lemma RejoiningLeads(s: System, x: Scene, l: nat, boot': Uuid)
    requires Init(s) && l != x.l
    ensures var t := Rejoined(s, x, l, boot');
      && Leads(s, Joining(x.l, x.text, Slot(x.worker, x.boot, [], true))
                  + Joining(l, x.text, Slot(x.worker, boot', [], true)), t,
               [JoinOp(x.worker, x.boot, [], NIL)] + [JoinOp(x.worker, boot', [], NIL)])
      && LinkIs(t, x.l, Serving) && LinkIs(t, l, Serving) && Attached(t.shared.fabric, x.worker, boot')
      && t.shared.slots[x.l] == Slot(x.worker, x.boot, [], true)
      && t.shared.slots[l] == Slot(x.worker, boot', [], true)
  {
    hide Leads, Joining, Balanced, WithinLimits, AuthorityRestarted, AttemptsRestarted, ResidenciesRestarted;
    var slot, slot' := Slot(x.worker, x.boot, [], true), Slot(x.worker, boot', [], true);
    var u := Joined(s, x.l, x.text, slot);
    JoiningLeads(s, x.l, x.text, slot);
    JoiningLeads(u, l, x.text, slot');
    LeadsOn(s, Joining(x.l, x.text, slot), u, [JoinOp(x.worker, x.boot, [], NIL)],
            Joining(l, x.text, slot'), Rejoined(s, x, l, boot'), [JoinOp(x.worker, boot', [], NIL)]);
  }

  lemma Losing(s: System, l: nat)
    requires LinkIs(s, l, Serving)
    ensures var t := Step(s, LoseSlot(l));
      && LinkIs(t, l, Lost) && t.links == s.links[l := Lost] && t.shared.fabric == s.shared.fabric
      && t.shared.slots == s.shared.slots[l := s.shared.slots[l].(connected := false)]
  {
  }

  lemma Aborting(s: System, l: nat)
    requires LinkIs(s, l, Lost)
    ensures var t := Step(s, AbortPending(l));
      && LinkIs(t, l, Link.Aborted) && t.links == s.links[l := Link.Aborted]
      && t.shared.fabric == s.shared.fabric && t.shared.slots == s.shared.slots
  {
    hide AbortAll;
    AbortKeepsTheRest(s.shared);
  }

  lemma AbortKeepsTheRest(s: Shared)
    ensures AbortAll(s).slots == s.slots && AbortAll(s).fabric == s.fabric
  {
  }

  lemma Detaching(s: System, l: nat)
    requires LinkIs(s, l, Link.Aborted)
    ensures Enabled(s, Detach(l)) && Step(s, Detach(l)) == Do(s, Detach(l))
    ensures Step(s, Detach(l)).shared.slots == s.shared.slots && Step(s, Detach(l)).links == s.links[l := Gone]
  {
    hide OnWorkerDown;
  }

  /**
   Negative result: after such a run the worker's new process, whose connection serves, is registered as
   disconnected, so no fence naming it is granted anything.
   */
  lemma LateDisconnectTakesDownTheNewBoot(s: System, x: Scene, l: nat, boot': Uuid)
    requires Init(s) && l != x.l && x.boot != boot'
    ensures var t := After(s, LateDisconnect(x, l, boot'));
      && LinkIs(t, l, Serving) && t.shared.slots[l] == Slot(x.worker, boot', [], true)
      && !Attached(t.shared.fabric, x.worker, boot')
  {
    hide Leads, Joining, Do, Enabled, Step, After, Attached;
    RejoiningLeads(s, x, l, boot');
    var es := Joining(x.l, x.text, Slot(x.worker, x.boot, [], true))
              + Joining(l, x.text, Slot(x.worker, boot', [], true));
    LeadsThere(s, es, Rejoined(s, x, l, boot'),
               [JoinOp(x.worker, x.boot, [], NIL)] + [JoinOp(x.worker, boot', [], NIL)]);
    var u := After(s, es);
    Losing(u, x.l);
    var v := Step(u, LoseSlot(x.l));
    Aborting(v, x.l);
    var w := Step(v, AbortPending(x.l));
    Detaching(w, x.l);
    AfterSnoc(s, es, LoseSlot(x.l));
    AfterSnoc(s, es + [LoseSlot(x.l)], AbortPending(x.l));
    AfterSnoc(s, es + [LoseSlot(x.l)] + [AbortPending(x.l)], Detach(x.l));
    DetachTakesDown(w, x.l, x.worker, boot');
  }

  lemma LeadsThere(s: System, es: seq<Event>, t: System, ops: seq<FabricOp>)
    requires Leads(s, es, t, ops)
    ensures After(s, es) == t && FabricTrace(s, es) == ops && HonestRun(s, es)
  {
  }

  // ---- a late load, from the start ----

  /**
   The first load is answered, the worker joins again under another boot, and only then is the load committed
   and an activation for the new boot forwarded, answered and bound.
   */
  function LateRun(x: Scene, l: nat, boot': Uuid, j: nat): seq<Event> {
    FirstLoad(x) + Replying(x.i, x.l, FirstAck(x)) + Joining(l, x.text, Slot(x.worker, boot', [], true))
    + [Commit(x.i)] + Requesting(j, NextFence(x, boot'), x.text) + Forwarding(j) + [Handle(2, NextAck(x, boot'))]
    + Replying(j, l, NextAck(x, boot')) + [Commit(j)]
  }

  function NextFence(x: Scene, boot': Uuid): AuthorityFence { FirstFence(x.d, x.worker, boot', x.attempt) }

  function NextTask(x: Scene, boot': Uuid): Task {
    Task(Activate(NextFence(x, boot')), x.text, Waiting, 2, NIL, Blank(0x50), false)
  }

  function NextAck(x: Scene, boot': Uuid): Message { ActivateAck(Forwarded(NextTask(x, boot'))) }

  lemma CommitLeads(s: System, i: nat)
    requires At(s, i, Answered)
    ensures Leads(s, [Commit(i)], DoCommit(s, i), CommitOps(s.tasks[i]))
  {
    hide Leads, DoCommit, CommitOps;
    OneEvent(s, Commit(i));
  }

  lemma ActivateCommandsAreAnswered(x: Scene, boot': Uuid)
    ensures Forwarded(NextTask(x, boot')).kind == WK_ACTIVATE && Forwarded(NextTask(x, boot')).reqId == 2
    ensures NextAck(x, boot').ok && NextAck(x, boot').reqId == 2
    ensures Answers(NextAck(x, boot'), Forwarded(NextTask(x, boot')))
  {
    ActivateAckAnswers(Forwarded(NextTask(x, boot')));
  }

  function Late1(s: System, x: Scene): System
    requires x.i in s.tasks
  {
    Replied(s, x.i, FirstAck(x))
  }
  function Late2(s: System, x: Scene, l: nat, boot': Uuid): System
    requires x.i in s.tasks
  {
    Joined(Late1(s, x), l, x.text, Slot(x.worker, boot', [], true))
  }
  function Late3(s: System, x: Scene, l: nat, boot': Uuid): System
    requires x.i in s.tasks
  {
    DoCommit(Late2(s, x, l, boot'), x.i)
  }
  function Late4(s: System, x: Scene, l: nat, boot': Uuid, j: nat): System
    requires x.i in s.tasks
  {
    Requested(Late3(s, x, l, boot'), j, NextFence(x, boot'), x.text)
  }

  /** The fabric when the load is committed late. */
  function LateWorld(x: Scene, boot': Uuid): FabricState
    requires Registrable(x.d)
  {
    Join(CreateInstance(FirstWorld(x), x.d.id, x.worker, x.boot, NIL, x.d.memoryBytes, x.inst).0,
         x.worker, boot', [], NIL)
  }

  lemma NextFenceIsCurrent(x: Scene, boot': Uuid)
    requires Playable(x) && boot' != x.boot && boot' != NIL
    ensures CheckFence(MarkLoaded(LateWorld(x, boot'), x.inst, 1), NextFence(x, boot')) == Authorized
  {
    hide Join, RegisterAdapter, CreateInstance, MarkLoaded, CheckFence, AdapterOk, BindAuthority;
    var d' := x.d.(generation := 1);
    FirstAdapterAndWorker(x.d, x.worker, x.boot);
    AfterRestart(FirstWorld(x), d', x.worker, x.boot, boot', x.inst);
    LateCommitThenBind(LateWorld(x, boot'), d', x.inst, 1, NextFence(x, boot'));
  }

  lemma LateStageTwo(s: System, x: Scene, t: System, l: nat, boot': Uuid)
    requires Playable(x) && Waits(s, x, t) && l != x.l
    ensures x.i in t.tasks && l !in Late1(t, x).links
    ensures var u := Late2(t, x, l, boot');
      && At(u, x.i, Answered) && CommitOps(u.tasks[x.i]) == [LoadedOp(x.inst, 1)]
      && u.tasks.Keys == {x.i} && u.tasks[x.i].cmd.Load?
      && u.tasks[x.i].inst == x.inst && u.tasks[x.i].ack == FirstAck(x)
      && u.shared.fabric == LateWorld(x, boot') && u.shared.nextReq == 2 && LinkIs(u, l, Serving)
      && Reachable(u.shared, x.text)
  {
    hide Join, RegisterAdapter, CreateInstance, AdapterOk, Forwarded;
    LoadCommandsStateNoSize(x);
  }

  lemma LateStages(s: System, x: Scene, t: System, l: nat, boot': Uuid, j: nat)
    requires Playable(x) && Waits(s, x, t) && l != x.l && j != x.i
    ensures x.i in t.tasks
    ensures var u3, u4 := Late3(t, x, l, boot'), Late4(t, x, l, boot', j);
      && u3.shared.fabric == MarkLoaded(LateWorld(x, boot'), x.inst, 1) && j !in u3.tasks
      && At(u4, j, Begun) && u4.tasks[j] == NextTask(x, boot').(phase := Begun, req := 0)
      && Reachable(u4.shared, x.text) && u4.shared.nextReq == 2 && LinkIs(u4, l, Serving)
  {
    hide Late2, Waits, LateWorld, MarkLoaded, AdapterOk, Forwarded, Reserve, CommitOps;
    LateStageTwo(s, x, t, l, boot');
    LoadCommandsStateNoSize(x);
  }

  lemma LateCommitLeads(s: System, x: Scene, t: System, l: nat, boot': Uuid)
    requires Playable(x) && Waits(s, x, t) && l != x.l
    ensures x.i in t.tasks
    ensures Leads(Late2(t, x, l, boot'), [Commit(x.i)], Late3(t, x, l, boot'), [LoadedOp(x.inst, 1)])
  {
    hide Leads, Late2, DoCommit, CommitOps, Waits, LateWorld, FirstAck;
    LateStageTwo(s, x, t, l, boot');
    CommitLeads(Late2(t, x, l, boot'), x.i);
  }

  lemma LateStretches(s: System, x: Scene, t: System, l: nat, boot': Uuid, j: nat)
    requires Playable(x) && Waits(s, x, t) && l != x.l && j != x.i && boot' != x.boot && boot' != NIL
    ensures x.i in t.tasks
    ensures var u1, u2, u3, u4 := Late1(t, x), Late2(t, x, l, boot'), Late3(t, x, l, boot'), Late4(t, x, l, boot', j);
      && Leads(t, Replying(x.i, x.l, FirstAck(x)), u1, NO_OPS)
      && Leads(u1, Joining(l, x.text, Slot(x.worker, boot', [], true)), u2, [JoinOp(x.worker, boot', [], NIL)])
      && Leads(u2, [Commit(x.i)], u3, [LoadedOp(x.inst, 1)])
      && Leads(u3, Requesting(j, NextFence(x, boot'), x.text), u4, NO_OPS)
  {
    hide Leads, Late1, Late2, Late3, Late4, CheckFence, AdapterOk, CommitOps, Replying, Joining, Requesting, Waits,
         FirstAck, Reachable, LateWorld, MarkLoaded, NextFence, NextTask;
    LateStageTwo(s, x, t, l, boot');
    LateStages(s, x, t, l, boot', j);
    NextFenceIsCurrent(x, boot');
    LateStretchOne(s, x, t);
    LateStretchTwo(t, x, l, boot');
    LateCommitLeads(s, x, t, l, boot');
    LateStretchThree(t, x, l, boot', j);
  }

  lemma LateStretchOne(s: System, x: Scene, t: System)
    requires Playable(x) && Waits(s, x, t)
    ensures x.i in t.tasks && Leads(t, Replying(x.i, x.l, FirstAck(x)), Late1(t, x), NO_OPS)
  {
    hide Leads, AdapterOk, Replying, Forwarded, CreateInstance, Join, RegisterAdapter, Replied;
    LoadCommandsStateNoSize(x);
    ReplyingLeads(t, x.i, x.l, FirstAck(x));
  }

  lemma LateStretchTwo(t: System, x: Scene, l: nat, boot': Uuid)
    requires x.i in t.tasks && l !in Late1(t, x).links
    ensures Leads(Late1(t, x), Joining(l, x.text, Slot(x.worker, boot', [], true)), Late2(t, x, l, boot'),
                  [JoinOp(x.worker, boot', [], NIL)])
  {
    hide Leads, Late1, Joining, Joined;
    JoiningLeads(Late1(t, x), l, x.text, Slot(x.worker, boot', [], true));
  }

  lemma LateStretchThree(t: System, x: Scene, l: nat, boot': Uuid, j: nat)
    requires x.i in t.tasks && j !in Late3(t, x, l, boot').tasks
    requires CheckFence(Late3(t, x, l, boot').shared.fabric, NextFence(x, boot')) == Authorized
    ensures Leads(Late3(t, x, l, boot'), Requesting(j, NextFence(x, boot'), x.text), Late4(t, x, l, boot', j), NO_OPS)
  {
    hide Leads, Late3, Requesting, Requested, CheckFence;
    RequestingLeads(Late3(t, x, l, boot'), j, NextFence(x, boot'), x.text);
  }

  /** From a request that has begun to its bind: it is forwarded, handled, answered and bound. */
  lemma ActivationLeads(u: System, x: Scene, l: nat, boot': Uuid, j: nat)
    requires At(u, j, Begun) && u.tasks[j] == NextTask(x, boot').(phase := Begun, req := 0)
    requires Reachable(u.shared, x.text) && u.shared.nextReq == 2 && LinkIs(u, l, Serving)
    ensures exists v :: Leads(u, Forwarding(j) + [Handle(2, NextAck(x, boot'))] + Replying(j, l, NextAck(x, boot'))
                                 + [Commit(j)], v, [BindOp(NextFence(x, boot'))])
  {
    hide Leads, Forwarding, Replying, Reachable, Answers, NextAck;
    ActivateCommandsAreAnswered(x, boot');
    ForwardingLeads(u, j);
    var u1, ack := ForwardedTask(u, j), NextAck(x, boot');
    ActivationForwarded(u, x, boot', j, l);
    HandleLeads(u1, 2, ack);
    var u2 := u1.(replies := u1.replies + {ack});
    ReplyingLeads(u2, j, l, ack);
    var u3 := Replied(u2, j, ack);
    CommitLeads(u3, j);
    var ops := [BindOp(NextFence(x, boot'))];
    assert CommitOps(u3.tasks[j]) == ops;
    assert NO_OPS + NO_OPS == NO_OPS && NO_OPS + ops == ops;
    LeadsOn(u, Forwarding(j), u1, NO_OPS, [Handle(2, ack)], u2, NO_OPS);
    LeadsOn(u, Forwarding(j) + [Handle(2, ack)], u2, NO_OPS, Replying(j, l, ack), u3, NO_OPS);
    LeadsOn(u, Forwarding(j) + [Handle(2, ack)] + Replying(j, l, ack), u3, NO_OPS, [Commit(j)], DoCommit(u3, j), ops);
  }

  lemma ActivationForwarded(u: System, x: Scene, boot': Uuid, j: nat, l: nat)
    requires At(u, j, Begun) && u.tasks[j] == NextTask(x, boot').(phase := Begun, req := 0)
    requires u.shared.nextReq == 2 && LinkIs(u, l, Serving)
    ensures var u1 := ForwardedTask(u, j);
      && 2 in u1.sent && u1.sent[2] == Forwarded(NextTask(x, boot')) && At(u1, j, Waiting) && u1.tasks[j].req == 2
      && u1.tasks[j].cmd == Activate(NextFence(x, boot'))
      && 2 in u1.shared.pending && LinkIs(u1, l, Serving)
  {
    hide Forwarded;
  }

  /**
   The run of fabric operations behind the late load is one the coordinator goes through, from its start, with
   honest workers: the new boot is granted reuse of the instance that lived in the old one.
   */
  lemma LateLoadFromTheStart(s: System, x: Scene, l: nat, boot': Uuid, j: nat)
    requires Init(s) && Playable(x) && l != x.l && j != x.i && boot' != x.boot && boot' != NIL
    ensures HonestRun(s, LateRun(x, l, boot', j))
    ensures FabricTrace(s, LateRun(x, l, boot', j)) == LateLoad(x.d, x.worker, x.boot, boot', x.inst, 1, x.attempt)
    ensures var f := After(s, LateRun(x, l, boot', j)).shared.fabric;
      && ReuseSafe(f, NextFence(x, boot')) == Authorized
      && x.inst in f.residencies && f.residencies[x.inst].boot == x.boot && !Attached(f, x.worker, x.boot)
  {
    hide After, HonestRun, FabricTrace, Leads, Stage5, FirstLoad, Waits, Late1, Late2, Late3, Late4, Init, Run,
         ReuseSafe, Attached, Replying, Joining, Requesting, Forwarding, NextAck, FirstAck, SlotsFromWire, AllFromWire,
         Reachable, NextFence, NextTask;
    StartsFromWire(s);
    FirstLoadLeads(s, x);
    var t := Stage5(s, x);
    LateStages(s, x, t, l, boot', j);
    LateStretches(s, x, t, l, boot', j);
    var u1, u2, u3, u4 := Late1(t, x), Late2(t, x, l, boot'), Late3(t, x, l, boot'), Late4(t, x, l, boot', j);
    ActivationLeads(u4, x, l, boot', j);
    var e5 := Forwarding(j) + [Handle(2, NextAck(x, boot'))] + Replying(j, l, NextAck(x, boot')) + [Commit(j)];
    var v :| Leads(u4, e5, v, [BindOp(NextFence(x, boot'))]);
    LateRunLeads(s, x, t, l, boot', j, u1, u2, u3, u4, v);
    LeadsThere(s, LateRun(x, l, boot', j), v, LateLoad(x.d, x.worker, x.boot, boot', x.inst, 1, x.attempt));
    InterleavingsAreFabricRuns(s, LateRun(x, l, boot', j));
    LateLoadIsReused(x.d, x.worker, x.boot, boot', x.inst, 1, x.attempt);
    NextFenceIsFirst(x, boot');
  }

  lemma NextFenceIsFirst(x: Scene, boot': Uuid)
    ensures NextFence(x, boot') == FirstFence(x.d, x.worker, boot', x.attempt)
  {
  }

  lemma StartsFromWire(s: System)
    requires Init(s)
    ensures SlotsFromWire(s) && s.shared.fabric == FRESH && s.shared.nextReq == 1
  {
  }

  lemma LateRunLeads(
      s: System, x: Scene, t: System, l: nat, boot': Uuid, j: nat,
      u1: System, u2: System, u3: System, u4: System, v: System)
    requires Leads(s, FirstLoad(x), t, FirstOps(x))
    requires Leads(t, Replying(x.i, x.l, FirstAck(x)), u1, NO_OPS)
    requires Leads(u1, Joining(l, x.text, Slot(x.worker, boot', [], true)), u2, [JoinOp(x.worker, boot', [], NIL)])
    requires Leads(u2, [Commit(x.i)], u3, [LoadedOp(x.inst, 1)])
    requires Leads(u3, Requesting(j, NextFence(x, boot'), x.text), u4, NO_OPS)
    requires Leads(u4, Forwarding(j) + [Handle(2, NextAck(x, boot'))] + Replying(j, l, NextAck(x, boot')) + [Commit(j)],
                   v, [BindOp(NextFence(x, boot'))])
    ensures Leads(s, LateRun(x, l, boot', j), v, LateLoad(x.d, x.worker, x.boot, boot', x.inst, 1, x.attempt))
  {
    hide Leads, FirstLoad, Replying, Joining, Requesting, Forwarding, NextAck, FirstAck;
    var a, b, c := FirstLoad(x), Replying(x.i, x.l, FirstAck(x)), Joining(l, x.text, Slot(x.worker, boot', [], true));
    var d, e := [Commit(x.i)], Requesting(j, NextFence(x, boot'), x.text);
    var g, h, k := Forwarding(j), [Handle(2, NextAck(x, boot'))], Replying(j, l, NextAck(x, boot'));
    var m := [Commit(j)];
    var o1, o2, o3 := FirstOps(x), [JoinOp(x.worker, boot', [], NIL)], [LoadedOp(x.inst, 1)];
    LeadsOn(s, a, t, o1, b, u1, NO_OPS);
    assert o1 + NO_OPS == o1;
    LeadsOn(s, a + b, u1, o1, c, u2, o2);
    LeadsOn(s, a + b + c, u2, o1 + o2, d, u3, o3);
    LeadsOn(s, a + b + c + d, u3, o1 + o2 + o3, e, u4, NO_OPS);
    assert o1 + o2 + o3 + NO_OPS == o1 + o2 + o3;
    LeadsOn(s, a + b + c + d + e, u4, o1 + o2 + o3, g + h + k + m, v, [BindOp(NextFence(x, boot'))]);
    assert a + b + c + d + e + (g + h + k + m) == LateRun(x, l, boot', j);
  }
}
