/**
 What comes of a request on its way through the coordinator: what was checked, found and sent for it, which tables
 it is in, and how it ends (src/coordinator.cpp).
 */
module Requests {
  import opened Basics
  import opened Records
  import opened Authorities
  import opened Fabrics
  import opened FabricLaws
  import opened Protocol
  import opened Workers
  import opened Coordinators
  import opened CoordinatorRuns
  import opened Checks
  import opened Correlation
  import Capacity
  import FabricRuns
  import Uuids

  lemma BegunDraws(s: System, e: Event, i: nat)
    requires At(s, i, Begun)
    ensures i in Step(s, e).tasks
    ensures Step(s, e).tasks[i] == s.tasks[i] ||
            Step(s, e).tasks[i] == s.tasks[i].(phase := Drawn, req := s.shared.nextReq)
  {
    hide CheckFence, CreateSection, BeginSection, BeginResult, ReplySection, ReplyResult, Forwarded, Reachable,
         FabricRuns.Apply, OneSection, Answers, FabricRuns.Join, OnWorkerDown, AbortAll;
  }

  // ---- what was generated and sent was checked ----

  /** The instance was generated for this load. */
  predicate MadeFor(s: System, i: nat, inst: Uuid) {
    && i in s.tasks && s.tasks[i].cmd.Load? && s.tasks[i].inst == inst
    && s.tasks[i].phase !in {Start, Checked} && (s.tasks[i].phase == Begun || s.tasks[i].req != 0)
  }

  lemma MadeStays(s: System, e: Event, i: nat, inst: Uuid)
    requires Correlated(s) && MadeFor(s, i, inst)
    ensures MadeFor(Step(s, e), i, inst)
  {
    hide Step, TaskOk, EntryOk;
    CommandStays(s, e, i);
    if s.tasks[i].phase == Begun {
      BegunDraws(s, e, i);
    }
  }

  lemma OnlyCreatesGenerate(s: System, e: Event, inst: Uuid)
    requires inst in Step(s, e).generated && inst !in s.generated
    ensures e.Create? && e.inst == inst && MadeFor(Step(s, e), e.i, inst)
  {
    hide CheckFence, CreateSection, BeginSection, BeginResult, ReplySection, ReplyResult, Forwarded, Reachable,
         FabricRuns.Apply, OneSection, Answers, FabricRuns.Join, OnWorkerDown, AbortAll;
  }

  lemma {:induction false} GeneratedForALoad(s: System, es: seq<Event>, inst: Uuid)
    requires Init(s) && inst in After(s, es).generated
    ensures exists i: nat :: MadeFor(After(s, es), i, inst)
  {
    hide Step, Correlated, MadeFor;
    if es != [] {
      var n := |es| - 1;
      var t := After(s, es[..n]);
      if inst in t.generated {
        GeneratedForALoad(s, es[..n], inst);
        var i: nat :| MadeFor(t, i, inst);
        RunKeepsCorrelation(s, es[..n]);
        MadeStays(t, es[n], i, inst);
      } else {
        OnlyCreatesGenerate(t, es[n], inst);
      }
    }
  }

  /** Every generated instance is that of a load which passed a check under which its fence was current. */
  lemma GeneratedWasChecked(s: System, es: seq<Event>, inst: Uuid)
    requires Init(s) && inst in After(s, es).generated
    ensures exists i: nat, k: nat ::
              MadeFor(After(s, es), i, inst) && CheckedAt(s, es, k, i, After(s, es).tasks[i].cmd.fence)
  {
    hide After, CheckedAt;
    GeneratedForALoad(s, es, inst);
    var i: nat :| MadeFor(After(s, es), i, inst);
    NothingIsPastAtFirst(s);
    PassedWasChecked(s, es, i);
    var k: nat :| CheckedAt(s, es, k, i, After(s, es).tasks[i].cmd.fence);
    assert MadeFor(After(s, es), i, inst) && CheckedAt(s, es, k, i, After(s, es).tasks[i].cmd.fence);
  }

  /** The command under this id was sent for this request. */
  predicate SentFor(s: System, i: nat, r: u64) {
    i in s.tasks && s.tasks[i].req == r != 0 && r in s.sent && s.sent[r] == Forwarded(s.tasks[i])
  }

  lemma SentStays(s: System, e: Event)
    requires Correlated(s)
    ensures forall r <- s.sent :: r in Step(s, e).sent && Step(s, e).sent[r] == s.sent[r]
  {
    hide Correlated, DoCheck, DoCreate, DoBegin, DoCommit, DoRecord, DoSend, DoReceive, DoPost, DoNewTask, DoDraw,
         DoLookup, DoInsert, DoTake, DoErase, DoAbort, OneSection, Answers, Put, Forwarded;
    TaskEventsKeepHistory(s, e);
    if e.Send? && Enabled(s, e) {
      SendAddsItsCommand(s, e.i, e.delivered);
    }
  }

  lemma HasId(s: System, x: Task)
    requires TaskOk(s, x) && x.req != 0
    ensures x.phase !in {Start, Checked, Begun}
  {
  }

  lemma SentForStays(s: System, e: Event, i: nat, r: u64)
    requires Correlated(s) && SentFor(s, i, r)
    ensures SentFor(Step(s, e), i, r)
  {
    hide Step, TaskOk, EntryOk, Forwarded;
    HasId(s, s.tasks[i]);
    CommandStays(s, e, i);
    SentStays(s, e);
    SameCommand(s.tasks[i], Step(s, e).tasks[i]);
  }

  lemma OnlySendsSend(s: System, e: Event, r: u64)
    requires Correlated(s) && r in Step(s, e).sent && r !in s.sent
    ensures e.Send? && SentFor(Step(s, e), e.i, r) && At(s, e.i, Inserted) && s.tasks[e.i].req == r
  {
    hide Forwarded, EntryOk, DoCheck, DoCreate, DoBegin, DoCommit, DoRecord, DoReceive, DoPost, DoNewTask, DoDraw,
         DoLookup, DoInsert, DoTake, DoErase, DoAbort, OneSection, Answers;
    TaskEventsKeepHistory(s, e);
    assert TaskOk(s, s.tasks[e.i]);
    SameCommand(s.tasks[e.i], Step(s, e).tasks[e.i]);
  }

  lemma {:induction false} SentForARequest(s: System, es: seq<Event>, r: u64)
    requires Init(s) && r in After(s, es).sent
    ensures exists i: nat :: SentFor(After(s, es), i, r)
  {
    hide Step, Correlated, SentFor;
    if es != [] {
      var n := |es| - 1;
      var t := After(s, es[..n]);
      RunKeepsCorrelation(s, es[..n]);
      if r in t.sent {
        SentForARequest(s, es[..n], r);
        var i: nat :| SentFor(t, i, r);
        SentForStays(t, es[n], i, r);
      } else {
        OnlySendsSend(t, es[n], r);
      }
    }
  }

  /** Every load or activate command ever sent is that of a request which passed a check with a current fence. */
  lemma SentWasChecked(s: System, es: seq<Event>, r: u64)
    requires Init(s) && r in After(s, es).sent && After(s, es).sent[r].kind in {WK_LOAD, WK_ACTIVATE}
    ensures exists i: nat, k: nat :: SentFor(After(s, es), i, r) && IsChecked(After(s, es).tasks[i].cmd)
              && CheckedAt(s, es, k, i, After(s, es).tasks[i].cmd.fence)
  {
    hide After, CheckedAt;
    SentForARequest(s, es, r);
    var i: nat :| SentFor(After(s, es), i, r);
    RunKeepsCorrelation(s, es);
    HasId(After(s, es), After(s, es).tasks[i]);
    NothingIsPastAtFirst(s);
    PassedWasChecked(s, es, i);
    var k: nat :| CheckedAt(s, es, k, i, After(s, es).tasks[i].cmd.fence);
    assert SentFor(After(s, es), i, r) && CheckedAt(s, es, k, i, After(s, es).tasks[i].cmd.fence);
  }

  // ---- what was sent went to a connected worker ----

  /** Event `k` looked the request's worker up, and its slot was connected. */
  predicate FoundAt(s: System, es: seq<Event>, k: nat, i: nat, worker: Bytes) {
    && Happens(s, es, k) && es[k] == Lookup(i)
    && var t := After(s, es[..k]).shared;
    worker in t.workers && t.workers[worker] in t.slots && t.slots[t.workers[worker]].connected
  }

  /** A worker has been found for the request. */
  predicate HasWorker(s: System, i: nat) {
    i in s.tasks && (s.tasks[i].phase in {Found, Inserted} || (s.tasks[i].req != 0 && s.tasks[i].req in s.sent))
  }

  lemma OnlyLookupsFind(s: System, e: Event, i: nat)
    requires At(Step(s, e), i, Found) && !At(s, i, Found)
    ensures e == Lookup(i) && Enabled(s, e)
    ensures var t := s.shared; var w := Step(s, e).tasks[i].worker;
      w in t.workers && t.workers[w] in t.slots && t.slots[t.workers[w]].connected
  {
    hide CheckFence, CreateSection, BeginSection, BeginResult, ReplySection, ReplyResult, Forwarded,
         FabricRuns.Apply, OneSection, Answers, FabricRuns.Join, OnWorkerDown, AbortAll;
  }

  lemma OnlyFoundAreInserted(s: System, e: Event, i: nat)
    requires At(Step(s, e), i, Inserted) && !At(s, i, Inserted)
    ensures At(s, i, Found)
  {
    hide CheckFence, CreateSection, BeginSection, BeginResult, ReplySection, ReplyResult, Forwarded, Reachable,
         FabricRuns.Apply, OneSection, Answers, FabricRuns.Join, OnWorkerDown, AbortAll;
  }

  lemma WorkersAreFoundFirst(s: System, e: Event, i: nat)
    requires Correlated(s) && HasWorker(Step(s, e), i) && !HasWorker(s, i)
    ensures At(Step(s, e), i, Found) && !At(s, i, Found)
  {
    hide Step, Forwarded, EntryOk;
    var t := Step(s, e);
    if t.tasks[i].phase == Inserted {
      OnlyFoundAreInserted(s, e, i);
    } else if t.tasks[i].phase != Found {
      var r := t.tasks[i].req;
      if i !in s.tasks {
        NewTasksStart(s, e, i);
      } else {
        CommandStays(s, e, i);
        if r in s.sent {
          assert r < s.shared.nextReq;
          if s.tasks[i].phase == Begun {
            BegunDraws(s, e, i);
          }
        } else {
          OnlySendsSend(s, e, r);
          SenderIs(s, e, i, r);
        }
      }
    }
  }

  lemma SenderIs(s: System, e: Event, i: nat, r: u64)
    requires Correlated(s) && i in s.tasks && i in Step(s, e).tasks && Step(s, e).tasks[i].req == r != 0
    requires e.Send? && At(s, e.i, Inserted) && s.tasks[e.i].req == r
    ensures HasWorker(s, i)
  {
    hide Step, Forwarded, EntryOk;
    CommandStays(s, e, i);
    assert TaskOk(s, s.tasks[e.i]);
    if s.tasks[i].phase == Begun {
      BegunDraws(s, e, i);
    }
  }

  /** A command is sent only after its worker was looked up and its slot found connected. */
  lemma {:induction false} SentWasFound(s: System, es: seq<Event>, i: nat)
    requires Init(s) && HasWorker(After(s, es), i)
    ensures exists k: nat :: FoundAt(s, es, k, i, After(s, es).tasks[i].worker)
  {
    hide Step, Enabled, Correlated, HasWorker;
    if es == [] {
      NobodyHasAWorker(s, i);
      assert false;
    } else {
      var n := |es| - 1;
      var t := After(s, es[..n]);
      RunKeepsCorrelation(s, es[..n]);
      if HasWorker(t, i) {
        WorkerIsOfATask(t, i);
        CommandStays(t, es[n], i);
        SentWasFound(s, es[..n], i);
        var k: nat :| FoundAt(s, es[..n], k, i, t.tasks[i].worker);
        assert es[..n][..k] == es[..k];
        assert FoundAt(s, es, k, i, t.tasks[i].worker);
      } else {
        WorkersAreFoundFirst(t, es[n], i);
        OnlyLookupsFind(t, es[n], i);
        assert FoundAt(s, es, n, i, After(s, es).tasks[i].worker);
      }
    }
  }

  lemma NobodyHasAWorker(s: System, i: nat)
    requires Init(s)
    ensures !HasWorker(s, i)
  {
  }

  lemma WorkerIsOfATask(s: System, i: nat)
    requires HasWorker(s, i)
    ensures i in s.tasks
  {
  }
}
