/**
 The coordinator's tables, part by part, and the ends of requests: pending entries, worker slots, connections, the
 fabric operations behind events, and exactly when a request ends well (src/coordinator.cpp).
 */
module Tables {
  import opened Basics
  import opened Records
  import opened Authorities
  import opened Fabrics
  import opened FabricLaws
  import opened FabricRuns
  import opened Protocol
  import opened Workers
  import opened Coordinators
  import opened CoordinatorRuns
  import opened Checks
  import opened Correlation
  import Capacity

  // ---- pending entries ----

  /** The request is being forwarded under this id, between entering and leaving the pending table. */
  predicate Forwards(s: System, i: nat, r: u64) {
    i in s.tasks && s.tasks[i].req == r != 0 && s.tasks[i].phase in {Inserted, Waiting, Woken}
  }

  predicate Enters(s: System, e: Event, r: u64) { e.InsertEntry? && Enabled(s, e) && s.tasks[e.i].req == r }

  predicate Leaves(s: System, e: Event, r: u64) {
    (e.EraseEntry? || (e.Send? && !e.delivered)) && Enabled(s, e) && s.tasks[e.i].req == r
  }

  /** An id becomes pending when its request enters, and stops when it leaves or cannot be sent. */
  lemma PendingAfterStep(s: System, e: Event, r: u64)
    ensures r in Step(s, e).shared.pending <==> Enters(s, e, r) || (r in s.shared.pending && !Leaves(s, e, r))
  {
    hide CheckFence, CreateInstance, Invalidate, Evict, Capacity.Release, Capacity.Reserve, MarkLoaded, MarkReady,
         BindAuthority, Forwarded, Reachable, FabricRuns.Apply, OneSection, Answers, Join, OnWorkerDown;
  }

  /** How an entry changes: it is entered undone, posted to by a connection, or failed by an abort. */
  function EntryAfter(s: System, e: Event, r: u64): Option<Pending> {
    var before := if r in s.shared.entries then Some(s.shared.entries[r]) else None;
    if Enters(s, e, r) then Some(Pending(false, Blank(0x50)))
    else if e.PostHeld? && Enabled(s, e) && s.links[e.l].msg.reqId == r then Some(Pending(true, s.links[e.l].msg))
    else if e.AbortPending? && Enabled(s, e) && r in s.shared.pending && before.Some? && !before.value.done then
      Some(Pending(true, DISCONNECTED))
    else before
  }

  lemma EntryAfterStep(s: System, e: Event, r: u64)
    ensures EntryAfter(s, e, r) ==
            if r in Step(s, e).shared.entries then Some(Step(s, e).shared.entries[r]) else None
  {
    hide CheckFence, CreateInstance, Invalidate, Evict, Capacity.Release, Capacity.Reserve, MarkLoaded, MarkReady,
         BindAuthority, Forwarded, Reachable, FabricRuns.Apply, OneSection, Answers, Join, OnWorkerDown;
  }

  lemma SectionsForwardNothing(s: System, e: Event, i: nat, r: u64)
    requires i in s.tasks && (e.Check? || e.Create? || e.Begin? || e.Commit? || e.Record?) && e.i == i
    ensures Forwards(Step(s, e), i, r) <==> Forwards(s, i, r)
  {
    hide CheckFence, CreateSection, BeginSection, BeginResult, ReplySection, ReplyResult, DoSend, DoReceive, DoPost,
         DoNewTask, DoDraw, DoLookup, DoInsert, DoTake, DoErase, DoAbort, OneSection, Answers;
  }

  lemma OwnForwarding(s: System, e: Event, i: nat, r: u64)
    requires i in s.tasks && TaskOk(s, s.tasks[i]) && s.shared.nextReq != 0
    requires (e.DrawId? || e.Lookup? || e.InsertEntry? || e.Send? || e.Take? || e.EraseEntry?) && e.i == i
    ensures Forwards(Step(s, e), i, r) <==> Enters(s, e, r) || (Forwards(s, i, r) && !Leaves(s, e, r))
  {
    hide Forwarded, Reachable, DoCheck, DoCreate, DoBegin, DoCommit, DoRecord, DoReceive, DoPost, DoNewTask, DoAbort,
         OneSection, Answers, Evidence;
  }

  lemma ForwardsAfterStep(s: System, e: Event, i: nat, r: u64)
    requires Correlated(s)
    ensures Forwards(Step(s, e), i, r) <==>
            || (Enters(s, e, r) && e.i == i) || (Forwards(s, i, r) && !(Leaves(s, e, r) && e.i == i))
  {
    hide Step, Enabled, TaskOk, EntryOk;
    if i !in s.tasks {
      NewForwardsNothing(s, e, i, r);
    } else if !(IsRequestEvent(e) && e.i == i) {
      OnlyOwnEventsMove(s, e, i);
    } else if e.Check? || e.Create? || e.Begin? || e.Commit? || e.Record? {
      SectionsForwardNothing(s, e, i, r);
    } else if e.NewTask? {
      KnownIsNotNew(s, e);
    } else {
      OwnForwarding(s, e, i, r);
    }
  }

  lemma NewForwardsNothing(s: System, e: Event, i: nat, r: u64)
    requires i !in s.tasks
    ensures !Forwards(Step(s, e), i, r) && !(Enters(s, e, r) && e.i == i)
  {
    hide Step;
    if i in Step(s, e).tasks {
      NewTasksStart(s, e, i);
    }
  }

  lemma KnownIsNotNew(s: System, e: Event)
    requires e.NewTask? && e.i in s.tasks
    ensures Step(s, e) == s
  {
  }

  lemma StepKeepsPending(s: System, e: Event, r: u64)
    requires Correlated(s) && (r in s.shared.pending <==> exists i: nat :: Forwards(s, i, r))
    ensures r in Step(s, e).shared.pending <==> exists i: nat :: Forwards(Step(s, e), i, r)
  {
    hide Step, Enabled, Forwards, Correlated;
    PendingAfterStep(s, e, r);
    forall i: nat
      ensures Forwards(Step(s, e), i, r) <==>
              || (Enters(s, e, r) && e.i == i) || (Forwards(s, i, r) && !(Leaves(s, e, r) && e.i == i))
    {
      ForwardsAfterStep(s, e, i, r);
    }
    if Enters(s, e, r) {
      assert Forwards(Step(s, e), e.i, r);
    } else if r in s.shared.pending {
      var i: nat :| Forwards(s, i, r);
      if Leaves(s, e, r) {
        forall j: nat
          ensures !Forwards(Step(s, e), j, r)
        {
          if Forwards(s, j, r) {
            OnlyOneForwards(s, e, j, r);
          }
        }
      } else {
        assert Forwards(Step(s, e), i, r);
      }
    }
  }

  lemma OnlyOneForwards(s: System, e: Event, j: nat, r: u64)
    requires Correlated(s) && Leaves(s, e, r) && Forwards(s, j, r)
    ensures e.i == j
  {
    hide TaskOk, EntryOk;
  }

  /** In every run the pending table holds exactly the ids of the requests being forwarded. */
  lemma {:induction false} PendingExactly(s: System, es: seq<Event>, r: u64)
    requires Init(s)
    ensures r in After(s, es).shared.pending <==> exists i: nat :: Forwards(After(s, es), i, r)
  {
    hide Step, Correlated, Forwards;
    if es == [] {
      NothingForwards(s, r);
    } else {
      var n := |es| - 1;
      RunKeepsCorrelation(s, es[..n]);
      PendingExactly(s, es[..n], r);
      StepKeepsPending(After(s, es[..n]), es[n], r);
    }
  }

  lemma NothingForwards(s: System, r: u64)
    requires Init(s)
    ensures r !in s.shared.pending && forall i: nat :: !Forwards(s, i, r)
  {
  }

  /**
   A disconnect leaves nobody waiting: every request waiting in the tables has a done entry afterwards, the one
   it had if that was done, and the disconnection otherwise.
   */
  lemma AbortLeavesNobodyWaiting(s: System, es: seq<Event>, l: nat, i: nat)
    requires Init(s) && Enabled(After(s, es), AbortPending(l)) && At(After(s, es), i, Waiting)
    ensures var t, u := After(s, es), Step(After(s, es), AbortPending(l));
      var r := t.tasks[i].req;
      && r in t.shared.entries && r in u.shared.entries && u.shared.entries[r].done && Enabled(u, Take(i))
      && u.shared.entries[r] == if t.shared.entries[r].done then t.shared.entries[r] else Pending(true, DISCONNECTED)
  {
    hide After, Correlated;
    RunKeepsCorrelation(s, es);
    var t := After(s, es);
    WaitingIsEntered(t, i);
    PendingExactly(s, es, t.tasks[i].req);
    assert Forwards(t, i, t.tasks[i].req);
    EntryAfterStep(t, AbortPending(l), t.tasks[i].req);
    AbortMovesNoRequest(t, l);
  }

  lemma WaitingIsEntered(s: System, i: nat)
    requires Correlated(s) && At(s, i, Waiting)
    ensures s.tasks[i].req in s.shared.entries && s.tasks[i].req != 0
  {
    assert TaskOk(s, s.tasks[i]);
  }

  lemma AbortMovesNoRequest(s: System, l: nat)
    requires Enabled(s, AbortPending(l))
    ensures Step(s, AbortPending(l)).tasks == s.tasks
  {
  }

  // ---- slots, the worker table and connections ----

  /** A slot changes only when it is made and when its connection is lost. */
  lemma SlotAfterStep(s: System, e: Event, l: nat)
    ensures var before := if l in s.shared.slots then Some(s.shared.slots[l]) else None;
      var after := if l in Step(s, e).shared.slots then Some(Step(s, e).shared.slots[l]) else None;
      after ==
        if e.NewSlot? && e.l == l && Enabled(s, e) then Some(e.slot)
        else if e == LoseSlot(l) && Enabled(s, e) then Some(s.shared.slots[l].(connected := false))
        else before
  {
    hide CheckFence, CreateInstance, Invalidate, Evict, Capacity.Release, Capacity.Reserve, MarkLoaded, MarkReady,
         BindAuthority, Forwarded, Reachable, FabricRuns.Apply, OneSection, Answers, Join, OnWorkerDown;
  }

  /** A worker's text leads to the last slot made for it. */
  lemma WorkerTableAfterStep(s: System, e: Event, text: Bytes)
    ensures var before := if text in s.shared.workers then Some(s.shared.workers[text]) else None;
      var after := if text in Step(s, e).shared.workers then Some(Step(s, e).shared.workers[text]) else None;
      after == if e.NewSlot? && e.text == text && Enabled(s, e) then Some(e.l) else before
  {
    hide CheckFence, CreateInstance, Invalidate, Evict, Capacity.Release, Capacity.Reserve, MarkLoaded, MarkReady,
         BindAuthority, Forwarded, Reachable, FabricRuns.Apply, OneSection, Answers, Join, OnWorkerDown;
  }

  /** What an event of a connection makes of it. */
  function LinkAfter(s: System, e: Event, l: nat): Option<Link> {
    var before := if l in s.links then Some(s.links[l]) else None;
    if !Enabled(s, e) then before
    else if e.NewSlot? && e.l == l then Some(Announced)
    else if (e.Attach? || e.PostHeld?) && e.l == l then Some(Serving)
    else if e.Receive? && e.l == l && e.msg.reqId != 0 && e.msg.reqId in s.shared.pending then Some(Holding(e.msg))
    else if e == LoseSlot(l) then Some(Lost)
    else if e == AbortPending(l) then Some(Link.Aborted)
    else if e == Detach(l) || e == Vanish(l) then Some(Gone)
    else before
  }

  lemma RequestsMoveNoLink(s: System, e: Event)
    requires IsRequestEvent(e) || e.Direct? || e.Handle?
    ensures Step(s, e).links == s.links
  {
    hide CheckFence, CreateSection, BeginSection, BeginResult, ReplySection, ReplyResult, Forwarded, Reachable,
         FabricRuns.Apply, OneSection, Answers;
  }

  lemma LinkAfterStep(s: System, e: Event, l: nat)
    ensures LinkAfter(s, e, l) == if l in Step(s, e).links then Some(Step(s, e).links[l]) else None
  {
    hide Step;
    if IsRequestEvent(e) || e.Direct? || e.Handle? {
      RequestsMoveNoLink(s, e);
    } else {
      ConnectionsMoveLinks(s, e, l);
    }
  }

  lemma ConnectionsMoveLinks(s: System, e: Event, l: nat)
    requires !IsRequestEvent(e) && !e.Direct? && !e.Handle?
    ensures LinkAfter(s, e, l) == if l in Step(s, e).links then Some(Step(s, e).links[l]) else None
  {
    hide DoCheck, DoCreate, DoBegin, DoCommit, DoRecord, DoSend, DoDraw, DoLookup, DoInsert, DoTake, DoErase, DoNewTask,
         Join, OnWorkerDown, AbortAll, Post;
  }

  // ---- the fabric operations behind events ----

  /** The request whose good reply an event commits. */
  predicate CommitsGood(s: System, e: Event) { e.Commit? && At(s, e.i, Answered) && s.tasks[e.i].ack.ok }

  /**
   Which events are behind which operations: binds and load commits come from good replies alone, creations from
   checked loads with the adapter's registered size, losses and joins of workers from their connections.
   */
  predicate Behind(s: System, e: Event, op: FabricOp)
    requires Enabled(s, e)
  {
    match op
    case BindOp(f) => CommitsGood(s, e) && s.tasks[e.i].cmd == Activate(f)
    case LoadedOp(inst, bytes) =>
      CommitsGood(s, e) && s.tasks[e.i].cmd.Load? && s.tasks[e.i].inst == inst && s.tasks[e.i].ack.a == bytes
    case CreateOp(a, worker, boot, device, bytes, inst) =>
      && e.Create? && e.inst == inst && At(s, e.i, Checked) && s.tasks[e.i].cmd.Load?
      && (a, worker) == (s.tasks[e.i].cmd.fence.adapter, s.tasks[e.i].cmd.fence.worker)
      && (boot, device) == (s.tasks[e.i].cmd.fence.boot, s.tasks[e.i].cmd.fence.device)
      && bytes == if a in s.shared.fabric.adapters then s.shared.fabric.adapters[a].memoryBytes else 0
    case ReadyOp(a) =>
      || (e.Commit? && At(s, e.i, Answered) && s.tasks[e.i].cmd == Deactivate(a))
      || (e.Record? && At(s, e.i, Recorded) && s.tasks[e.i].cmd.Load? && s.tasks[e.i].cmd.fence.adapter == a)
    case InvalidateOp(a, trigger, reason) =>
      e.Begin? && At(s, e.i, Start) && s.tasks[e.i].cmd == Invalidation(a, reason) && trigger == MANUAL
    case EvictOp(inst) => e.Begin? && At(s, e.i, Start) && s.tasks[e.i].cmd == Eviction(inst)
    case JoinOp(worker, boot, address, node) =>
      && e.Attach? && e.node == node
      && s.shared.slots[e.l] == Slot(worker, boot, address, s.shared.slots[e.l].connected)
    case DownOp(worker) => e.Detach? && s.shared.slots[e.l].id == worker
    case _ => e == Direct(op)
  }

  lemma SectionsBehind(s: System, e: Event, op: FabricOp)
    requires Enabled(s, e) && (e.Create? || e.Begin? || e.Commit?)
    ensures op in FabricOps(s, e) <==> Behind(s, e, op)
  {
    hide OneSection, Answers;
  }

  lemma RecordBehind(s: System, e: Event, op: FabricOp)
    requires Enabled(s, e) && e.Record? && s.tasks[e.i].cmd.Load?
    ensures op in FabricOps(s, e) <==> Behind(s, e, op)
  {
    hide OneSection, Answers;
  }

  lemma ConnectionsBehind(s: System, e: Event, op: FabricOp)
    requires Enabled(s, e) && !e.Create? && !e.Begin? && !e.Commit? && !e.Record?
    ensures op in FabricOps(s, e) <==> Behind(s, e, op)
  {
    hide Answers;
  }

  lemma RecordedIsLoad(s: System, i: nat)
    requires Correlated(s) && At(s, i, Recorded)
    ensures s.tasks[i].cmd.Load?
  {
    assert TaskOk(s, s.tasks[i]);
  }

  lemma BehindExactly(s: System, e: Event, op: FabricOp)
    requires Enabled(s, e) && Correlated(s)
    ensures op in FabricOps(s, e) <==> Behind(s, e, op)
  {
    hide FabricOps, Behind, Correlated;
    if e.Create? || e.Begin? || e.Commit? {
      SectionsBehind(s, e, op);
    } else if e.Record? {
      RecordedIsLoad(s, e.i);
      RecordBehind(s, e, op);
    } else {
      ConnectionsBehind(s, e, op);
    }
  }

  /** The fabric moves in an event by exactly the operation the event is behind, and by none if it is behind none. */
  lemma FabricMovesExactly(s: System, e: Event)
    requires Enabled(s, e) && Correlated(s)
    ensures forall op :: op in FabricOps(s, e) <==> Behind(s, e, op)
    ensures |FabricOps(s, e)| <= 1
    ensures Do(s, e).shared.fabric ==
            if FabricOps(s, e) == [] then s.shared.fabric else FabricRuns.Apply(s.shared.fabric, FabricOps(s, e)[0])
  {
    hide Run, FabricRuns.Apply, Do, FabricOps, Behind, Correlated, Enabled;
    EventOnFabric(s, e);
    var ops := FabricOps(s, e);
    OneOp(s.shared.fabric, if ops == [] then EpochOp else ops[0]);
    assert ops == [] || ops == [ops[0]];
    forall op
      ensures op in FabricOps(s, e) <==> Behind(s, e, op)
    {
      BehindExactly(s, e, op);
    }
  }

  /** A load creates its instance, for its adapter and on its fence's process, at the adapter's registered size. */
  lemma LoadCreatesExactly(s: System, i: nat, inst: Uuid)
    requires Enabled(s, Create(i, inst)) && s.tasks[i].cmd.fence.adapter in s.shared.fabric.adapters
    ensures var t, f := Step(s, Create(i, inst)), s.tasks[i].cmd.fence;
      && At(t, i, Begun) && t.tasks[i].inst == inst && inst in t.generated
      && inst in t.shared.fabric.residencies
      && var r := t.shared.fabric.residencies[inst];
      && r.adapterId == f.adapter && r.worker == f.worker && r.boot == f.boot && r.device == f.device && !r.ready
      && r.bytes == s.shared.fabric.adapters[f.adapter].memoryBytes
      && r.adapterGeneration == s.shared.fabric.adapters[f.adapter].generation && r.epoch == s.shared.fabric.epoch
  {
  }

  // ---- how requests end ----

  /** What an invalidation or eviction is worth is settled where it begins. */
  predicate BeginsWell(f: FabricState, cmd: Command) {
    cmd.Invalidation? || (cmd.Eviction? && cmd.inst in f.residencies && Evictable(f.residencies[cmd.inst]))
  }

  lemma BeginsExactly(s: System, i: nat)
    requires Enabled(s, Begin(i))
    ensures At(Step(s, Begin(i)), i, Begun)
    ensures Step(s, Begin(i)).tasks[i].ok <==> BeginsWell(s.shared.fabric, s.tasks[i].cmd)
  {
    hide Invalidate, Evict, Capacity.Release;
    if s.tasks[i].cmd.Eviction? {
      EvictedExactly(s.shared.fabric, s.tasks[i].cmd.inst);
    }
  }

  /** What the last section makes of the reply. */
  predicate EndsWell(f: FabricState, t: Task) {
    match t.cmd
    case Load(_) => t.ack.ok
    case Activate(g) => t.ack.ok && Granted(f, g)
    case Deactivate(_) => t.ack.ok
    case Migrate(_) => t.ack.ok
    case _ => t.ok
  }

  /**
   After its reply a request ends, well exactly if it needs no reply and began well, or the reply is good and, for an
   activation, the fence is granted in that very section. A good load has one more section, which ends it well.
   */
  lemma CommitsExactly(s: System, i: nat)
    requires At(s, i, Answered)
    ensures var t := Step(s, Commit(i));
      && i in t.tasks && (t.tasks[i].ok <==> EndsWell(s.shared.fabric, s.tasks[i]))
      && t.tasks[i].phase == if s.tasks[i].cmd.Load? && s.tasks[i].ack.ok then Recorded else Finished
  {
    hide BindAuthority, MarkLoaded, MarkReady, Capacity.Reserve, Granted;
    if s.tasks[i].cmd.Activate? {
      BoundExactly(s.shared.fabric, s.tasks[i].cmd.fence);
    }
  }

  lemma RecordsExactly(s: System, i: nat)
    requires At(s, i, Recorded)
    ensures At(Step(s, Record(i)), i, Finished) && Step(s, Record(i)).tasks[i].ok
  {
    hide MarkReady;
  }

  /** Between its first section and its last, a request is worth what it was worth where it began. */
  predicate Settled(s: System, es: seq<Event>, k: nat, i: nat, ok: bool) {
    && Happens(s, es, k) && es[k] == Begin(i)
    && (ok <==> BeginsWell(After(s, es[..k]).shared.fabric, After(s, es[..k]).tasks[i].cmd))
  }

  predicate Unchecked(cmd: Command) { cmd.Invalidation? || cmd.Eviction? }

  lemma OnlyBeginsStart(s: System, e: Event, i: nat)
    requires At(s, i, Start) && Unchecked(s.tasks[i].cmd) && !At(Step(s, e), i, Start)
    ensures e == Begin(i) && Enabled(s, e)
  {
    hide Step, Enabled;
    if IsRequestEvent(e) && e.i == i {
      OthersDoNotBegin(s, e);
    } else {
      OnlyOwnEventsMove(s, e, i);
    }
  }

  lemma OthersDoNotBegin(s: System, e: Event)
    requires IsRequestEvent(e) && At(s, e.i, Start) && Unchecked(s.tasks[e.i].cmd)
    ensures e.Begin? <==> Enabled(s, e)
    ensures !e.Begin? ==> Step(s, e) == s
  {
  }

  lemma OnlyCommitsEnd(s: System, e: Event, i: nat)
    requires At(s, i, Answered) && e != Commit(i)
    ensures i in Step(s, e).tasks && Step(s, e).tasks[i] == s.tasks[i]
  {
    hide Step;
    if IsRequestEvent(e) && e.i == i {
      OthersAreNotDue(s, e);
    } else {
      OnlyOwnEventsMove(s, e, i);
    }
  }

  lemma OthersAreNotDue(s: System, e: Event)
    requires IsRequestEvent(e) && !e.Commit? && At(s, e.i, Answered)
    ensures Step(s, e) == s
  {
  }

  lemma UncheckedAreNotCreated(s: System, e: Event, i: nat)
    requires Correlated(s) && At(s, i, Checked) && Unchecked(s.tasks[i].cmd)
    ensures i in Step(s, e).tasks && Step(s, e).tasks[i] == s.tasks[i]
  {
    hide Correlated;
    if !(IsRequestEvent(e) && e.i == i) {
      OnlyOwnEventsMove(s, e, i);
    }
  }

  lemma WorthStays(s: System, e: Event, i: nat)
    requires Correlated(s) && i in s.tasks && Unchecked(s.tasks[i].cmd) && s.tasks[i].phase != Start
    ensures i in Step(s, e).tasks && Step(s, e).tasks[i].cmd == s.tasks[i].cmd
    ensures Step(s, e).tasks[i].phase != Start && Step(s, e).tasks[i].ok == s.tasks[i].ok
  {
    hide Step, Correlated;
    CommandStays(s, e, i);
    if At(s, i, Answered) {
      if e == Commit(i) {
        CommitsExactly(s, i);
      } else {
        OnlyCommitsEnd(s, e, i);
      }
    } else if At(s, i, Checked) {
      UncheckedAreNotCreated(s, e, i);
    } else if At(s, i, Recorded) {
      RecordedIsLoad(s, i);
    }
  }

  /** An invalidation ends well; an eviction ends well exactly if its instance was resident and evictable. */
  lemma {:induction false} EvictionsEndExactly(s: System, es: seq<Event>, i: nat)
    requires Init(s) && i in After(s, es).tasks && Unchecked(After(s, es).tasks[i].cmd)
    requires After(s, es).tasks[i].phase != Start
    ensures exists k: nat :: Settled(s, es, k, i, After(s, es).tasks[i].ok)
  {
    hide Step, Enabled, Correlated, BeginsWell;
    if es == [] {
      NoTasksAtFirst(s);
      assert false;
    } else {
      var n := |es| - 1;
      var t := After(s, es[..n]);
      RunKeepsCorrelation(s, es[..n]);
      if i !in t.tasks {
        NewTasksStart(t, es[n], i);
        assert false;
      } else {
        CommandStays(t, es[n], i);
        if t.tasks[i].phase == Start {
          OnlyBeginsStart(t, es[n], i);
          BeginsExactly(t, i);
          assert Settled(s, es, n, i, After(s, es).tasks[i].ok);
        } else {
          WorthStays(t, es[n], i);
          EvictionsEndExactly(s, es[..n], i);
          var k: nat :| Settled(s, es[..n], k, i, t.tasks[i].ok);
          assert es[..n][..k] == es[..k];
          assert Settled(s, es, k, i, After(s, es).tasks[i].ok);
        }
      }
    }
  }
}
