/** Loading, evicting and the accountant: who holds device memory, in every interleaving. */
module Conservation {
  import opened Basics
  import opened Records
  import opened Capacity
  import opened Fabrics
  import opened Workers
  import opened Coordinators
  import opened CoordinatorRuns
  import FabricRuns
  import Uuids

  /** Device memory held in the instance's name. */
  function HeldBy(s: System, inst: Uuid): u64 {
    Held(s.shared.cap, DeviceMemory, Uuids.Text(inst))
  }

  predicate Resident(s: System, inst: Uuid) { inst in s.shared.fabric.residencies }

  /** Only a generated instance holds anything, and while it is resident that is exactly its recorded bytes. */
  predicate Accounted(s: System, inst: Uuid) {
    HeldBy(s, inst) != 0 ==>
      inst in s.generated && (Resident(s, inst) ==> s.shared.fabric.residencies[inst].bytes == HeldBy(s, inst))
  }

  predicate LoadOk(s: System, t: Task) {
    && (t.inst != NIL ==> t.cmd.Load? && t.inst in s.generated && t.phase !in {Start, Checked})
    && (t.cmd.Load? && t.phase !in {Start, Checked, Finished} ==> t.inst != NIL)
    && (Uncommitted(t) ==> HeldBy(s, t.inst) == 0)
  }

  ghost predicate Named(owner: Bytes) { exists inst: Uuid :: owner == Uuids.Text(inst) }

  /** Nothing but device memory is held, and nobody but instances holds it. */
  ghost predicate OnlyInstancesHold(c: CapState) {
    forall loc, owner :: Held(c, loc, owner) != 0 ==> loc == DeviceMemory && Named(owner)
  }

  ghost predicate Instances(s: System) {
    && s.shared.fabric.residencies.Keys <= s.generated && NIL !in s.generated
    && (forall i, j :: i in s.tasks && j in s.tasks && i != j && s.tasks[i].inst == s.tasks[j].inst ==>
          s.tasks[i].inst == NIL)
  }

  ghost predicate Conserved(s: System) {
    && Balanced(s.shared.cap) && WithinLimits(s.shared.cap) && OnlyInstancesHold(s.shared.cap)
    && Instances(s)
    && (forall inst: Uuid :: Accounted(s, inst))
    && (forall i <- s.tasks :: LoadOk(s, s.tasks[i]))
  }

  /** An instance that is gone, and whose load is over. */
  predicate Abandoned(s: System, inst: Uuid) {
    && inst != NIL && inst in s.generated && !Resident(s, inst)
    && forall i <- s.tasks :: Uncommitted(s.tasks[i]) ==> s.tasks[i].inst != inst
  }

  /** Memory held in the name of an instance that is not there. */
  predicate Leaked(s: System, inst: Uuid) { HeldBy(s, inst) != 0 && !Resident(s, inst) }

  /** What the accountant keeps for abandoned instances, it keeps for good. */
  ghost predicate Onward(s: System, t: System) {
    && Conserved(t)
    && forall inst :: Abandoned(s, inst) ==> Abandoned(t, inst) && HeldBy(t, inst) == HeldBy(s, inst)
  }

  /** And nothing is leaked that was not before. */
  ghost predicate Tidy(s: System, t: System) {
    Onward(s, t) && forall inst :: Leaked(t, inst) ==> Leaked(s, inst)
  }

  // ---- events that load and evict nothing ----

  /** The same instances are resident, with the same recorded bytes. */
  predicate SameBytes(f: FabricState, g: FabricState) {
    && g.residencies.Keys == f.residencies.Keys
    && forall inst <- f.residencies :: g.residencies[inst].bytes == f.residencies[inst].bytes
  }

  lemma WorkersKeepBytes(f: FabricState, op: FabricRuns.FabricOp)
    requires op.JoinOp? || op.DownOp?
    ensures SameBytes(f, FabricRuns.Apply(f, op))
  {
    hide AuthorityDown, AttemptsDown, AuthorityRestarted, AttemptsRestarted;
  }

  lemma PinKeepsBytes(f: FabricState, inst: Uuid)
    ensures SameBytes(f, Pin(f, inst).0)
  {
  }

  lemma UnpinKeepsBytes(f: FabricState, inst: Uuid)
    ensures SameBytes(f, Unpin(f, inst).0)
  {
  }

  lemma OpsKeepBytes(f: FabricState, op: FabricRuns.FabricOp)
    requires !op.CreateOp? && !op.EvictOp? && !op.LoadedOp?
    ensures SameBytes(f, FabricRuns.Apply(f, op))
  {
    hide RegisterAdapter, PublishComposition, BindAuthority, Invalidate, Pin, Unpin, MarkReady, FabricRuns.Join,
         OnWorkerDown;
    match op {
      case JoinOp(_, _, _, _) => WorkersKeepBytes(f, op);
      case DownOp(_) => WorkersKeepBytes(f, op);
      case PinOp(inst) => PinKeepsBytes(f, inst);
      case UnpinOp(inst) => UnpinKeepsBytes(f, inst);
      case _ => FabricRuns.StepFrame(f, op);
    }
  }

  /** A request that moves on without loading or evicting. */
  predicate MovesOn(x: Task, y: Task) {
    && y.cmd == x.cmd && y.inst == x.inst && (Uncommitted(y) ==> Uncommitted(x))
    && (y.phase in {Start, Checked} ==> x.phase in {Start, Checked})
    && (y.cmd.Load? && y.phase !in {Start, Checked, Finished} ==> x.phase !in {Start, Checked, Finished})
  }

  ghost predicate NoLoads(s: System, t: System) {
    && t.shared.cap == s.shared.cap && SameBytes(s.shared.fabric, t.shared.fabric)
    && t.generated == s.generated
  }

  lemma OthersStay(s: System, t: System)
    requires Conserved(s) && NoLoads(s, t)
    ensures forall inst: Uuid :: Accounted(t, inst)
    ensures forall i <- s.tasks :: LoadOk(t, s.tasks[i])
  {
    hide Balanced, WithinLimits, OnlyInstancesHold, Held, Uncommitted;
    forall inst: Uuid
      ensures Accounted(t, inst)
    {
      assert Accounted(s, inst);
    }
    forall i | i in s.tasks
      ensures LoadOk(t, s.tasks[i])
    {
      assert LoadOk(s, s.tasks[i]);
    }
  }

  lemma SameHoldings(s: System, t: System)
    requires NoLoads(s, t)
    ensures forall inst :: Leaked(t, inst) ==> Leaked(s, inst)
  {
    hide Held;
  }

  lemma MovingOnKeepsAbandoned(s: System, t: System, i: nat, y: Task, inst: Uuid)
    requires Abandoned(s, inst) && NoLoads(s, t) && t.tasks == s.tasks[i := y]
    requires if i in s.tasks then MovesOn(s.tasks[i], y) else y.inst == NIL && y.phase == Start
    ensures Abandoned(t, inst) && HeldBy(t, inst) == HeldBy(s, inst)
  {
    hide Held;
  }

  lemma MovingOnConserves(s: System, t: System, i: nat, y: Task)
    requires Conserved(s) && NoLoads(s, t) && t.tasks == s.tasks[i := y]
    requires if i in s.tasks then MovesOn(s.tasks[i], y) else y.inst == NIL && y.phase == Start
    ensures Tidy(s, t)
  {
    hide Balanced, WithinLimits, OnlyInstancesHold, Held, Accounted, Abandoned, Leaked;
    OthersStay(s, t);
    SameHoldings(s, t);
    forall inst | Abandoned(s, inst)
      ensures Abandoned(t, inst) && HeldBy(t, inst) == HeldBy(s, inst)
    {
      MovingOnKeepsAbandoned(s, t, i, y, inst);
    }
  }

  lemma StandingStillConserves(s: System, t: System)
    requires Conserved(s) && NoLoads(s, t) && t.tasks == s.tasks
    ensures Tidy(s, t)
  {
    hide Balanced, WithinLimits, OnlyInstancesHold, Held, Accounted, LoadOk, Uncommitted, Leaked;
    OthersStay(s, t);
    SameHoldings(s, t);
  }

  // ---- creating, evicting, committing ----

  lemma CreateKeepsAbandoned(s: System, i: nat, next: Uuid, inst: Uuid)
    requires Enabled(s, Create(i, next)) && Abandoned(s, inst)
    ensures Abandoned(DoCreate(s, i, next), inst) && HeldBy(DoCreate(s, i, next), inst) == HeldBy(s, inst)
  {
    hide Held;
  }

  /** One more instance, resident unless its adapter is unknown, and in flight as the request goes on. */
  ghost predicate OneMore(s: System, t: System, i: nat, inst: Uuid) {
    && t.shared.cap == s.shared.cap
    && i in s.tasks && i in t.tasks && t.tasks == s.tasks[i := t.tasks[i]]
    && (forall u <- s.shared.fabric.residencies :: u != inst ==>
          u in t.shared.fabric.residencies && t.shared.fabric.residencies[u] == s.shared.fabric.residencies[u])
    && (if t.tasks[i].phase == Finished
        then t.generated == s.generated && t.tasks[i].inst == s.tasks[i].inst
             && t.shared.fabric.residencies.Keys == s.shared.fabric.residencies.Keys
        else t.generated == s.generated + {inst} && t.tasks[i].inst == inst && t.tasks[i].phase == Begun
             && t.shared.fabric.residencies.Keys == s.shared.fabric.residencies.Keys + {inst})
    && t.tasks[i].cmd.Load?
  }

  lemma CreateAddsOne(s: System, i: nat, inst: Uuid)
    requires At(s, i, Checked) && s.tasks[i].cmd.Load? && inst !in s.shared.fabric.residencies
    ensures var t := DoCreate(s, i, inst);
      OneMore(s, t, i, inst) && t.tasks[i].cmd == s.tasks[i].cmd && t.shared.cap == s.shared.cap
  {
  }

  lemma OneMoreIsAccounted(s: System, t: System, i: nat, inst: Uuid)
    requires Conserved(s) && OneMore(s, t, i, inst) && inst !in s.generated
    ensures forall u: Uuid :: Accounted(t, u)
  {
    hide Balanced, WithinLimits, OnlyInstancesHold, Held, LoadOk;
    assert Accounted(s, inst);
    forall u: Uuid
      ensures Accounted(t, u)
    {
      assert Accounted(s, u);
    }
  }

  lemma OneMoreLoadsOk(s: System, t: System, i: nat, inst: Uuid)
    requires Conserved(s) && OneMore(s, t, i, inst) && inst !in s.generated && inst != NIL
    requires s.tasks[i].inst == NIL && s.tasks[i].cmd == t.tasks[i].cmd
    ensures Instances(t)
    ensures forall j <- t.tasks :: LoadOk(t, t.tasks[j])
  {
    hide Balanced, WithinLimits, OnlyInstancesHold, Held;
    assert Accounted(s, inst);
    forall j | j in t.tasks
      ensures LoadOk(t, t.tasks[j])
    {
      assert LoadOk(s, s.tasks[j]);
    }
  }

  lemma CreateKeepsBooks(s: System, i: nat, inst: Uuid)
    requires Conserved(s) && At(s, i, Checked) && s.tasks[i].cmd.Load? && inst !in s.generated && inst != NIL
    ensures Conserved(DoCreate(s, i, inst))
  {
    hide Balanced, WithinLimits, OnlyInstancesHold, Held, DoCreate, Accounted, Instances, OneMore;
    var t := DoCreate(s, i, inst);
    NewIsNotResident(s, inst);
    CreateAddsOne(s, i, inst);
    OneMoreIsAccounted(s, t, i, inst);
    assert LoadOk(s, s.tasks[i]);
    OneMoreLoadsOk(s, t, i, inst);
  }

  lemma NewIsNotResident(s: System, inst: Uuid)
    requires Instances(s) && inst !in s.generated
    ensures inst !in s.shared.fabric.residencies
  {
  }

  lemma CreateLeaksNothing(s: System, i: nat, inst: Uuid)
    requires Conserved(s) && At(s, i, Checked) && s.tasks[i].cmd.Load? && inst !in s.generated && inst != NIL
    ensures forall u :: Leaked(DoCreate(s, i, inst), u) ==> Leaked(s, u)
  {
    hide Conserved, Held, DoCreate;
    assert inst !in s.shared.fabric.residencies by { NewInConserved(s, inst); }
    CreateAddsOne(s, i, inst);
  }

  lemma NewInConserved(s: System, inst: Uuid)
    requires Conserved(s) && inst !in s.generated
    ensures inst !in s.shared.fabric.residencies
  {
  }

  lemma CreateConserves(s: System, i: nat, inst: Uuid)
    requires Conserved(s) && Enabled(s, Create(i, inst))
    ensures Tidy(s, DoCreate(s, i, inst))
  {
    hide Conserved, Abandoned, HeldBy, Leaked, DoCreate, DoBegin, DoCommit;
    CreateKeepsBooks(s, i, inst);
    CreateLeaksNothing(s, i, inst);
    forall gone | Abandoned(s, gone)
      ensures Abandoned(DoCreate(s, i, inst), gone) && HeldBy(DoCreate(s, i, inst), gone) == HeldBy(s, gone)
    {
      CreateKeepsAbandoned(s, i, inst, gone);
    }
  }

  lemma SameText(u: Uuid, v: Uuid)
    ensures Uuids.Text(u) == Uuids.Text(v) ==> u == v
  {
    if Uuids.Text(u) == Uuids.Text(v) {
      Uuids.TextInjective(u, v);
    }
  }

  /** The accountant changed one instance's holding, and nothing else. */
  ghost predicate OnlyHolding(c: CapState, d: CapState, inst: Uuid) {
    forall loc, owner :: (loc, owner) != (DeviceMemory, Uuids.Text(inst)) ==> Held(d, loc, owner) == Held(c, loc, owner)
  }

  lemma OneHolder(s: System, t: System, inst: Uuid, u: Uuid)
    requires OnlyHolding(s.shared.cap, t.shared.cap, inst) && u != inst
    ensures HeldBy(t, u) == HeldBy(s, u)
  {
    SameText(u, inst);
  }

  lemma StillOnlyInstances(c: CapState, d: CapState, inst: Uuid)
    requires OnlyInstancesHold(c) && OnlyHolding(c, d, inst)
    ensures OnlyInstancesHold(d)
  {
    assert Named(Uuids.Text(inst));
  }

  /** Committing reserves the acknowledged bytes if the instance holds nothing and they fit, and otherwise nothing. */
  lemma CommitReserves(c: CapState, inst: Uuid, bytes: u64)
    requires Balanced(c) && WithinLimits(c) && Held(c, DeviceMemory, Uuids.Text(inst)) == 0
    ensures var d := Reserve(c, DeviceMemory, bytes, Uuids.Text(inst)).0;
      && Balanced(d) && WithinLimits(d) && OnlyHolding(c, d, inst)
      && Held(d, DeviceMemory, Uuids.Text(inst)) == if bytes <= Free(c, DeviceMemory) then bytes else 0
  {
    hide Balanced, WithinLimits, Reserve, Uuids.Text;
    ReserveIsExact(c, DeviceMemory, bytes, Uuids.Text(inst));
  }

  /** Evicting releases what is held, when that is nothing or exactly the recorded bytes. */
  lemma EvictReleases(c: CapState, inst: Uuid, bytes: u64)
    requires Balanced(c) && WithinLimits(c) && Held(c, DeviceMemory, Uuids.Text(inst)) in {0, bytes}
    ensures var d := Release(c, DeviceMemory, bytes, Uuids.Text(inst)).0;
      && Balanced(d) && WithinLimits(d) && OnlyHolding(c, d, inst)
      && Held(d, DeviceMemory, Uuids.Text(inst)) == 0
  {
    hide Balanced, WithinLimits, Release, Uuids.Text;
    ReleaseIsExact(c, DeviceMemory, bytes, Uuids.Text(inst));
  }

  lemma CommitKeepsAbandoned(s: System, i: nat, inst: Uuid)
    requires Conserved(s) && Abandoned(s, inst) && At(s, i, Answered) && s.tasks[i].cmd.Load? && s.tasks[i].ack.ok
    ensures Abandoned(DoCommit(s, i), inst) && HeldBy(DoCommit(s, i), inst) == HeldBy(s, inst)
  {
    hide Balanced, WithinLimits, OnlyInstancesHold, OnlyHolding, Held, Reserve;
    var t, x := DoCommit(s, i), s.tasks[i];
    assert LoadOk(s, x);
    CommitReserves(s.shared.cap, x.inst, x.ack.a);
    OneHolder(s, t, x.inst, inst);
  }

  lemma CommitKeepsBooks(s: System, i: nat)
    requires Conserved(s) && At(s, i, Answered) && s.tasks[i].cmd.Load? && s.tasks[i].ack.ok
    ensures Conserved(DoCommit(s, i))
  {
    hide Balanced, WithinLimits, Held, Reserve, OnlyInstancesHold, OnlyHolding;
    var t, x := DoCommit(s, i), s.tasks[i];
    assert LoadOk(s, x);
    CommitReserves(s.shared.cap, x.inst, x.ack.a);
    StillOnlyInstances(s.shared.cap, t.shared.cap, x.inst);
    forall u: Uuid
      ensures Accounted(t, u)
    {
      assert Accounted(s, u);
      if u != x.inst {
        OneHolder(s, t, x.inst, u);
      }
    }
    forall j | j in t.tasks
      ensures LoadOk(t, t.tasks[j])
    {
      assert LoadOk(s, s.tasks[j]);
      if j != i && s.tasks[j].inst != NIL {
        OneHolder(s, t, x.inst, s.tasks[j].inst);
      }
    }
  }

  lemma CommitConserves(s: System, i: nat)
    requires Conserved(s) && At(s, i, Answered) && s.tasks[i].cmd.Load? && s.tasks[i].ack.ok
    ensures Onward(s, DoCommit(s, i))
  {
    hide Conserved, Abandoned, HeldBy, DoCreate, DoBegin, DoCommit;
    CommitKeepsBooks(s, i);
    forall gone | Abandoned(s, gone)
      ensures Abandoned(DoCommit(s, i), gone) && HeldBy(DoCommit(s, i), gone) == HeldBy(s, gone)
    {
      CommitKeepsAbandoned(s, i, gone);
    }
  }

  lemma EvictKeepsAbandoned(s: System, i: nat, inst: Uuid)
    requires Conserved(s) && Abandoned(s, inst) && At(s, i, Start) && s.tasks[i].cmd.Eviction?
    ensures Abandoned(DoBegin(s, i), inst) && HeldBy(DoBegin(s, i), inst) == HeldBy(s, inst)
  {
    hide Balanced, WithinLimits, OnlyInstancesHold, OnlyHolding, Held, Release;
    var t, gone := DoBegin(s, i), s.tasks[i].cmd.inst;
    if EvictSection(s.shared, gone).1 == EvictedNow {
      assert Accounted(s, gone);
      EvictReleases(s.shared.cap, gone, s.shared.fabric.residencies[gone].bytes);
      OneHolder(s, t, gone, inst);
    }
  }

  lemma EvictKeepsBooks(s: System, i: nat)
    requires Conserved(s) && At(s, i, Start) && s.tasks[i].cmd.Eviction?
    ensures Conserved(DoBegin(s, i))
  {
    hide Balanced, WithinLimits, Held, Release, OnlyInstancesHold, OnlyHolding;
    var t, x := DoBegin(s, i), s.tasks[i];
    var inst := x.cmd.inst;
    if EvictSection(s.shared, inst).1 == EvictedNow {
      var bytes := s.shared.fabric.residencies[inst].bytes;
      assert Accounted(s, inst);
      EvictReleases(s.shared.cap, inst, bytes);
      StillOnlyInstances(s.shared.cap, t.shared.cap, inst);
      forall u: Uuid
        ensures Accounted(t, u)
      {
        assert Accounted(s, u);
        if u != inst {
          OneHolder(s, t, inst, u);
        }
      }
      forall j | j in t.tasks
        ensures LoadOk(t, t.tasks[j])
      {
        assert LoadOk(s, s.tasks[j]);
        if s.tasks[j].inst != inst {
          OneHolder(s, t, inst, s.tasks[j].inst);
        }
      }
    } else {
      MovingOnConserves(s, t, i, t.tasks[i]);
    }
  }

  lemma EvictLeaksNothing(s: System, i: nat)
    requires Conserved(s) && At(s, i, Start) && s.tasks[i].cmd.Eviction?
    ensures forall u :: Leaked(DoBegin(s, i), u) ==> Leaked(s, u)
  {
    hide Balanced, WithinLimits, OnlyInstancesHold, OnlyHolding, Held, Release;
    var t, inst := DoBegin(s, i), s.tasks[i].cmd.inst;
    if EvictSection(s.shared, inst).1 == EvictedNow {
      assert Accounted(s, inst);
      EvictReleases(s.shared.cap, inst, s.shared.fabric.residencies[inst].bytes);
      forall u | u != inst
        ensures HeldBy(t, u) == HeldBy(s, u)
      {
        OneHolder(s, t, inst, u);
      }
    }
  }

  lemma EvictConserves(s: System, i: nat)
    requires Conserved(s) && At(s, i, Start) && s.tasks[i].cmd.Eviction?
    ensures Tidy(s, DoBegin(s, i))
  {
    hide Conserved, Abandoned, HeldBy, Leaked, DoCreate, DoBegin, DoCommit;
    EvictKeepsBooks(s, i);
    EvictLeaksNothing(s, i);
    forall gone | Abandoned(s, gone)
      ensures Abandoned(DoBegin(s, i), gone) && HeldBy(DoBegin(s, i), gone) == HeldBy(s, gone)
    {
      EvictKeepsAbandoned(s, i, gone);
    }
  }

  // ---- the remaining events ----

  lemma CheckConserves(s: System, i: nat)
    requires Conserved(s) && At(s, i, Start) && (s.tasks[i].cmd.Load? || s.tasks[i].cmd.Activate?)
    ensures Tidy(s, DoCheck(s, i))
  {
    hide Conserved, CheckFence;
    var t := DoCheck(s, i);
    MovingOnConserves(s, t, i, t.tasks[i]);
  }

  lemma BeginConserves(s: System, i: nat)
    requires Conserved(s) && At(s, i, Start) && !s.tasks[i].cmd.Load? && !s.tasks[i].cmd.Eviction?
    ensures Tidy(s, DoBegin(s, i))
  {
    hide Conserved, Invalidate, Evict, Release;
    var t, cmd := DoBegin(s, i), s.tasks[i].cmd;
    if cmd.Invalidation? {
      OpsKeepBytes(s.shared.fabric, FabricRuns.InvalidateOp(cmd.adapter, MANUAL, cmd.reason));
    }
    MovingOnConserves(s, t, i, t.tasks[i]);
  }

  lemma ReplyConserves(s: System, i: nat)
    requires Conserved(s) && At(s, i, Answered) && !(s.tasks[i].cmd.Load? && s.tasks[i].ack.ok)
    ensures Tidy(s, DoCommit(s, i))
  {
    hide Conserved, BindAuthority, MarkReady, MarkLoaded, Reserve;
    var t, x := DoCommit(s, i), s.tasks[i];
    if x.cmd.Activate? {
      OpsKeepBytes(s.shared.fabric, FabricRuns.BindOp(x.cmd.fence));
    } else if x.cmd.Deactivate? {
      OpsKeepBytes(s.shared.fabric, FabricRuns.ReadyOp(x.cmd.adapter));
    }
    MovingOnConserves(s, t, i, t.tasks[i]);
  }

  lemma RecordConserves(s: System, i: nat)
    requires Conserved(s) && At(s, i, Recorded)
    ensures Tidy(s, DoRecord(s, i))
  {
    hide Conserved, MarkReady;
    var t := DoRecord(s, i);
    var a := if s.tasks[i].cmd.Load? then s.tasks[i].cmd.fence.adapter else NIL;
    OpsKeepBytes(s.shared.fabric, FabricRuns.ReadyOp(a));
    MovingOnConserves(s, t, i, t.tasks[i]);
  }

  lemma ForwardingConserves(s: System, i: nat, delivered: bool)
    requires Conserved(s) && i in s.tasks
    ensures At(s, i, Begun) && s.shared.nextReq < U64_MAX ==> Tidy(s, DoDraw(s, i))
    ensures At(s, i, Drawn) ==> Tidy(s, DoLookup(s, i))
    ensures At(s, i, Found) ==> Tidy(s, DoInsert(s, i))
    ensures At(s, i, Inserted) ==> Tidy(s, DoSend(s, i, delivered))
    ensures At(s, i, Waiting) && s.tasks[i].req in s.shared.entries ==> Tidy(s, DoTake(s, i))
    ensures At(s, i, Woken) ==> Tidy(s, DoErase(s, i))
  {
    hide Conserved, Forwarded, Reachable;
    match s.tasks[i].phase {
      case Begun =>
        if s.shared.nextReq < U64_MAX {
          var t := DoDraw(s, i);
          MovingOnConserves(s, t, i, t.tasks[i]);
        }
      case Drawn =>
        var t := DoLookup(s, i);
        MovingOnConserves(s, t, i, t.tasks[i]);
      case Found =>
        var t := DoInsert(s, i);
        MovingOnConserves(s, t, i, t.tasks[i]);
      case Inserted =>
        var t := DoSend(s, i, delivered);
        MovingOnConserves(s, t, i, t.tasks[i]);
      case Waiting =>
        if s.tasks[i].req in s.shared.entries {
          var t := DoTake(s, i);
          MovingOnConserves(s, t, i, t.tasks[i]);
        }
      case Woken =>
        var t := DoErase(s, i);
        MovingOnConserves(s, t, i, t.tasks[i]);
      case _ =>
    }
  }

  predicate ForConnection(e: Event) {
    e.Direct? || e.Attach? || e.Detach? || e.NewSlot? || e.LoseSlot? || e.Vanish? || e.Handle? || e.Receive?
    || e.PostHeld? || e.AbortPending?
  }

  lemma ConnectionsKeepRest(s: System, e: Event)
    requires Enabled(s, e) && ForConnection(e)
    ensures var t := Do(s, e);
      t.shared.cap == s.shared.cap && t.generated == s.generated && t.tasks == s.tasks
  {
    hide FabricRuns.Join, OnWorkerDown, FabricRuns.Apply, Answers, OneSection, DoCheck, DoCreate, DoBegin, DoCommit,
         DoRecord, DoSend, DoNewTask, DoDraw, DoLookup, DoInsert, DoTake, DoErase;
  }

  lemma ConnectionsConserve(s: System, e: Event)
    requires Conserved(s) && Enabled(s, e) && ForConnection(e)
    ensures Tidy(s, Do(s, e))
  {
    hide Conserved, Enabled, Do, FabricOps, FabricRuns.Apply, SameBytes;
    ConnectionsKeepRest(s, e);
    if Quiet(e) {
      QuietOnFabric(s, e);
      NothingKeepsBytes(s.shared.fabric);
    } else {
      ConnectionOps(s, e);
      OpsKeepBytes(s.shared.fabric, FabricOps(s, e)[0]);
    }
    StandingStillConserves(s, Do(s, e));
  }

  lemma ConnectionOps(s: System, e: Event)
    requires Enabled(s, e) && (e.Attach? || e.Detach? || e.Direct?)
    ensures |FabricOps(s, e)| == 1
    ensures var op := FabricOps(s, e)[0]; !op.CreateOp? && !op.EvictOp? && !op.LoadedOp?
    ensures Do(s, e).shared.fabric == FabricRuns.Apply(s.shared.fabric, FabricOps(s, e)[0])
  {
    hide FabricRuns.Apply, Do;
    LoudOnFabric(s, e);
  }

  lemma NothingKeepsBytes(f: FabricState)
    ensures SameBytes(f, f)
  {
  }

  /** The commit of a load that was acknowledged. */
  predicate CommitsLoad(s: System, e: Event) {
    e.Commit? && At(s, e.i, Answered) && s.tasks[e.i].cmd.Load? && s.tasks[e.i].ack.ok
  }

  lemma StepConserves(s: System, e: Event)
    requires Conserved(s)
    ensures Onward(s, Step(s, e)) && (CommitsLoad(s, e) || Tidy(s, Step(s, e)))
  {
    hide Conserved, Abandoned, Leaked, DoCheck, DoCreate, DoBegin, DoCommit, DoRecord, DoSend, DoReceive, DoPost,
         DoNewTask, DoDraw, DoLookup, DoInsert, DoTake, DoErase, DoAbort, Answers, FabricRuns.Apply;
    if Enabled(s, e) {
      match e {
        case NewTask(i, cmd, worker) =>
          FirstStep(s, i, cmd, worker);
        case Check(i) => CheckConserves(s, i);
        case Create(i, inst) => CreateConserves(s, i, inst);
        case Begin(i) =>
          if s.tasks[i].cmd.Eviction? {
            EvictConserves(s, i);
          } else {
            BeginConserves(s, i);
          }
        case Commit(i) =>
          if s.tasks[i].cmd.Load? && s.tasks[i].ack.ok {
            CommitConserves(s, i);
          } else {
            ReplyConserves(s, i);
          }
        case Record(i) => RecordConserves(s, i);
        case DrawId(i) => ForwardingConserves(s, i, true);
        case Lookup(i) => ForwardingConserves(s, i, true);
        case InsertEntry(i) => ForwardingConserves(s, i, true);
        case Send(i, delivered) => ForwardingConserves(s, i, delivered);
        case Take(i) => ForwardingConserves(s, i, true);
        case EraseEntry(i) => ForwardingConserves(s, i, true);
        case _ => ConnectionsConserve(s, e);
      }
    }
  }

  lemma FirstStep(s: System, i: nat, cmd: Command, worker: Bytes)
    requires Conserved(s) && i !in s.tasks
    ensures Tidy(s, DoNewTask(s, i, cmd, worker))
  {
    hide Conserved;
    var t := DoNewTask(s, i, cmd, worker);
    MovingOnConserves(s, t, i, t.tasks[i]);
  }

  lemma StartsConserved(s: System)
    requires Init(s)
    ensures Conserved(s)
  {
    hide Balanced, WithinLimits;
  }

  lemma {:induction false} RunConserves(s: System, es: seq<Event>)
    requires Init(s)
    ensures Conserved(After(s, es))
  {
    hide Step, Conserved, Init;
    if es == [] {
      StartsConserved(s);
    } else {
      RunConserves(s, es[..|es| - 1]);
      StepConserves(After(s, es[..|es| - 1]), es[|es| - 1]);
    }
  }

  // ---- leaks ----

  /**
   The event that leaks: a load is committed whose instance is gone, though its bytes fit. The section looks
   the residency up before it writes to it, and reserves the bytes whether it found one or not.
   */
  predicate LeaksAt(s: System, e: Event, inst: Uuid) {
    && CommitsLoad(s, e) && s.tasks[e.i].inst == inst && !Resident(s, inst)
    && 0 < s.tasks[e.i].ack.a <= Free(s.shared.cap, DeviceMemory)
  }

  lemma CommitLeaksExactly(s: System, i: nat, inst: Uuid)
    requires Conserved(s) && CommitsLoad(s, Commit(i))
    ensures Leaked(DoCommit(s, i), inst) <==> Leaked(s, inst) || LeaksAt(s, Commit(i), inst)
    ensures LeaksAt(s, Commit(i), inst) ==> HeldBy(DoCommit(s, i), inst) == s.tasks[i].ack.a
  {
    hide Balanced, WithinLimits, OnlyInstancesHold, OnlyHolding, Held, Reserve, Free, Accounted;
    var t, x := DoCommit(s, i), s.tasks[i];
    assert LoadOk(s, x);
    CommitReserves(s.shared.cap, x.inst, x.ack.a);
    if inst != x.inst {
      OneHolder(s, t, x.inst, inst);
    }
  }

  lemma LeakedIsAbandoned(s: System, inst: Uuid)
    requires Conserved(s) && Leaked(s, inst)
    ensures Abandoned(s, inst)
  {
    hide Balanced, WithinLimits, OnlyInstancesHold, Held;
    assert Accounted(s, inst);
    forall i | i in s.tasks && Uncommitted(s.tasks[i])
      ensures s.tasks[i].inst != inst
    {
      assert LoadOk(s, s.tasks[i]);
    }
  }

  lemma CommitIsStep(s: System, e: Event)
    requires CommitsLoad(s, e)
    ensures Step(s, e) == DoCommit(s, e.i)
  {
  }

  lemma OnwardKeepsLeaks(s: System, t: System, inst: Uuid)
    requires Conserved(s) && Onward(s, t) && Leaked(s, inst)
    ensures Leaked(t, inst) && HeldBy(t, inst) == HeldBy(s, inst)
  {
    hide Conserved, Held;
    LeakedIsAbandoned(s, inst);
  }

  /**
   In every step of every kind: an instance's memory is leaked afterwards exactly when it was before, or the
   step commits its load after it is gone, with bytes that fit.
   */
  lemma LeakedExactly(s: System, e: Event, inst: Uuid)
    requires Conserved(s)
    ensures Leaked(Step(s, e), inst) <==> Leaked(s, inst) || LeaksAt(s, e, inst)
  {
    hide Conserved, Step, Leaked, Free;
    StepConserves(s, e);
    if CommitsLoad(s, e) {
      CommitIsStep(s, e);
      CommitLeaksExactly(s, e.i, inst);
    } else if Leaked(s, inst) {
      OnwardKeepsLeaks(s, Step(s, e), inst);
    }
  }

  /** Some event of the run leaked the instance's memory. */
  ghost predicate LeaksInRun(s: System, es: seq<Event>, inst: Uuid) {
    exists k: nat :: LeaksAtEvent(s, es, k, inst)
  }

  predicate LeaksAtEvent(s: System, es: seq<Event>, k: nat, inst: Uuid) {
    k < |es| && LeaksAt(After(s, es[..k]), es[k], inst)
  }

  lemma LeaksInLongerRun(s: System, es: seq<Event>, inst: Uuid)
    requires es != []
    ensures var n := |es| - 1;
      LeaksInRun(s, es, inst) <==> LeaksInRun(s, es[..n], inst) || LeaksAt(After(s, es[..n]), es[n], inst)
  {
    hide LeaksAt, After;
    var n := |es| - 1;
    assert forall k: nat :: k < n ==> es[..n][..k] == es[..k];
    if LeaksInRun(s, es, inst) {
      var k: nat :| LeaksAtEvent(s, es, k, inst);
      assert k < n ==> LeaksAtEvent(s, es[..n], k, inst);
    }
    if LeaksInRun(s, es[..n], inst) {
      var k: nat :| LeaksAtEvent(s, es[..n], k, inst);
      assert LeaksAtEvent(s, es, k, inst);
    }
    if LeaksAt(After(s, es[..n]), es[n], inst) {
      assert LeaksAtEvent(s, es, n, inst);
    }
  }

  /** Over whole runs: memory is leaked at the end exactly for the instances some event of the run leaked. */
  lemma {:induction false} LeakedInRunExactly(s: System, es: seq<Event>, inst: Uuid)
    requires Init(s)
    ensures Leaked(After(s, es), inst) <==> LeaksInRun(s, es, inst)
  {
    hide Step, Leaked, LeaksAt, LeaksInRun, Init;
    if es == [] {
      NothingLeakedAtFirst(s, inst);
    } else {
      LeakedInRunExactly(s, es[..|es| - 1], inst);
      RunConserves(s, es[..|es| - 1]);
      LeakedExactly(After(s, es[..|es| - 1]), es[|es| - 1], inst);
      LeaksInLongerRun(s, es, inst);
    }
  }

  lemma NothingLeakedAtFirst(s: System, inst: Uuid)
    requires Init(s)
    ensures !Leaked(s, inst) && !LeaksInRun(s, [], inst)
  {
  }

  /**
   In every interleaving of loads, evictions and everything else: the books balance within the limits;
   a resident instance holds either nothing or exactly its recorded bytes of device memory; nothing else is
   held, but by an instance whose load was committed, with bytes that fit, after it was gone. Once no instance
   is resident the accountant is clean exactly when no event of the run was such a commit.
   */
  lemma LoadsAndEvictionsBalance(s: System, es: seq<Event>)
    requires Init(s)
    ensures var t := After(s, es);
      && Balanced(t.shared.cap) && WithinLimits(t.shared.cap)
      && (forall inst <- t.shared.fabric.residencies ::
            HeldBy(t, inst) == 0 || HeldBy(t, inst) == t.shared.fabric.residencies[inst].bytes)
      && (forall loc, owner :: Held(t.shared.cap, loc, owner) != 0 ==> loc == DeviceMemory && HasHolder(s, es, owner))
      && (t.shared.fabric.residencies == map[] ==>
            (IsClean(t.shared.cap) <==> forall inst :: !LeaksInRun(s, es, inst)))
  {
    hide After, Balanced, WithinLimits, IsClean, LeaksInRun;
    RunConserves(s, es);
    var t := After(s, es);
    forall inst | inst in t.shared.fabric.residencies
      ensures HeldBy(t, inst) == 0 || HeldBy(t, inst) == t.shared.fabric.residencies[inst].bytes
    {
      assert Accounted(t, inst);
    }
    forall loc, owner | Held(t.shared.cap, loc, owner) != 0
      ensures loc == DeviceMemory && HasHolder(s, es, owner)
    {
      var inst: Uuid :| owner == Uuids.Text(inst);
      LeakedInRunExactly(s, es, inst);
      assert HoldsBy(s, es, inst, owner);
    }
    if t.shared.fabric.residencies == map[] {
      CleanExactly(t.shared.cap);
      forall inst
        ensures HeldBy(t, inst) == 0 <==> !LeaksInRun(s, es, inst)
      {
        LeakedInRunExactly(s, es, inst);
      }
      if forall inst :: !LeaksInRun(s, es, inst) {
        forall loc, owner
          ensures Held(t.shared.cap, loc, owner) == 0
        {
          if Held(t.shared.cap, loc, owner) != 0 {
            var inst: Uuid :| owner == Uuids.Text(inst);
            HeldUnderText(t, inst);
          }
        }
      }
    }
  }

  lemma HeldUnderText(s: System, inst: Uuid)
    ensures HeldBy(s, inst) == Held(s.shared.cap, DeviceMemory, Uuids.Text(inst))
  {
  }

  /** The owner is an instance that is resident at the end of the run, or was leaked in it. */
  ghost predicate HoldsBy(s: System, es: seq<Event>, inst: Uuid, owner: Bytes) {
    owner == Uuids.Text(inst) && (Resident(After(s, es), inst) || LeaksInRun(s, es, inst))
  }

  ghost predicate HasHolder(s: System, es: seq<Event>, owner: Bytes) {
    exists inst: Uuid :: HoldsBy(s, es, inst, owner)
  }

  /** What an abandoned instance holds is never released, and never grows, in any continuation. */
  lemma {:induction false} AbandonedHoldingsStay(s: System, es: seq<Event>, inst: Uuid)
    requires Conserved(s) && Abandoned(s, inst)
    ensures Abandoned(After(s, es), inst) && HeldBy(After(s, es), inst) == HeldBy(s, inst)
    ensures Conserved(After(s, es))
  {
    hide Step, Conserved, Abandoned, HeldBy;
    if es != [] {
      AbandonedHoldingsStay(s, es[..|es| - 1], inst);
      StepConserves(After(s, es[..|es| - 1]), es[|es| - 1]);
    }
  }

  /** A load that waits for its reply, whose instance could be evicted. */
  predicate Exposed(s: System, i: nat, inst: Uuid) {
    && At(s, i, Waiting) && s.tasks[i].cmd.Load? && s.tasks[i].inst == inst != NIL
    && s.tasks[i].req in s.shared.pending
    && Resident(s, inst)
    && var r := s.shared.fabric.residencies[inst];
    && r.activeRefs == 0 && r.pinCount == 0 && !r.protected
  }

  /** Evicting the instance, then reading, posting and committing the reply to its load. */
  function Overtaken(i: nat, j: nat, inst: Uuid, worker: Bytes, l: nat, ack: Message): seq<Event> {
    [NewTask(j, Eviction(inst), worker)] + [Begin(j)] + [Receive(l, ack)] + [PostHeld(l)] + [Take(i)] + [EraseEntry(i)]
    + [Commit(i)]
  }

  lemma AfterSnoc(s: System, es: seq<Event>, e: Event)
    ensures After(s, es + [e]) == Step(After(s, es), e)
  {
    assert (es + [e])[..|es|] == es;
  }

  lemma AfterOvertaken(s: System, i: nat, j: nat, inst: Uuid, worker: Bytes, l: nat, ack: Message)
    ensures After(s, Overtaken(i, j, inst, worker, l, ack)) ==
      Step(Step(Step(Step(Step(Step(Step(s, NewTask(j, Eviction(inst), worker)), Begin(j)),
        Receive(l, ack)), PostHeld(l)), Take(i)), EraseEntry(i)), Commit(i))
  {
    hide Step, After;
    var e1, e2, e3: Event, e4: Event := NewTask(j, Eviction(inst), worker), Begin(j), Receive(l, ack), PostHeld(l);
    var none: seq<Event> := [];
    AfterNothing(s);
    assert none + [e1] == [e1];
    AfterSnoc(s, none, e1);
    AfterSnoc(s, [e1], e2);
    AfterSnoc(s, [e1] + [e2], e3);
    AfterSnoc(s, [e1] + [e2] + [e3], e4);
    AfterSnoc(s, [e1] + [e2] + [e3] + [e4], Take(i));
    AfterSnoc(s, [e1] + [e2] + [e3] + [e4] + [Take(i)], EraseEntry(i));
    AfterSnoc(s, [e1] + [e2] + [e3] + [e4] + [Take(i)] + [EraseEntry(i)], Commit(i));
  }

  lemma AfterNothing(s: System)
    ensures After(s, []) == s
  {
  }

  lemma EvictedWhileExposed(s: System, i: nat, j: nat, inst: Uuid, worker: Bytes)
    requires Conserved(s) && Exposed(s, i, inst) && j !in s.tasks
    ensures var t := Step(Step(s, NewTask(j, Eviction(inst), worker)), Begin(j));
      && Conserved(t) && !Resident(t, inst) && i in t.tasks && t.tasks[i] == s.tasks[i]
      && t.shared.pending == s.shared.pending && t.links == s.links && t.shared.slots == s.shared.slots
      && HeldBy(t, inst) == 0 && Free(t.shared.cap, DeviceMemory) == Free(s.shared.cap, DeviceMemory)
  {
    hide Conserved, Held, Free, Release;
    var u := Step(s, NewTask(j, Eviction(inst), worker));
    var t := Step(u, Begin(j));
    StepConserves(s, NewTask(j, Eviction(inst), worker));
    StepConserves(u, Begin(j));
    ExposedHoldsNothing(s, i, inst);
    NothingToRelease(s.shared.cap, inst, s.shared.fabric.residencies[inst].bytes);
  }

  lemma ExposedHoldsNothing(s: System, i: nat, inst: Uuid)
    requires Conserved(s) && Exposed(s, i, inst)
    ensures HeldBy(s, inst) == 0
  {
    hide Balanced, WithinLimits, OnlyInstancesHold, Held, Accounted;
    assert LoadOk(s, s.tasks[i]);
  }

  lemma NothingToRelease(c: CapState, inst: Uuid, bytes: u64)
    requires Held(c, DeviceMemory, Uuids.Text(inst)) == 0
    ensures var d := Release(c, DeviceMemory, bytes, Uuids.Text(inst)).0;
      Held(d, DeviceMemory, Uuids.Text(inst)) == 0 && Free(d, DeviceMemory) == Free(c, DeviceMemory)
  {
  }

  lemma ReadAndPosted(s: System, l: nat, ack: Message)
    requires ack.reqId != 0 && ack.reqId in s.shared.pending && LinkIs(s, l, Serving)
    ensures var t := Step(Step(s, Receive(l, ack)), PostHeld(l));
      && t.tasks == s.tasks && t.shared.fabric == s.shared.fabric && t.shared.cap == s.shared.cap
      && ack.reqId in t.shared.entries && t.shared.entries[ack.reqId] == Pending(true, ack)
  {
    var u := Step(s, Receive(l, ack));
    assert u == DoReceive(s, l, ack);
    assert Step(u, PostHeld(l)) == DoPost(u, l);
  }

  lemma TakenAndErased(s: System, i: nat)
    requires At(s, i, Waiting) && s.tasks[i].req in s.shared.entries && s.shared.entries[s.tasks[i].req].done
    ensures var t := Step(Step(s, Take(i)), EraseEntry(i));
      && t.shared.fabric == s.shared.fabric && t.shared.cap == s.shared.cap
      && At(t, i, Answered)
      && t.tasks[i] == s.tasks[i].(phase := Answered, ack := s.shared.entries[s.tasks[i].req].result)
  {
    var u := Step(s, Take(i));
    assert u == DoTake(s, i);
    assert Step(u, EraseEntry(i)) == DoErase(u, i);
  }

  lemma RepliedWhileWaiting(s: System, i: nat, l: nat, ack: Message)
    requires At(s, i, Waiting) && s.tasks[i].req in s.shared.pending && LinkIs(s, l, Serving)
    requires ack.reqId == s.tasks[i].req != 0
    ensures var t := Step(Step(Step(Step(s, Receive(l, ack)), PostHeld(l)), Take(i)), EraseEntry(i));
      && t.shared.fabric == s.shared.fabric && t.shared.cap == s.shared.cap
      && At(t, i, Answered) && t.tasks[i] == s.tasks[i].(phase := Answered, ack := ack)
  {
    hide Step;
    ReadAndPosted(s, l, ack);
    TakenAndErased(Step(Step(s, Receive(l, ack)), PostHeld(l)), i);
  }

  /**
   The leak: from any state in which a load waits and its instance is resident and unprotected, evicting
   the instance before the reply arrives leaves the acknowledged bytes reserved for an instance that is
   not resident, and no continuation ever releases them.
   */
  lemma EarlyEvictionLeaks(
      s: System, i: nat, j: nat, inst: Uuid, worker: Bytes, l: nat, ack: Message, rest: seq<Event>)
    requires Conserved(s) && Exposed(s, i, inst) && j !in s.tasks && LinkIs(s, l, Serving)
    requires ack.ok && ack.reqId == s.tasks[i].req != 0 && 0 < ack.a <= Free(s.shared.cap, DeviceMemory)
    ensures var t := After(After(s, Overtaken(i, j, inst, worker, l, ack)), rest);
      !Resident(t, inst) && HeldBy(t, inst) == ack.a && !IsClean(t.shared.cap)
  {
    hide After, Step, Conserved, Free, HeldBy, Exposed, IsClean;
    AfterOvertaken(s, i, j, inst, worker, l, ack);
    var t2 := Step(Step(s, NewTask(j, Eviction(inst), worker)), Begin(j));
    ExposedIsWaiting(s, i, inst);
    EvictedWhileExposed(s, i, j, inst, worker);
    RepliedWhileWaiting(t2, i, l, ack);
    var e3, e4: Event := Receive(l, ack), PostHeld(l);
    var t6 := Step(Step(Step(Step(t2, e3), e4), Take(i)), EraseEntry(i));
    StepConserves(t2, e3);
    StepConserves(Step(t2, e3), e4);
    StepConserves(Step(Step(t2, e3), e4), Take(i));
    StepConserves(Step(Step(Step(t2, e3), e4), Take(i)), EraseEntry(i));
    var t7 := Step(t6, Commit(i));
    StepConserves(t6, Commit(i));
    SameHolding(t2, t6, inst);
    CommittedToNobody(t6, i, inst);
    AbandonedHoldingsStay(t7, rest, inst);
    HolderIsNotClean(After(t7, rest), inst);
  }

  lemma ExposedIsWaiting(s: System, i: nat, inst: Uuid)
    requires Exposed(s, i, inst)
    ensures At(s, i, Waiting) && s.tasks[i].req in s.shared.pending
    ensures s.tasks[i].cmd.Load? && s.tasks[i].inst == inst != NIL
  {
  }

  lemma SameHolding(s: System, t: System, inst: Uuid)
    requires s.shared.cap == t.shared.cap
    ensures HeldBy(s, inst) == HeldBy(t, inst)
  {
  }

  lemma CommittedToNobody(s: System, i: nat, inst: Uuid)
    requires Conserved(s) && At(s, i, Answered) && s.tasks[i].cmd.Load? && s.tasks[i].inst == inst != NIL
    requires s.tasks[i].ack.ok && s.tasks[i].ack.a <= Free(s.shared.cap, DeviceMemory)
    requires !Resident(s, inst) && HeldBy(s, inst) == 0
    ensures var t := Step(s, Commit(i)); Abandoned(t, inst) && HeldBy(t, inst) == s.tasks[i].ack.a
  {
    hide Balanced, WithinLimits, OnlyInstancesHold, OnlyHolding, Held, Reserve, Free, Accounted;
    var t, x := Step(s, Commit(i)), s.tasks[i];
    assert t == DoCommit(s, i);
    assert LoadOk(s, x);
    CommitReserves(s.shared.cap, inst, x.ack.a);
  }

  lemma HolderIsNotClean(s: System, inst: Uuid)
    requires Conserved(s) && HeldBy(s, inst) != 0
    ensures !IsClean(s.shared.cap)
  {
    hide Balanced, WithinLimits, IsClean, OnlyInstancesHold;
    CleanExactly(s.shared.cap);
  }
}
