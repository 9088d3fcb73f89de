/** Which process a granted reuse relies on, and who is kept from binding (src/fabric.cpp). */
module Reuse {
  import opened Basics
  import opened Records
  import opened Authorities
  import opened Fabrics
  import opened FabricRuns

  /** A ready residency's process is alive. */
  predicate ReadyIsLive(s: FabricState) {
    forall i <- s.residencies :: s.residencies[i].ready ==> Attached(s, s.residencies[i].worker, s.residencies[i].boot)
  }

  /** A load acknowledgement is committed before its process dies. */
  predicate Timely(s: FabricState, op: FabricOp) {
    op.LoadedOp? && op.inst in s.residencies ==>
      Attached(s, s.residencies[op.inst].worker, s.residencies[op.inst].boot)
  }

  lemma CreateKeepsReadinessLive(
      s: FabricState, adapter: Uuid, worker: Uuid, boot: Uuid, device: Uuid, bytes: u64, inst: Uuid)
    requires ReadyIsLive(s)
    ensures ReadyIsLive(CreateInstance(s, adapter, worker, boot, device, bytes, inst).0)
  {
  }

  lemma WorkersKeepReadinessLive(s: FabricState, op: FabricOp)
    requires ReadyIsLive(s) && (op.JoinOp? || op.DownOp?)
    ensures ReadyIsLive(Apply(s, op))
  {
    hide AuthorityDown, AttemptsDown, AuthorityRestarted, AttemptsRestarted;
  }

  lemma ResidencyStepsKeepReadinessLive(s: FabricState, inst: Uuid)
    requires ReadyIsLive(s)
    ensures ReadyIsLive(Evict(s, inst).0) && ReadyIsLive(Pin(s, inst).0) && ReadyIsLive(Unpin(s, inst).0)
  {
  }

  lemma LoadKeepsReadinessLiveExactly(s: FabricState, inst: Uuid, bytes: u64)
    requires ReadyIsLive(s)
    ensures ReadyIsLive(MarkLoaded(s, inst, bytes)) <==> Timely(s, LoadedOp(inst, bytes))
  {
    if inst in s.residencies {
      assert MarkLoaded(s, inst, bytes).residencies[inst].ready;
    }
  }

  /**
   Committing a load does not look at the worker again, so readiness keeps naming live processes
   through a step exactly when that step is not a late commit.
   */
  lemma ReadinessStaysLiveExactly(s: FabricState, op: FabricOp)
    requires ReadyIsLive(s)
    ensures ReadyIsLive(Apply(s, op)) <==> Timely(s, op)
  {
    hide RegisterAdapter, PublishComposition, CreateInstance, BindAuthority, Invalidate, Evict, Pin, Unpin,
         MarkLoaded, MarkReady, Join, OnWorkerDown;
    match op {
      case CreateOp(adapter, worker, boot, device, bytes, inst) =>
        CreateKeepsReadinessLive(s, adapter, worker, boot, device, bytes, inst);
      case JoinOp(_, _, _, _) => WorkersKeepReadinessLive(s, op);
      case DownOp(_) => WorkersKeepReadinessLive(s, op);
      case EvictOp(inst) => ResidencyStepsKeepReadinessLive(s, inst);
      case PinOp(inst) => ResidencyStepsKeepReadinessLive(s, inst);
      case UnpinOp(inst) => ResidencyStepsKeepReadinessLive(s, inst);
      case LoadedOp(inst, bytes) => LoadKeepsReadinessLiveExactly(s, inst, bytes);
      case _ => StepFrame(s, op);
    }
  }

  /**
   With live readiness, a granted reuse names the process that holds the instance exactly when the fence names
   the residency's worker: neither `reuse_safe` nor `bind_authority` compares the two.
   */
  lemma ReuseNamesTheResidentProcess(s: FabricState, f: AuthorityFence)
    requires ReadyIsLive(s) && ReuseSafe(s, f) == Authorized
    ensures f.adapter in s.authority && s.authority[f.adapter].instance in s.residencies
    ensures var r := s.residencies[s.authority[f.adapter].instance];
      r.ready && ((r.worker, r.boot) == (f.worker, f.boot) <==> r.worker == f.worker)
  {
    AuthorizedIsAttached(s, f);
  }

  /** No commit of the run comes late. */
  predicate RunTimely(s: FabricState, ops: seq<FabricOp>) {
    ops == [] || (RunTimely(s, ops[..|ops| - 1]) && Timely(Run(s, ops[..|ops| - 1]), ops[|ops| - 1]))
  }

  lemma {:induction false} TimelyRunsKeepReadinessLive(s: FabricState, ops: seq<FabricOp>)
    requires ReadyIsLive(s) && RunTimely(s, ops)
    ensures ReadyIsLive(Run(s, ops))
  {
    hide Apply, ReadyIsLive, Timely;
    if ops != [] {
      TimelyRunsKeepReadinessLive(s, ops[..|ops| - 1]);
      ReadinessStaysLiveExactly(Run(s, ops[..|ops| - 1]), ops[|ops| - 1]);
    }
  }

  /** A current fence for the first adapter registered, on some worker process. */
  function FirstFence(d: AdapterDescriptor, worker: Uuid, boot: Uuid, attempt: Uuid): AuthorityFence {
    AuthorityFence(d.id, NIL, 1, 1, 1, 1, d.baseModelRevision, 0, worker, boot, attempt, NIL, NIL)
  }

  /** A load whose acknowledgement is committed after its worker came back under another boot. */
  function LateLoad(
      d: AdapterDescriptor, worker: Uuid, boot: Uuid, boot': Uuid, inst: Uuid, bytes: u64, attempt: Uuid): seq<FabricOp>
  {
    [AdapterOp(d)] + [JoinOp(worker, boot, [], NIL)] + [CreateOp(d.id, worker, boot, NIL, d.memoryBytes, inst)]
    + [JoinOp(worker, boot', [], NIL)] + [LoadedOp(inst, bytes)]
    + [BindOp(FirstFence(d, worker, boot', attempt))]
  }

  lemma LateLoadUnrolled(
      d: AdapterDescriptor, worker: Uuid, boot: Uuid, boot': Uuid, inst: Uuid, bytes: u64, attempt: Uuid)
    ensures Run(FRESH, LateLoad(d, worker, boot, boot', inst, bytes, attempt)) ==
      Apply(Apply(Apply(Apply(Apply(Apply(FRESH,
        AdapterOp(d)), JoinOp(worker, boot, [], NIL)), CreateOp(d.id, worker, boot, NIL, d.memoryBytes, inst)),
        JoinOp(worker, boot', [], NIL)), LoadedOp(inst, bytes)),
        BindOp(FirstFence(d, worker, boot', attempt)))
  {
    hide Run, Apply;
    var ops0: seq<FabricOp> := [];
    var op1, op2 := AdapterOp(d), JoinOp(worker, boot, [], NIL);
    var op3, op4 := CreateOp(d.id, worker, boot, NIL, d.memoryBytes, inst), JoinOp(worker, boot', [], NIL);
    var op5, op6 := LoadedOp(inst, bytes), BindOp(FirstFence(d, worker, boot', attempt));
    RunNothing(FRESH);
    assert ops0 + [op1] == [op1];
    RunSnoc(FRESH, ops0, op1);
    RunSnoc(FRESH, [op1], op2);
    RunSnoc(FRESH, [op1] + [op2], op3);
    RunSnoc(FRESH, [op1] + [op2] + [op3], op4);
    RunSnoc(FRESH, [op1] + [op2] + [op3] + [op4], op5);
    RunSnoc(FRESH, [op1] + [op2] + [op3] + [op4] + [op5], op6);
  }

  /** The state once the worker is back under another boot: the unfinished instance has no authority. */
  lemma AfterRestart(s: FabricState, d: AdapterDescriptor, worker: Uuid, boot: Uuid, boot': Uuid, inst: Uuid)
    requires d.id in s.adapters && s.adapters[d.id] == d && d.generation == 1 && s.epoch == 0
    requires s.authority == map[] && s.currentAttempt == map[] && s.activeFence == None
    requires boot != boot'
    ensures var t := Join(CreateInstance(s, d.id, worker, boot, NIL, d.memoryBytes, inst).0, worker, boot', [], NIL);
      && t.adapters == s.adapters && t.epoch == 0 && t.currentAttempt == map[] && t.activeFence == None
      && Attached(t, worker, boot') && !Attached(t, worker, boot)
      && d.id in t.authority && t.authority[d.id].instance == inst
      && t.authority[d.id].fence.(worker := NIL, boot := NIL) == FirstFence(d, NIL, NIL, NIL)
      && inst in t.residencies && t.residencies[inst].boot == boot
  {
  }

  lemma LateCommitThenBind(s: FabricState, d: AdapterDescriptor, inst: Uuid, bytes: u64, f: AuthorityFence)
    requires d.id in s.adapters && s.adapters[d.id] == d && s.currentAttempt == map[] && s.activeFence == None
    requires NIL !in {d.id, f.worker, f.boot, f.attempt} && s.epoch == 0
    requires f == FirstFence(d, f.worker, f.boot, f.attempt) && d.generation == 1 && Attached(s, f.worker, f.boot)
    requires d.id in s.authority && s.authority[d.id].instance == inst
    requires s.authority[d.id].fence.(worker := NIL, boot := NIL) == FirstFence(d, NIL, NIL, NIL)
    requires inst in s.residencies
    ensures CheckFence(MarkLoaded(s, inst, bytes), f) == Authorized
    ensures var t := BindAuthority(MarkLoaded(s, inst, bytes), d.id, f).0;
      && ReuseSafe(t, f) == Authorized && t.residencies.Keys == s.residencies.Keys
      && (forall w, b :: Attached(t, w, b) == Attached(s, w, b))
      && t.residencies[inst].boot == s.residencies[inst].boot
      && t.residencies[inst].worker == s.residencies[inst].worker
      && d.id in t.authority && t.authority[d.id].instance == inst
  {
    var l := MarkLoaded(s, inst, bytes);
    assert CheckFence(l, f) == Authorized;
    var t := BindAuthority(l, d.id, f).0;
    assert CheckFence(t, f) == Authorized;
  }

  lemma FirstAdapterAndWorker(d: AdapterDescriptor, worker: Uuid, boot: Uuid)
    requires Registrable(d)
    ensures var s := Join(RegisterAdapter(FRESH, d).0, worker, boot, [], NIL);
      && s.epoch == 0 && d.id in s.adapters && s.adapters[d.id] == d.(generation := 1)
      && s.authority == map[] && s.currentAttempt == map[] && s.activeFence == None && s.residencies == map[]
      && Attached(s, worker, boot)
  {
  }

  /** After such a run the new boot is granted reuse of an instance that lived in the old one. */
  lemma LateLoadIsReused(
      d: AdapterDescriptor, worker: Uuid, boot: Uuid, boot': Uuid, inst: Uuid, bytes: u64, attempt: Uuid)
    requires Registrable(d) && boot != boot' && NIL !in {worker, boot', attempt}
    ensures var s := Run(FRESH, LateLoad(d, worker, boot, boot', inst, bytes, attempt));
      && ReuseSafe(s, FirstFence(d, worker, boot', attempt)) == Authorized
      && inst in s.residencies && s.residencies[inst].boot == boot
      && !Attached(s, worker, boot)
  {
    hide Run, RegisterAdapter, Join, CreateInstance, BindAuthority, MarkLoaded, ReuseSafe, Attached;
    LateLoadUnrolled(d, worker, boot, boot', inst, bytes, attempt);
    var d' := d.(generation := 1);
    var s2 := Join(RegisterAdapter(FRESH, d).0, worker, boot, [], NIL);
    FirstAdapterAndWorker(d, worker, boot);
    AfterRestart(s2, d', worker, boot, boot', inst);
    var s4 := Join(CreateInstance(s2, d.id, worker, boot, NIL, d.memoryBytes, inst).0, worker, boot', [], NIL);
    LateCommitThenBind(s4, d', inst, bytes, FirstFence(d, worker, boot', attempt));
  }

  // ---- reuse on another worker ----

  /** A load committed in time on one worker, and a bind whose fence names another. */
  function ElsewhereBound(
      d: AdapterDescriptor, w1: Uuid, b1: Uuid, w2: Uuid, b2: Uuid, inst: Uuid, bytes: u64, attempt: Uuid)
    : seq<FabricOp>
  {
    [AdapterOp(d)] + [JoinOp(w1, b1, [], NIL)] + [JoinOp(w2, b2, [], NIL)]
    + [CreateOp(d.id, w1, b1, NIL, d.memoryBytes, inst)] + [LoadedOp(inst, bytes)]
    + [BindOp(FirstFence(d, w2, b2, attempt))]
  }

  lemma ElsewhereBoundUnrolled(
      d: AdapterDescriptor, w1: Uuid, b1: Uuid, w2: Uuid, b2: Uuid, inst: Uuid, bytes: u64, attempt: Uuid)
    ensures var s3 := Apply(Apply(Apply(FRESH, AdapterOp(d)), JoinOp(w1, b1, [], NIL)), JoinOp(w2, b2, [], NIL));
      var s4 := Apply(s3, CreateOp(d.id, w1, b1, NIL, d.memoryBytes, inst));
      && Run(FRESH, ElsewhereBound(d, w1, b1, w2, b2, inst, bytes, attempt)) ==
           Apply(Apply(s4, LoadedOp(inst, bytes)), BindOp(FirstFence(d, w2, b2, attempt)))
      && (Timely(s4, LoadedOp(inst, bytes)) ==>
            RunTimely(FRESH, ElsewhereBound(d, w1, b1, w2, b2, inst, bytes, attempt)))
  {
    hide Run, Apply, RunTimely;
    var none: seq<FabricOp> := [];
    var op1, op2, op3 := AdapterOp(d), JoinOp(w1, b1, [], NIL), JoinOp(w2, b2, [], NIL);
    var op4, op5 := CreateOp(d.id, w1, b1, NIL, d.memoryBytes, inst), LoadedOp(inst, bytes);
    var op6 := BindOp(FirstFence(d, w2, b2, attempt));
    RunNothing(FRESH);
    NothingIsTimely(FRESH);
    assert none + [op1] == [op1];
    TimelySnoc(FRESH, none, op1);
    TimelySnoc(FRESH, [op1], op2);
    TimelySnoc(FRESH, [op1] + [op2], op3);
    TimelySnoc(FRESH, [op1] + [op2] + [op3], op4);
    TimelySnoc(FRESH, [op1] + [op2] + [op3] + [op4], op5);
    TimelySnoc(FRESH, [op1] + [op2] + [op3] + [op4] + [op5], op6);
  }

  lemma NothingIsTimely(s: FabricState)
    ensures RunTimely(s, [])
  {
  }

  lemma TimelySnoc(s: FabricState, ops: seq<FabricOp>, op: FabricOp)
    ensures Run(s, ops + [op]) == Apply(Run(s, ops), op)
    ensures RunTimely(s, ops + [op]) <==> RunTimely(s, ops) && Timely(Run(s, ops), op)
  {
    assert (ops + [op])[..|ops|] == ops;
  }

  lemma TwoWorkers(d: AdapterDescriptor, w1: Uuid, b1: Uuid, w2: Uuid, b2: Uuid)
    requires Registrable(d) && w1 != w2
    ensures var s := Join(Join(RegisterAdapter(FRESH, d).0, w1, b1, [], NIL), w2, b2, [], NIL);
      && s.epoch == 0 && d.id in s.adapters && s.adapters[d.id] == d.(generation := 1)
      && s.authority == map[] && s.currentAttempt == map[] && s.activeFence == None && s.residencies == map[]
      && Attached(s, w1, b1) && Attached(s, w2, b2)
  {
  }

  lemma CreatedOn(s: FabricState, d: AdapterDescriptor, worker: Uuid, boot: Uuid, inst: Uuid)
    requires d.id in s.adapters && s.adapters[d.id] == d && d.generation == 1 && s.epoch == 0
    ensures var t := CreateInstance(s, d.id, worker, boot, NIL, d.memoryBytes, inst).0;
      && RegistriesEqual(s, t) && t.currentAttempt == s.currentAttempt && t.activeFence == s.activeFence
      && (forall w, b :: Attached(t, w, b) == Attached(s, w, b))
      && d.id in t.authority && t.authority[d.id].instance == inst
      && t.authority[d.id].fence.(worker := NIL, boot := NIL) == FirstFence(d, NIL, NIL, NIL)
      && inst in t.residencies && t.residencies[inst].worker == worker && t.residencies[inst].boot == boot
  {
  }

  /**
   Negative result: the load is committed in time and readiness is live, and yet the second worker is granted
   reuse of an instance that lives on the first.
   */
  lemma OtherWorkerIsGrantedReuse(
      d: AdapterDescriptor, w1: Uuid, b1: Uuid, w2: Uuid, b2: Uuid, inst: Uuid, bytes: u64, attempt: Uuid)
    requires Registrable(d) && w1 != w2 && NIL !in {w2, b2, attempt}
    ensures var ops := ElsewhereBound(d, w1, b1, w2, b2, inst, bytes, attempt);
      var s := Run(FRESH, ops);
      && RunTimely(FRESH, ops) && ReadyIsLive(s)
      && ReuseSafe(s, FirstFence(d, w2, b2, attempt)) == Authorized
      && s.authority[d.id].instance == inst && s.residencies[inst].worker == w1 != w2
  {
    hide Run, RunTimely, RegisterAdapter, Join, CreateInstance, BindAuthority, MarkLoaded, ReuseSafe, Attached,
         ReadyIsLive, RegistriesEqual;
    var ops, f := ElsewhereBound(d, w1, b1, w2, b2, inst, bytes, attempt), FirstFence(d, w2, b2, attempt);
    ElsewhereBoundUnrolled(d, w1, b1, w2, b2, inst, bytes, attempt);
    var d' := d.(generation := 1);
    var s3 := Join(Join(RegisterAdapter(FRESH, d).0, w1, b1, [], NIL), w2, b2, [], NIL);
    TwoWorkers(d, w1, b1, w2, b2);
    CreatedOn(s3, d', w1, b1, inst);
    var s4 := CreateInstance(s3, d.id, w1, b1, NIL, d.memoryBytes, inst).0;
    SameRegistries(s3, s4);
    LateCommitThenBind(s4, d', inst, bytes, f);
    FreshReadinessIsLive();
    TimelyRunsKeepReadinessLive(FRESH, ops);
  }

  lemma SameRegistries(s: FabricState, t: FabricState)
    requires RegistriesEqual(s, t)
    ensures t.adapters == s.adapters && t.epoch == s.epoch
  {
  }

  lemma FreshReadinessIsLive()
    ensures ReadyIsLive(FRESH)
  {
  }

  // ---- where authority is at home ----

  /** A record with authority whose instance is resident names the worker the instance is on. */
  predicate AtHome(s: FabricState, a: Uuid)
    requires a in s.authority
  {
    var ar := s.authority[a];
    ar.hasAuthority && ar.instance in s.residencies ==> s.residencies[ar.instance].worker == ar.fence.worker
  }

  ghost predicate Homed(s: FabricState) { forall a <- s.authority :: AtHome(s, a) }

  /** A bind that would be granted names the worker of the adapter's instance, if that is resident. */
  predicate BindsHome(s: FabricState, f: AuthorityFence) {
    BindAuthority(s, f.adapter, f).1 == Ok(Authorized) && f.adapter in s.authority
      && s.authority[f.adapter].instance in s.residencies ==>
      s.residencies[s.authority[f.adapter].instance].worker == f.worker
  }

  /** No other record with authority is for an instance of the same, repeated, identity on another worker. */
  predicate CreatesHome(s: FabricState, adapter: Uuid, worker: Uuid, inst: Uuid) {
    adapter in s.adapters ==> forall a <- s.authority ::
      a != adapter && s.authority[a].hasAuthority && s.authority[a].instance == inst ==>
        s.authority[a].fence.worker == worker
  }

  predicate KeepsHome(s: FabricState, op: FabricOp) {
    match op
    case BindOp(f) => BindsHome(s, f)
    case CreateOp(adapter, worker, _, _, _, inst) => CreatesHome(s, adapter, worker, inst)
    case _ => true
  }

  lemma BindKeepsHomeExactly(s: FabricState, f: AuthorityFence)
    requires Homed(s)
    ensures Homed(BindAuthority(s, f.adapter, f).0) <==> BindsHome(s, f)
  {
    hide CheckFence;
    var (t, res) := BindAuthority(s, f.adapter, f);
    if res == Ok(Authorized) {
      assert forall a <- t.authority :: a != f.adapter ==> (AtHome(t, a) <==> AtHome(s, a));
      assert AtHome(t, f.adapter) <==> BindsHome(s, f);
    }
  }

  lemma CreateKeepsHomeExactly(
      s: FabricState, adapter: Uuid, worker: Uuid, boot: Uuid, device: Uuid, bytes: u64, inst: Uuid)
    requires Homed(s)
    ensures Homed(CreateInstance(s, adapter, worker, boot, device, bytes, inst).0) <==>
            CreatesHome(s, adapter, worker, inst)
  {
    var t := CreateInstance(s, adapter, worker, boot, device, bytes, inst).0;
    if adapter in s.adapters {
      assert AtHome(t, adapter);
      forall a | a in s.authority && a != adapter
        ensures AtHome(t, a) <==>
          (s.authority[a].hasAuthority && s.authority[a].instance == inst ==> s.authority[a].fence.worker == worker)
      {
        assert AtHome(s, a);
      }
    }
  }

  /** The same residencies on the same workers, at most, and no new authority. */
  ghost predicate Thinner(s: FabricState, t: FabricState) {
    && t.residencies.Keys <= s.residencies.Keys
    && (forall i <- t.residencies :: t.residencies[i].worker == s.residencies[i].worker)
    && t.authority.Keys <= s.authority.Keys
    && (forall a <- t.authority :: t.authority[a].hasAuthority ==>
          && s.authority[a].hasAuthority && t.authority[a].fence == s.authority[a].fence
          && t.authority[a].instance == s.authority[a].instance)
  }

  lemma ThinnerIsHomed(s: FabricState, t: FabricState)
    requires Homed(s) && Thinner(s, t)
    ensures Homed(t)
  {
    forall a | a in t.authority
      ensures AtHome(t, a)
    {
      assert AtHome(s, a);
    }
  }

  lemma JoinMakesThinner(s: FabricState, worker: Uuid, boot: Uuid, address: Bytes, node: Uuid)
    ensures Thinner(s, Join(s, worker, boot, address, node))
  {
    hide AttemptsRestarted;
  }

  lemma DownMakesThinner(s: FabricState, worker: Uuid)
    ensures Thinner(s, OnWorkerDown(s, worker))
  {
    hide AttemptsDown;
  }

  lemma InvalidateMakesThinner(s: FabricState, a: Uuid, trigger: byte, reason: Bytes)
    ensures Thinner(s, Invalidate(s, a, trigger, reason).0)
  {
  }

  lemma ReadyMakesThinner(s: FabricState, a: Uuid)
    ensures Thinner(s, MarkReady(s, a))
  {
  }

  lemma EvictMakesThinner(s: FabricState, inst: Uuid)
    ensures Thinner(s, Evict(s, inst).0)
  {
  }

  lemma PinMakesThinner(s: FabricState, inst: Uuid)
    ensures Thinner(s, Pin(s, inst).0)
  {
  }

  lemma UnpinMakesThinner(s: FabricState, inst: Uuid)
    ensures Thinner(s, Unpin(s, inst).0)
  {
  }

  lemma LoadMakesThinner(s: FabricState, inst: Uuid, bytes: u64)
    ensures Thinner(s, MarkLoaded(s, inst, bytes))
  {
  }

  lemma RegistriesMakeThinner(s: FabricState, t: FabricState)
    requires OnlyRegistries(s, t)
    ensures Thinner(s, t)
  {
  }

  /**
   Authority stays where its instance is through a step exactly when the step is no granted bind of a fence
   naming another worker than the instance's. (A creation breaks it only by repeating an identity.)
   */
  lemma HomeIsKeptExactly(s: FabricState, op: FabricOp)
    requires Homed(s)
    ensures Homed(Apply(s, op)) <==> KeepsHome(s, op)
  {
    hide RegisterAdapter, PublishComposition, CreateInstance, BindAuthority, Invalidate, Evict, Pin, Unpin,
         MarkLoaded, MarkReady, Join, OnWorkerDown, AdvanceEpoch, Homed, Thinner, BindsHome, CreatesHome;
    match op {
      case BindOp(f) => BindKeepsHomeExactly(s, f);
      case CreateOp(adapter, worker, boot, device, bytes, inst) =>
        CreateKeepsHomeExactly(s, adapter, worker, boot, device, bytes, inst);
      case _ =>
        OthersMakeThinner(s, op);
        ThinnerIsHomed(s, Apply(s, op));
    }
  }

  lemma OthersMakeThinner(s: FabricState, op: FabricOp)
    requires !op.BindOp? && !op.CreateOp?
    ensures Thinner(s, Apply(s, op))
  {
    hide RegisterAdapter, PublishComposition, CreateInstance, BindAuthority, Invalidate, Evict, Pin, Unpin,
         MarkLoaded, MarkReady, Join, OnWorkerDown, AdvanceEpoch, Thinner;
    match op {
      case JoinOp(worker, boot, address, node) => JoinMakesThinner(s, worker, boot, address, node);
      case DownOp(worker) => DownMakesThinner(s, worker);
      case InvalidateOp(a, trigger, reason) => InvalidateMakesThinner(s, a, trigger, reason);
      case ReadyOp(a) => ReadyMakesThinner(s, a);
      case EvictOp(inst) => EvictMakesThinner(s, inst);
      case PinOp(inst) => PinMakesThinner(s, inst);
      case UnpinOp(inst) => UnpinMakesThinner(s, inst);
      case LoadedOp(inst, bytes) => LoadMakesThinner(s, inst, bytes);
      case _ =>
        StepFrame(s, op);
        RegistriesMakeThinner(s, Apply(s, op));
    }
  }

  predicate RunAtHome(s: FabricState, ops: seq<FabricOp>) {
    ops == [] || (RunAtHome(s, ops[..|ops| - 1]) && KeepsHome(Run(s, ops[..|ops| - 1]), ops[|ops| - 1]))
  }

  lemma {:induction false} RunsKeepHome(s: FabricState, ops: seq<FabricOp>)
    requires Homed(s) && RunAtHome(s, ops)
    ensures Homed(Run(s, ops))
  {
    hide Apply, Homed, KeepsHome;
    if ops != [] {
      RunsKeepHome(s, ops[..|ops| - 1]);
      HomeIsKeptExactly(Run(s, ops[..|ops| - 1]), ops[|ops| - 1]);
    }
  }

  /**
   Over runs whose commits are timely and whose binds are at home, a granted reuse names the process that holds
   the instance exactly when its fence names the worker the adapter's authority is bound to.
   */
  lemma ReuseAtHomeNamesTheProcess(ops: seq<FabricOp>, f: AuthorityFence)
    requires RunTimely(FRESH, ops) && RunAtHome(FRESH, ops) && ReuseSafe(Run(FRESH, ops), f) == Authorized
    ensures var s := Run(FRESH, ops);
      && f.adapter in s.authority && s.authority[f.adapter].instance in s.residencies
      && var r := s.residencies[s.authority[f.adapter].instance];
         (r.worker, r.boot) == (f.worker, f.boot) <==> f.worker == s.authority[f.adapter].fence.worker
  {
    hide Run, RunTimely, RunAtHome, ReadyIsLive;
    var s := Run(FRESH, ops);
    FreshReadinessIsLive();
    TimelyRunsKeepReadinessLive(FRESH, ops);
    RunsKeepHome(FRESH, ops);
    ReuseNamesTheResidentProcess(s, f);
    assert AtHome(s, f.adapter);
  }

  // ---- an exclusive fence without authority ----

  /** The exclusive fence is that of a record with authority. */
  predicate ExclusiveIsHeld(s: FabricState) {
    s.activeFence.Some? ==>
      && s.activeFence.value.adapter in s.authority
      && s.authority[s.activeFence.value.adapter].hasAuthority
      && s.authority[s.activeFence.value.adapter].fence == s.activeFence.value
  }

  /** An instance is created anew for the exclusive adapter. */
  predicate Recreates(s: FabricState, op: FabricOp) {
    op.CreateOp? && op.adapter in s.adapters && s.activeFence.Some? && s.activeFence.value.adapter == op.adapter
  }

  lemma CreateKeepsHolderExactly(
      s: FabricState, adapter: Uuid, worker: Uuid, boot: Uuid, device: Uuid, bytes: u64, inst: Uuid)
    requires ExclusiveIsHeld(s)
    ensures ExclusiveIsHeld(CreateInstance(s, adapter, worker, boot, device, bytes, inst).0) <==>
            !Recreates(s, CreateOp(adapter, worker, boot, device, bytes, inst))
  {
  }

  lemma WorkersKeepHolder(s: FabricState, op: FabricOp)
    requires ExclusiveIsHeld(s) && (op.JoinOp? || op.DownOp?)
    ensures ExclusiveIsHeld(Apply(s, op))
  {
    hide AttemptsDown, ResidenciesDown, AttemptsRestarted, ResidenciesRestarted;
  }

  lemma RecordsKeepHolder(s: FabricState, op: FabricOp)
    requires ExclusiveIsHeld(s) && (op.BindOp? || op.InvalidateOp? || op.ReadyOp?)
    ensures ExclusiveIsHeld(Apply(s, op))
  {
    hide CheckFence;
    if op.BindOp? && BindAuthority(s, op.fence.adapter, op.fence).1 == Ok(Authorized) {
      assert Apply(s, op).activeFence == Some(op.fence);
    }
  }

  /** The exclusive fence stays that of a record with authority exactly through steps that do not recreate it. */
  lemma ExclusiveStaysHeldExactly(s: FabricState, op: FabricOp)
    requires ExclusiveIsHeld(s)
    ensures ExclusiveIsHeld(Apply(s, op)) <==> !Recreates(s, op)
  {
    hide RegisterAdapter, PublishComposition, CreateInstance, BindAuthority, Invalidate, Evict, Pin, Unpin,
         MarkLoaded, MarkReady, Join, OnWorkerDown, AdvanceEpoch;
    match op {
      case CreateOp(adapter, worker, boot, device, bytes, inst) =>
        CreateKeepsHolderExactly(s, adapter, worker, boot, device, bytes, inst);
      case JoinOp(_, _, _, _) => WorkersKeepHolder(s, op);
      case DownOp(_) => WorkersKeepHolder(s, op);
      case BindOp(_) => RecordsKeepHolder(s, op);
      case InvalidateOp(_, _, _) => RecordsKeepHolder(s, op);
      case ReadyOp(_) => RecordsKeepHolder(s, op);
      case _ => StepFrame(s, op);
    }
  }

  /**
   Negative result: after such a step nobody has authority, and yet every other adapter is refused, a current
   fence of it with a conflict.
   */
  lemma RecreatingShutsOthersOut(s: FabricState, op: FabricOp, g: AuthorityFence)
    requires AuthoritySafe(s) && Recreates(s, op) && g.adapter != op.adapter
    ensures var t := Apply(s, op);
      && (forall a <- t.authority :: !t.authority[a].hasAuthority)
      && t.activeFence == s.activeFence
      && BindAuthority(t, g.adapter, g) == (t, if CheckFence(t, g) == Authorized then Err(AuthorityConflict)
                                               else Ok(CheckFence(t, g)))
  {
    hide CheckFence;
    var t := Apply(s, op);
    forall a | a in t.authority
      ensures !t.authority[a].hasAuthority
    {
      assert a in s.authority ==> RecordSafe(s, a);
    }
  }
}
