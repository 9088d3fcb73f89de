/** Every run of the fabric: what its operations keep, one after another, in any order. */
module FabricRuns {
  import opened Basics
  import opened Records
  import opened Authorities
  import opened Compositions
  import opened Fabrics
  import opened AdapterCodec
  import opened SnapshotCodec
  import opened Codec
  import Generations

  /** What one critical section of the coordinator does to the fabric. */
  datatype FabricOp =
    | EpochOp
    | AdapterOp(d: AdapterDescriptor)
    | ComposeOp(ids: seq<Uuid>, policy: Bytes, newId: Uuid)
    | JoinOp(worker: Uuid, boot: Uuid, address: Bytes, node: Uuid)
    | DownOp(worker: Uuid)
    | CreateOp(adapter: Uuid, worker: Uuid, boot: Uuid, device: Uuid, bytes: u64, inst: Uuid)
    | BindOp(fence: AuthorityFence)
    | InvalidateOp(adapter: Uuid, trigger: byte, reason: Bytes)
    | EvictOp(inst: Uuid)
    | PinOp(inst: Uuid)
    | UnpinOp(inst: Uuid)
    | LoadedOp(inst: Uuid, bytes: u64)
    | ReadyOp(adapter: Uuid)

  /** The record a registering worker gets, and the restart handling that follows in the same critical section. */
  function Join(s: FabricState, worker: Uuid, boot: Uuid, address: Bytes, node: Uuid): FabricState {
    OnWorkerRestart(RegisterWorker(s, WorkerRecord(worker, boot, address, node, NIL, true, s.epoch, [], 0, [])),
                    worker, boot)
  }

  function Apply(s: FabricState, op: FabricOp): FabricState {
    match op
    case EpochOp => AdvanceEpoch(s)
    case AdapterOp(d) => RegisterAdapter(s, d).0
    case ComposeOp(ids, policy, newId) => PublishComposition(s, ids, policy, newId).0
    case JoinOp(worker, boot, address, node) => Join(s, worker, boot, address, node)
    case DownOp(worker) => OnWorkerDown(s, worker)
    case CreateOp(adapter, worker, boot, device, bytes, inst) =>
      CreateInstance(s, adapter, worker, boot, device, bytes, inst).0
    case BindOp(fence) => BindAuthority(s, fence.adapter, fence).0
    case InvalidateOp(adapter, trigger, reason) => Invalidate(s, adapter, trigger, reason).0
    case EvictOp(inst) => Evict(s, inst).0
    case PinOp(inst) => Pin(s, inst).0
    case UnpinOp(inst) => Unpin(s, inst).0
    case LoadedOp(inst, bytes) => MarkLoaded(s, inst, bytes)
    case ReadyOp(adapter) => MarkReady(s, adapter)
  }

  function Run(s: FabricState, ops: seq<FabricOp>): FabricState {
    if ops == [] then s else Apply(Run(s, ops[..|ops| - 1]), ops[|ops| - 1])
  }

  lemma RunNothing(s: FabricState)
    ensures Run(s, []) == s
  {
  }

  lemma RunSnoc(s: FabricState, ops: seq<FabricOp>, op: FabricOp)
    ensures Run(s, ops + [op]) == Apply(Run(s, ops), op)
  {
    assert (ops + [op])[..|ops|] == ops;
  }

  // ---- what each step leaves alone ----

  predicate RegistriesEqual(s: FabricState, t: FabricState) {
    && t.epoch == s.epoch && t.nextAdapterGen == s.nextAdapterGen && t.nextCompositionGen == s.nextCompositionGen
    && t.adapters == s.adapters && t.compositions == s.compositions && t.workers == s.workers
  }

  predicate HoldingsEqual(s: FabricState, t: FabricState) {
    t.authority == s.authority && t.activeFence == s.activeFence && t.currentAttempt == s.currentAttempt
  }

  predicate OnlyRegistries(s: FabricState, t: FabricState) {
    && HoldingsEqual(s, t) && t.residencies == s.residencies && t.workers == s.workers
    && s.adapters.Keys <= t.adapters.Keys
  }

  predicate OnlyResidencies(s: FabricState, t: FabricState) { RegistriesEqual(s, t) && HoldingsEqual(s, t) }
  predicate OnlyAuthority(s: FabricState, t: FabricState) { RegistriesEqual(s, t) && t.residencies == s.residencies }

  lemma RegisterFrame(s: FabricState, d: AdapterDescriptor)
    ensures OnlyRegistries(s, RegisterAdapter(s, d).0) && RegisterAdapter(s, d).0.compositions == s.compositions
  {
  }

  lemma PublishFrame(s: FabricState, ids: seq<Uuid>, policy: Bytes, newId: Uuid)
    ensures OnlyRegistries(s, PublishComposition(s, ids, policy, newId).0)
    ensures PublishComposition(s, ids, policy, newId).0.adapters == s.adapters
  {
    hide AddAll, TargetsDistinct, Compose;
  }

  lemma CreateFrame(s: FabricState, adapter: Uuid, worker: Uuid, boot: Uuid, device: Uuid, bytes: u64, inst: Uuid)
    ensures var t := CreateInstance(s, adapter, worker, boot, device, bytes, inst).0;
      && RegistriesEqual(s, t) && t.activeFence == s.activeFence && t.currentAttempt == s.currentAttempt
      && t.residencies.Keys <= s.residencies.Keys + {inst} && t.authority.Keys <= s.authority.Keys + {adapter}
      && (forall i <- s.residencies :: i != inst ==> i in t.residencies && t.residencies[i] == s.residencies[i])
      && (forall a <- s.authority :: a != adapter ==> a in t.authority && t.authority[a] == s.authority[a])
      && (inst in t.residencies && inst !in s.residencies ==> !t.residencies[inst].ready)
  {
  }

  lemma BindFrame(s: FabricState, f: AuthorityFence)
    ensures OnlyAuthority(s, BindAuthority(s, f.adapter, f).0)
  {
    hide CheckFence;
  }

  lemma InvalidateFrame(s: FabricState, a: Uuid, trigger: byte, reason: Bytes)
    ensures OnlyAuthority(s, Invalidate(s, a, trigger, reason).0)
  {
  }

  lemma EvictFrame(s: FabricState, inst: Uuid)
    ensures OnlyResidencies(s, Evict(s, inst).0)
  {
  }

  lemma PinFrame(s: FabricState, inst: Uuid)
    ensures OnlyResidencies(s, Pin(s, inst).0) && OnlyResidencies(s, Unpin(s, inst).0)
  {
  }

  lemma LoadFrame(s: FabricState, inst: Uuid, bytes: u64, adapter: Uuid)
    ensures OnlyResidencies(s, MarkLoaded(s, inst, bytes)) && OnlyAuthority(s, MarkReady(s, adapter))
  {
  }

  lemma StepFrame(s: FabricState, op: FabricOp)
    ensures op.EpochOp? || op.AdapterOp? || op.ComposeOp? ==> OnlyRegistries(s, Apply(s, op))
    ensures op.BindOp? || op.InvalidateOp? || op.ReadyOp? ==> OnlyAuthority(s, Apply(s, op))
    ensures op.EvictOp? || op.PinOp? || op.UnpinOp? || op.LoadedOp? ==> OnlyResidencies(s, Apply(s, op))
    ensures op.CreateOp? ==> RegistriesEqual(s, Apply(s, op))
  {
    hide RegisterAdapter, PublishComposition, CreateInstance, BindAuthority, Invalidate, Evict, Pin, Unpin,
         MarkLoaded, MarkReady, Join, OnWorkerDown, OnlyAuthority, OnlyResidencies, RegistriesEqual;
    match op {
      case EpochOp =>
      case AdapterOp(d) => RegisterFrame(s, d);
      case ComposeOp(ids, policy, newId) => PublishFrame(s, ids, policy, newId);
      case CreateOp(adapter, worker, boot, device, bytes, inst) =>
        CreateFrame(s, adapter, worker, boot, device, bytes, inst);
      case BindOp(fence) => BindFrame(s, fence);
      case InvalidateOp(adapter, trigger, reason) => InvalidateFrame(s, adapter, trigger, reason);
      case EvictOp(inst) => EvictFrame(s, inst);
      case PinOp(inst) => PinFrame(s, inst);
      case UnpinOp(inst) => PinFrame(s, inst);
      case LoadedOp(inst, bytes) => LoadFrame(s, inst, bytes, inst);
      case ReadyOp(adapter) => LoadFrame(s, adapter, 0, adapter);
      case _ =>
    }
  }

  // ---- authority ----

  /** The worker is registered and connected under exactly this boot. */
  predicate Attached(s: FabricState, worker: Uuid, boot: Uuid) {
    worker in s.workers && s.workers[worker].connected && s.workers[worker].boot == boot
  }

  /** The fence is the exclusive one, its process is alive, and its attempt is the recorded one. */
  predicate InForce(s: FabricState, f: AuthorityFence) {
    && s.activeFence == Some(f)
    && Attached(s, f.worker, f.boot)
    && f.adapter in s.currentAttempt && s.currentAttempt[f.adapter] == f.attempt
  }

  predicate RecordSafe(s: FabricState, a: Uuid)
    requires a in s.authority
  {
    var ar := s.authority[a];
    && ar.adapter == a && ar.fence.adapter == a && a in s.adapters
    && ar.active == ar.hasAuthority
    && (ar.lifecycle == Active ==> ar.hasAuthority)
    && (ar.hasAuthority ==> InForce(s, ar.fence))
  }

  ghost predicate AuthoritySafe(s: FabricState) {
    && (forall a <- s.authority :: RecordSafe(s, a))
    && (s.activeFence.Some? ==> Attached(s, s.activeFence.value.worker, s.activeFence.value.boot))
  }

  lemma HoldingsDecideSafety(s: FabricState, t: FabricState)
    requires AuthoritySafe(s) && HoldingsEqual(s, t) && t.workers == s.workers && s.adapters.Keys <= t.adapters.Keys
    ensures AuthoritySafe(t)
  {
    forall a | a in t.authority
      ensures RecordSafe(t, a)
    {
      assert RecordSafe(s, a);
    }
  }

  lemma JoinKeepsAuthority(s: FabricState, worker: Uuid, boot: Uuid, address: Bytes, node: Uuid)
    requires AuthoritySafe(s)
    ensures AuthoritySafe(Join(s, worker, boot, address, node))
  {
    hide ResidenciesRestarted;
    var t := Join(s, worker, boot, address, node);
    forall a | a in t.authority
      ensures RecordSafe(t, a)
    {
      assert RecordSafe(s, a);
    }
  }

  lemma DownKeepsAuthority(s: FabricState, worker: Uuid)
    requires AuthoritySafe(s)
    ensures AuthoritySafe(OnWorkerDown(s, worker))
  {
    hide ResidenciesDown;
    var t := OnWorkerDown(s, worker);
    forall a | a in t.authority
      ensures RecordSafe(t, a)
    {
      assert RecordSafe(s, a);
    }
  }

  lemma AuthorizedIsAttached(s: FabricState, f: AuthorityFence)
    requires CheckFence(s, f) == Authorized
    ensures f.adapter in s.adapters && Attached(s, f.worker, f.boot)
  {
  }

  lemma BindKeepsAuthority(s: FabricState, f: AuthorityFence)
    requires AuthoritySafe(s)
    ensures AuthoritySafe(BindAuthority(s, f.adapter, f).0)
  {
    hide CheckFence;
    var (t, res) := BindAuthority(s, f.adapter, f);
    if res == Ok(Authorized) {
      AuthorizedIsAttached(s, f);
      forall a | a in t.authority
        ensures RecordSafe(t, a)
      {
        assert RecordSafe(s, a);
      }
    }
  }

  lemma CreateKeepsAuthority(
      s: FabricState, adapter: Uuid, worker: Uuid, boot: Uuid, device: Uuid, bytes: u64, inst: Uuid)
    requires AuthoritySafe(s)
    ensures AuthoritySafe(CreateInstance(s, adapter, worker, boot, device, bytes, inst).0)
  {
    var t := CreateInstance(s, adapter, worker, boot, device, bytes, inst).0;
    forall a | a in t.authority
      ensures RecordSafe(t, a)
    {
      assert a in s.authority ==> RecordSafe(s, a);
    }
  }

  lemma InvalidateKeepsAuthority(s: FabricState, adapter: Uuid, trigger: byte, reason: Bytes)
    requires AuthoritySafe(s)
    ensures AuthoritySafe(Invalidate(s, adapter, trigger, reason).0)
  {
    var t := Invalidate(s, adapter, trigger, reason).0;
    forall a | a in t.authority
      ensures RecordSafe(t, a)
    {
      assert RecordSafe(s, a);
    }
  }

  lemma ReadyKeepsAuthority(s: FabricState, adapter: Uuid)
    requires AuthoritySafe(s)
    ensures AuthoritySafe(MarkReady(s, adapter))
  {
    var t := MarkReady(s, adapter);
    forall a | a in t.authority
      ensures RecordSafe(t, a)
    {
      assert RecordSafe(s, a);
    }
  }

  lemma StepKeepsAuthority(s: FabricState, op: FabricOp)
    requires AuthoritySafe(s)
    ensures AuthoritySafe(Apply(s, op))
  {
    hide RegisterAdapter, PublishComposition, CreateInstance, BindAuthority, Invalidate, Evict, Pin, Unpin,
         MarkLoaded, MarkReady, Join, OnWorkerDown, AdvanceEpoch, AuthoritySafe;
    match op {
      case JoinOp(worker, boot, address, node) => JoinKeepsAuthority(s, worker, boot, address, node);
      case DownOp(worker) => DownKeepsAuthority(s, worker);
      case CreateOp(adapter, worker, boot, device, bytes, inst) =>
        CreateKeepsAuthority(s, adapter, worker, boot, device, bytes, inst);
      case BindOp(fence) => BindKeepsAuthority(s, fence);
      case InvalidateOp(adapter, trigger, reason) => InvalidateKeepsAuthority(s, adapter, trigger, reason);
      case ReadyOp(adapter) => ReadyKeepsAuthority(s, adapter);
      case _ =>
        StepFrame(s, op);
        HoldingsDecideSafety(s, Apply(s, op));
    }
  }

  lemma {:induction false} RunKeepsAuthority(s: FabricState, ops: seq<FabricOp>)
    requires AuthoritySafe(s)
    ensures AuthoritySafe(Run(s, ops))
  {
    hide Apply, AuthoritySafe;
    if ops != [] {
      RunKeepsAuthority(s, ops[..|ops| - 1]);
      StepKeepsAuthority(Run(s, ops[..|ops| - 1]), ops[|ops| - 1]);
    }
  }

  /**
   In every run at most one record has authority. Its fence is then the exclusive fence, names a
   registered worker connected under exactly that boot, and carries the recorded attempt. A record
   whose lifecycle is active has authority.
   */
  lemma AuthorityIsExclusiveAndLive(ops: seq<FabricOp>, a: Uuid, b: Uuid)
    requires var s := Run(FRESH, ops); a in s.authority && b in s.authority
    requires var s := Run(FRESH, ops); s.authority[a].lifecycle == Active || s.authority[a].hasAuthority
    ensures var s := Run(FRESH, ops);
      && s.authority[a].hasAuthority && s.authority[a].active
      && s.activeFence == Some(s.authority[a].fence)
      && s.authority[a].adapter == a == s.authority[a].fence.adapter && a in s.adapters
      && Attached(s, s.authority[a].fence.worker, s.authority[a].fence.boot)
      && a in s.currentAttempt && s.currentAttempt[a] == s.authority[a].fence.attempt
      && (s.authority[b].hasAuthority || s.authority[b].active || s.authority[b].lifecycle == Active ==> a == b)
  {
    RunKeepsAuthority(FRESH, ops);
    var s := Run(FRESH, ops);
    assert RecordSafe(s, a) && RecordSafe(s, b);
  }

  /**
   While a record holds authority under a fence that is still current, the registry check and the
   pairwise check against that fence agree on every candidate for the adapter on the same worker.
   */
  lemma RegistryAndPairwiseChecksAgree(s: FabricState, a: Uuid, g: AuthorityFence)
    requires AuthoritySafe(s) && a in s.authority && s.authority[a].hasAuthority
    requires CheckFence(s, s.authority[a].fence) == Authorized
    requires g.adapter == a
    ensures ValidateAuthority(g, s.authority[a].fence) == Authorized <==>
            CheckFence(s, g) == Authorized && g.worker == s.authority[a].fence.worker
  {
    assert RecordSafe(s, a);
  }

  // ---- staleness ----

  /** Epoch, generation counter and registered generations never go back. */
  ghost predicate NotBefore(s: FabricState, t: FabricState) {
    && s.epoch <= t.epoch && s.nextAdapterGen <= t.nextAdapterGen
    && forall a <- s.adapters :: a in t.adapters
         && (t.adapters[a].generation == s.adapters[a].generation || s.nextAdapterGen <= t.adapters[a].generation)
  }

  lemma RegisterMovesForward(s: FabricState, d: AdapterDescriptor)
    ensures NotBefore(s, RegisterAdapter(s, d).0)
  {
  }

  lemma PublishMovesForward(s: FabricState, ids: seq<Uuid>, policy: Bytes, newId: Uuid)
    ensures NotBefore(s, PublishComposition(s, ids, policy, newId).0)
  {
    hide AddAll, TargetsDistinct, Compose;
  }

  lemma StepMovesForward(s: FabricState, op: FabricOp)
    ensures NotBefore(s, Apply(s, op))
  {
    hide RegisterAdapter, PublishComposition, CreateInstance, BindAuthority, Invalidate, Evict, Pin, Unpin,
         MarkLoaded, MarkReady;
    match op {
      case AdapterOp(d) => RegisterMovesForward(s, d);
      case ComposeOp(ids, policy, newId) => PublishMovesForward(s, ids, policy, newId);
      case _ => StepFrame(s, op);
    }
  }

  lemma {:induction false} RunMovesForward(s: FabricState, ops: seq<FabricOp>)
    ensures NotBefore(s, Run(s, ops))
  {
    hide Apply;
    if ops != [] {
      RunMovesForward(s, ops[..|ops| - 1]);
      StepMovesForward(Run(s, ops[..|ops| - 1]), ops[|ops| - 1]);
    }
  }

  /** No continuation ever authorizes the fence again. */
  ghost predicate StaleForever(s: FabricState, f: AuthorityFence) {
    forall ops :: CheckFence(Run(s, ops), f) != Authorized
  }

  lemma AuthorizedIsNotStale(s: FabricState, ops: seq<FabricOp>, f: AuthorityFence)
    requires CheckFence(Run(s, ops), f) == Authorized
    ensures !StaleForever(s, f)
  {
  }

  /** Advancing the epoch makes an authorized fence stale for good exactly when the epoch is not saturated. */
  lemma EpochAdvanceIsForever(s: FabricState, f: AuthorityFence)
    requires CheckFence(s, f) == Authorized
    ensures StaleForever(Apply(s, EpochOp), f) <==> s.epoch != U64_MAX
  {
    var t := Apply(s, EpochOp);
    if s.epoch != U64_MAX {
      forall ops
        ensures CheckFence(Run(t, ops), f) != Authorized
      {
        RunMovesForward(t, ops);
      }
    } else {
      assert t == s;
      AuthorizedIsNotStale(t, [], f);
    }
  }

  /** What register_adapter demands of a descriptor. */
  predicate Registrable(d: AdapterDescriptor) {
    d.id != NIL && d.baseModel != NIL && d.baseModelRevision != NIL && d.artifactDigest != [] && d.memoryBytes != 0
  }

  /** A registered adapter is filed under its id, with a generation the counter has already passed. */
  predicate AdapterFiled(s: FabricState, a: Uuid)
    requires a in s.adapters
  {
    var d := s.adapters[a];
    && d.id == a && Registrable(d) && AdapterOk(d)
    && d.generation <= s.nextAdapterGen && (d.generation == s.nextAdapterGen ==> d.generation == U64_MAX)
  }

  /** A published composition has at most as many members as there are adapters. */
  ghost predicate CompositionFiled(s: FabricState, c: Uuid)
    requires c in s.compositions
  {
    var x := s.compositions[c];
    && x.id == c && x.generation != 0 && x.members != [] && |x.members| <= |s.adapters|
    && (forall i :: 0 <= i < |x.members| ==> MemberOk(x.members[i]))
    && Short(x.policy)
    && x == Compose(c, x.generation, x.baseModel, x.baseModelRevision, x.policy, x.members)
  }

  ghost predicate RegistrySafe(s: FabricState) {
    && s.nextAdapterGen != 0 && s.nextCompositionGen != 0
    && (forall a <- s.adapters :: AdapterFiled(s, a))
    && (forall c <- s.compositions :: CompositionFiled(s, c))
    && (forall w <- s.workers :: s.workers[w].id == w && WorkerOk(s.workers[w]))
  }

  /** What arrives through the codecs: decoded descriptors, and texts whose length fits its prefix. */
  predicate FromWire(op: FabricOp) {
    match op
    case AdapterOp(d) => AdapterOk(d)
    case ComposeOp(_, policy, _) => Short(policy)
    case JoinOp(_, _, address, _) => Short(address)
    case _ => true
  }

  ghost predicate AllFromWire(ops: seq<FabricOp>) {
    forall i :: 0 <= i < |ops| ==> FromWire(ops[i])
  }

  lemma NumberingKeepsOk(d: AdapterDescriptor, g: u64)
    requires AdapterOk(d) && g != 0
    ensures AdapterOk(d.(generation := g))
  {
  }

  lemma {:induction false} SubsetIsNoLarger<T>(a: set<T>, b: set<T>)
    requires a <= b
    ensures |a| <= |b|
  {
    assert b == a + (b - a);
  }

  lemma CompositionsStay(s: FabricState, t: FabricState)
    requires s.compositions == t.compositions && s.adapters.Keys <= t.adapters.Keys
    requires forall c <- s.compositions :: CompositionFiled(s, c)
    ensures forall c <- t.compositions :: CompositionFiled(t, c)
  {
    hide Compose, MemberOk;
    SubsetIsNoLarger(s.adapters.Keys, t.adapters.Keys);
    assert |s.adapters| == |s.adapters.Keys| && |t.adapters| == |t.adapters.Keys|;
    forall c | c in t.compositions
      ensures CompositionFiled(t, c)
    {
      assert CompositionFiled(s, c);
    }
  }

  lemma AdapterStepKeepsRegistry(s: FabricState, d: AdapterDescriptor)
    requires RegistrySafe(s) && AdapterOk(d)
    ensures RegistrySafe(RegisterAdapter(s, d).0)
  {
    hide AdapterOk, WorkerOk, CompositionFiled;
    var (t, res) := RegisterAdapter(s, d);
    if res.Ok? {
      NumberingKeepsOk(d, s.nextAdapterGen);
      assert AdapterFiled(t, d.id);
      forall a | a in s.adapters && a != d.id
        ensures AdapterFiled(t, a)
      {
        assert AdapterFiled(s, a);
      }
      CompositionsStay(s, t);
    }
  }

  // ---- publishing ----

  function Picked(s: FabricState, ids: seq<Uuid>): (ds: seq<AdapterDescriptor>)
    requires forall i :: 0 <= i < |ids| ==> ids[i] in s.adapters
    ensures |ds| == |ids| && forall i :: 0 <= i < |ids| ==> ds[i] == s.adapters[ids[i]]
  {
    seq(|ids|, i requires 0 <= i < |ids| => s.adapters[ids[i]])
  }

  predicate AllRegistered(s: FabricState, ids: seq<Uuid>) {
    forall i :: 0 <= i < |ids| ==> ids[i] in s.adapters
  }

  lemma AdmittedPrefix(ds: seq<AdapterDescriptor>, n: nat, base: Uuid, rev: Uuid)
    requires n <= |ds| && Admitted(ds, base, rev)
    ensures Admitted(ds[..n], base, rev)
  {
  }

  lemma {:induction false} AddAllExactly(s: FabricState, ids: seq<Uuid>, k: nat, base: Uuid, rev: Uuid)
    requires k <= |ids| && AllRegistered(s, ids[..k]) && Admitted(Picked(s, ids[..k]), base, rev)
    ensures var res := AddAll(s, ids, k, base, rev, Picked(s, ids[..k]));
      && (res.Ok? <==> AllRegistered(s, ids) && Admitted(Picked(s, ids), base, rev))
      && (res.Ok? ==> res.value == Picked(s, ids))
      && (res.Err? ==> if AllRegistered(s, ids) then res.code == InvalidComposition
                       else res.code == NotFound || res.code == InvalidComposition)
    decreases |ids| - k
  {
    hide Admitted;
    var ds := Picked(s, ids[..k]);
    if k == |ids| {
      assert ids[..k] == ids;
    } else if ids[k] in s.adapters {
      var more := ds + [s.adapters[ids[k]]];
      assert more == Picked(s, ids[..k + 1]);
      if Admitted(more, base, rev) {
        AddAllExactly(s, ids, k + 1, base, rev);
      } else if AllRegistered(s, ids) {
        assert more == Picked(s, ids)[..k + 1];
        if Admitted(Picked(s, ids), base, rev) {
          AdmittedPrefix(Picked(s, ids), k + 1, base, rev);
          assert false;
        }
      }
    }
  }

  predicate SameBase(d: AdapterDescriptor, e: AdapterDescriptor) {
    d.baseModel == e.baseModel && d.baseModelRevision == e.baseModelRevision
  }

  /** Distinct registered adapters for one base model revision, no two of whose targets clash. */
  predicate Composable(s: FabricState, ids: seq<Uuid>) {
    && ids != [] && AllRegistered(s, ids)
    && (forall i, j :: 0 <= i < j < |ids| ==> ids[i] != ids[j])
    && (forall i :: 0 <= i < |ids| ==> SameBase(s.adapters[ids[i]], s.adapters[ids[0]]))
    && TargetsDistinct(Picked(s, ids))
  }

  lemma ComposableIsAdmitted(s: FabricState, ids: seq<Uuid>)
    requires ids != [] && AllRegistered(s, ids)
    requires forall a <- s.adapters :: s.adapters[a].id == a && s.adapters[a].generation != 0
    ensures var first := s.adapters[ids[0]];
      Composable(s, ids) <==>
        Admitted(Picked(s, ids), first.baseModel, first.baseModelRevision) && TargetsDistinct(Picked(s, ids))
  {
    hide TargetsDistinct;
    var ds := Picked(s, ids);
    assert forall i :: 0 <= i < |ids| ==> ds[i].id == ids[i];
    assert forall i, j :: 0 <= i < j < |ids| ==> (ds[i].id != ds[j].id <==> ids[i] != ids[j]);
  }

  /**
   Publishing succeeds exactly on composable lists. The composition then lists the adapters in the
   order asked for, at their registered generations, under the next composition generation; a
   refused request changes nothing, and reports not_found only when some adapter is missing.
   */
  lemma PublishExactly(s: FabricState, ids: seq<Uuid>, policy: Bytes, newId: Uuid)
    requires RegistrySafe(s)
    ensures var (t, res) := PublishComposition(s, ids, policy, newId);
      && (res.Ok? <==> Composable(s, ids))
      && (res.Ok? ==>
            && t == s.(compositions := s.compositions[newId := res.value],
                       nextCompositionGen := Generations.Next(s.nextCompositionGen))
            && res.value == Compose(newId, s.nextCompositionGen, s.adapters[ids[0]].baseModel,
                                    s.adapters[ids[0]].baseModelRevision, policy, MapSeq(MemberOf, Picked(s, ids))))
      && (res.Err? ==> t == s)
      && (res.Err? && ids != [] && AllRegistered(s, ids) ==> res.code == InvalidComposition)
      && (res.Err? ==> res.code == NotFound || res.code == InvalidComposition)
  {
    hide TargetsDistinct, Compose, Admitted, Composable, AdapterOk, WorkerOk, CompositionFiled;
    assert forall a <- s.adapters :: AdapterFiled(s, a);
    if ids != [] && ids[0] in s.adapters {
      var first := s.adapters[ids[0]];
      NothingAdmitted(first.baseModel, first.baseModelRevision);
      assert Picked(s, ids[..0]) == [];
      AddAllExactly(s, ids, 0, first.baseModel, first.baseModelRevision);
      if AllRegistered(s, ids) {
        GenerationsAreSet(s);
        ComposableIsAdmitted(s, ids);
      } else {
        NotComposable(s, ids);
      }
    } else {
      NotComposable(s, ids);
    }
  }

  lemma NothingAdmitted(base: Uuid, rev: Uuid)
    ensures Admitted([], base, rev)
  {
  }

  lemma NotComposable(s: FabricState, ids: seq<Uuid>)
    requires ids == [] || !AllRegistered(s, ids)
    ensures !Composable(s, ids)
  {
  }

  lemma GenerationsAreSet(s: FabricState)
    requires forall a <- s.adapters :: AdapterFiled(s, a)
    ensures forall a <- s.adapters :: s.adapters[a].id == a && s.adapters[a].generation != 0
  {
    assert forall a <- s.adapters :: AdapterFiled(s, a) ==> s.adapters[a].generation != 0;
  }

  lemma {:induction false} DistinctFit<T>(ids: seq<T>, keys: set<T>)
    requires forall i, j :: 0 <= i < j < |ids| ==> ids[i] != ids[j]
    requires forall i :: 0 <= i < |ids| ==> ids[i] in keys
    ensures |ids| <= |keys|
  {
    if ids != [] {
      var n := |ids| - 1;
      DistinctFit(ids[..n], keys - {ids[n]});
    }
  }

  lemma AdaptersStayFiled(s: FabricState, t: FabricState)
    requires forall a <- s.adapters :: AdapterFiled(s, a)
    requires t.adapters == s.adapters && t.nextAdapterGen == s.nextAdapterGen
    ensures forall a <- t.adapters :: AdapterFiled(t, a)
    ensures forall a <- s.adapters :: s.adapters[a].id == a && s.adapters[a].generation != 0
  {
    assert forall a <- t.adapters :: AdapterFiled(s, a) ==> AdapterFiled(t, a) && s.adapters[a].generation != 0;
  }

  lemma OneMoreComposition(s: FabricState, t: FabricState, newId: Uuid)
    requires RegistrySafe(s) && newId in t.compositions && CompositionFiled(t, newId)
    requires t.adapters == s.adapters && t.compositions == s.compositions[newId := t.compositions[newId]]
    ensures forall c <- t.compositions :: CompositionFiled(t, c)
  {
    hide Compose, MemberOk, AdapterFiled, WorkerOk;
    forall c | c in t.compositions
      ensures CompositionFiled(t, c)
    {
      assert c != newId ==> CompositionFiled(s, c);
    }
  }

  lemma PublishKeepsRegistry(s: FabricState, ids: seq<Uuid>, policy: Bytes, newId: Uuid)
    requires RegistrySafe(s) && Short(policy)
    ensures RegistrySafe(PublishComposition(s, ids, policy, newId).0)
  {
    hide PublishComposition, TargetsDistinct, AdapterFiled, CompositionFiled, WorkerOk, Compose;
    var (t, res) := PublishComposition(s, ids, policy, newId);
    PublishExactly(s, ids, policy, newId);
    if res.Ok? {
      AdaptersStayFiled(s, t);
      DistinctFit(ids, s.adapters.Keys);
      ComposedIsFiled(t, newId, s.nextCompositionGen, s.adapters[ids[0]], policy, Picked(s, ids));
      OneMoreComposition(s, t, newId);
    }
  }

  lemma ComposedIsFiled(
      t: FabricState, c: Uuid, g: u64, first: AdapterDescriptor, policy: Bytes, ds: seq<AdapterDescriptor>)
    requires c in t.compositions && g != 0 && Short(policy) && ds != [] && |ds| <= |t.adapters|
    requires forall i :: 0 <= i < |ds| ==> ds[i].generation != 0
    requires t.compositions[c] == Compose(c, g, first.baseModel, first.baseModelRevision, policy, MapSeq(MemberOf, ds))
    ensures CompositionFiled(t, c)
  {
  }

  lemma SameRegistry(s: FabricState, t: FabricState)
    requires RegistrySafe(s)
    requires t.adapters == s.adapters && t.compositions == s.compositions
    requires t.nextAdapterGen == s.nextAdapterGen && t.nextCompositionGen == s.nextCompositionGen
    requires forall w <- t.workers :: t.workers[w].id == w && WorkerOk(t.workers[w])
    ensures RegistrySafe(t)
  {
    hide AdapterOk, WorkerOk, CompositionFiled;
    assert forall a <- t.adapters :: AdapterFiled(s, a) ==> AdapterFiled(t, a);
    CompositionsStay(s, t);
  }

  lemma WorkersStayFiled(s: FabricState, t: FabricState, op: FabricOp)
    requires RegistrySafe(s) && FromWire(op) && t == Apply(s, op) && (op.JoinOp? || op.DownOp?)
    ensures forall w <- t.workers :: t.workers[w].id == w && WorkerOk(t.workers[w])
    ensures RegistriesEqual(s, t.(workers := s.workers))
  {
    hide AuthorityDown, AttemptsDown, ResidenciesDown, AuthorityRestarted, AttemptsRestarted, ResidenciesRestarted,
         AdapterFiled, CompositionFiled;
  }

  lemma StepKeepsRegistry(s: FabricState, op: FabricOp)
    requires RegistrySafe(s) && FromWire(op)
    ensures RegistrySafe(Apply(s, op))
  {
    hide RegisterAdapter, PublishComposition, CreateInstance, BindAuthority, Invalidate, Evict, Pin, Unpin,
         MarkLoaded, MarkReady, Join, OnWorkerDown, AdapterFiled, CompositionFiled;
    match op {
      case AdapterOp(d) => AdapterStepKeepsRegistry(s, d);
      case ComposeOp(ids, policy, newId) => PublishKeepsRegistry(s, ids, policy, newId);
      case EpochOp => SameRegistry(s, Apply(s, op));
      case JoinOp(_, _, _, _) =>
        WorkersStayFiled(s, Apply(s, op), op);
        SameRegistry(s, Apply(s, op));
      case DownOp(_) =>
        WorkersStayFiled(s, Apply(s, op), op);
        SameRegistry(s, Apply(s, op));
      case _ =>
        StepFrame(s, op);
        SameRegistry(s, Apply(s, op));
    }
  }

  lemma {:induction false} RunKeepsRegistry(s: FabricState, ops: seq<FabricOp>)
    requires RegistrySafe(s) && AllFromWire(ops)
    ensures RegistrySafe(Run(s, ops))
  {
    hide Apply, RegistrySafe, FromWire;
    if ops != [] {
      RunKeepsRegistry(s, ops[..|ops| - 1]);
      StepKeepsRegistry(Run(s, ops[..|ops| - 1]), ops[|ops| - 1]);
    }
  }

  lemma FiledAs(s: FabricState, a: Uuid)
    requires RegistrySafe(s) && a in s.adapters
    ensures AdapterFiled(s, a)
  {
  }

  /** Every later registration of the adapter is numbered past `g`. */
  lemma {:induction false} NumberedPast(s: FabricState, ops: seq<FabricOp>, a: Uuid, g: u64)
    requires a in s.adapters && g < s.adapters[a].generation && g < s.nextAdapterGen
    ensures a in Run(s, ops).adapters && g < Run(s, ops).adapters[a].generation
  {
    hide Run;
    RunMovesForward(s, ops);
  }

  /**
   Registering an adapter again makes an authorized fence of its earlier generation stale for good
   exactly when that generation is not saturated: a saturated generation is given out again, and
   a later registration can restore the rest of what the fence is checked against.
   */
  lemma ReregistrationIsForever(s: FabricState, f: AuthorityFence, d: AdapterDescriptor)
    requires RegistrySafe(s) && CheckFence(s, f) == Authorized
    requires d.id == f.adapter && Registrable(d)
    ensures StaleForever(Apply(s, AdapterOp(d)), f) <==> f.adapterGeneration != U64_MAX
  {
    hide RegistrySafe, AdapterOk, Run, NotBefore;
    FiledAs(s, f.adapter);
    var t := Apply(s, AdapterOp(d));
    if f.adapterGeneration != U64_MAX {
      forall ops
        ensures CheckFence(Run(t, ops), f) != Authorized
      {
        NumberedPast(t, ops, f.adapter, f.adapterGeneration);
      }
    } else {
      RegisteredBack(s, f, d);
    }
  }

  lemma RegisteredBack(s: FabricState, f: AuthorityFence, d: AdapterDescriptor)
    requires CheckFence(s, f) == Authorized && f.adapterGeneration == U64_MAX == s.nextAdapterGen
    requires d.id == f.adapter && Registrable(d) && f.baseModelRevision != NIL
    ensures !StaleForever(Apply(s, AdapterOp(d)), f)
  {
    hide StaleForever;
    var t := Apply(s, AdapterOp(d));
    var back := AdapterOp(d.(baseModelRevision := f.baseModelRevision));
    assert [back][..0] == [];
    assert Run(t, [back]) == Apply(t, back);
    AuthorizedIsNotStale(t, [back], f);
  }

  // ---- invalidation ----

  predicate Unauthorized(s: FabricState, a: Uuid) { a in s.authority ==> !s.authority[a].hasAuthority }

  predicate Binds(op: FabricOp, a: Uuid) { op.BindOp? && op.fence.adapter == a }

  lemma HoldersKeepUnauthorized(s: FabricState, op: FabricOp, a: Uuid)
    requires Unauthorized(s, a) && (op.JoinOp? || op.DownOp?)
    ensures Unauthorized(Apply(s, op), a) && Apply(s, op).invalidationLog == s.invalidationLog
  {
    hide AttemptsDown, ResidenciesDown, AttemptsRestarted, ResidenciesRestarted;
  }

  lemma RecordsKeepUnauthorized(s: FabricState, op: FabricOp, a: Uuid)
    requires Unauthorized(s, a) && !Binds(op, a)
    requires op.CreateOp? || op.BindOp? || op.InvalidateOp? || op.ReadyOp?
    ensures Unauthorized(Apply(s, op), a) && s.invalidationLog <= Apply(s, op).invalidationLog
  {
    hide CheckFence;
  }

  lemma LogStays(s: FabricState, op: FabricOp)
    requires op.EpochOp? || op.AdapterOp? || op.ComposeOp? || op.EvictOp? || op.PinOp? || op.UnpinOp? || op.LoadedOp?
    ensures Apply(s, op).invalidationLog == s.invalidationLog
  {
    hide AddAll, TargetsDistinct, Compose;
  }

  lemma StepKeepsUnauthorized(s: FabricState, op: FabricOp, a: Uuid)
    requires Unauthorized(s, a) && !Binds(op, a)
    ensures Unauthorized(Apply(s, op), a) && s.invalidationLog <= Apply(s, op).invalidationLog
  {
    hide RegisterAdapter, PublishComposition, CreateInstance, BindAuthority, Invalidate, Evict, Pin, Unpin,
         MarkLoaded, MarkReady, Join, OnWorkerDown, AdvanceEpoch;
    match op {
      case JoinOp(_, _, _, _) => HoldersKeepUnauthorized(s, op, a);
      case DownOp(_) => HoldersKeepUnauthorized(s, op, a);
      case CreateOp(_, _, _, _, _, _) => RecordsKeepUnauthorized(s, op, a);
      case BindOp(_) => RecordsKeepUnauthorized(s, op, a);
      case InvalidateOp(_, _, _) => RecordsKeepUnauthorized(s, op, a);
      case ReadyOp(_) => RecordsKeepUnauthorized(s, op, a);
      case _ =>
        StepFrame(s, op);
        LogStays(s, op);
    }
  }

  /** Only binding a fence for an adapter gives it authority, and the invalidation log only grows. */
  lemma {:induction false} OnlyBindingGrants(s: FabricState, ops: seq<FabricOp>, a: Uuid)
    requires Unauthorized(s, a) && forall i :: 0 <= i < |ops| ==> !Binds(ops[i], a)
    ensures Unauthorized(Run(s, ops), a) && s.invalidationLog <= Run(s, ops).invalidationLog
    ensures forall f: AuthorityFence :: f.adapter == a ==> ReuseSafe(Run(s, ops), f) != Authorized
  {
    hide Apply, CheckFence;
    if ops != [] {
      OnlyBindingGrants(s, ops[..|ops| - 1], a);
      StepKeepsUnauthorized(Run(s, ops[..|ops| - 1]), ops[|ops| - 1], a);
    }
  }

  /**
   Invalidating an adapter ends its authority, and every reuse of its instance is denied until a fence is
   bound for it again; if it was the exclusive adapter the exclusive fence is free. The log keeps, for good,
   which generation was invalidated, in which epoch and why.
   */
  lemma InvalidationLasts(s: FabricState, a: Uuid, trigger: byte, reason: Bytes, ops: seq<FabricOp>)
    requires forall i :: 0 <= i < |ops| ==> !Binds(ops[i], a)
    ensures var t := Apply(s, InvalidateOp(a, trigger, reason));
      var u, n := Run(t, ops), |s.invalidationLog|;
      && Unauthorized(u, a) && (forall f: AuthorityFence :: f.adapter == a ==> ReuseSafe(u, f) != Authorized)
      && (t.activeFence.Some? ==> t.activeFence.value.adapter != a && t.activeFence == s.activeFence)
      && (forall b <- s.authority :: b != a ==> b in t.authority && t.authority[b] == s.authority[b])
      && n < |u.invalidationLog| && u.invalidationLog[..n] == s.invalidationLog
      && u.invalidationLog[n] == InvalidationRecord(trigger, a, reason, s.epoch,
                                   if a in s.adapters then s.adapters[a].generation else 0)
  {
    hide Run, ReuseSafe;
    var t := Apply(s, InvalidateOp(a, trigger, reason));
    OnlyBindingGrants(t, ops, a);
  }

  // ---- dead processes ----

  predicate Joins(op: FabricOp, worker: Uuid, boot: Uuid) {
    op.JoinOp? && op.worker == worker && op.boot == boot
  }

  /** Nothing is granted to a fence naming that process. */
  predicate Refused(s: FabricState, f: AuthorityFence) {
    && CheckFence(s, f) != Authorized
    && BindAuthority(s, f.adapter, f) == (s, Ok(CheckFence(s, f)))
    && ReuseSafe(s, f) != Authorized
  }

  lemma StepKeepsDetached(s: FabricState, op: FabricOp, worker: Uuid, boot: Uuid)
    requires !Attached(s, worker, boot) && !Joins(op, worker, boot)
    ensures !Attached(Apply(s, op), worker, boot)
  {
    hide RegisterAdapter, PublishComposition, CreateInstance, BindAuthority, Invalidate, Evict, Pin, Unpin,
         MarkLoaded, MarkReady, AuthorityDown, AttemptsDown, ResidenciesDown,
         AuthorityRestarted, AttemptsRestarted, ResidenciesRestarted;
    if !op.JoinOp? && !op.DownOp? {
      StepFrame(s, op);
    }
  }

  lemma {:induction false} RunKeepsDetached(s: FabricState, ops: seq<FabricOp>, worker: Uuid, boot: Uuid)
    requires !Attached(s, worker, boot)
    requires forall i :: 0 <= i < |ops| ==> !Joins(ops[i], worker, boot)
    ensures !Attached(Run(s, ops), worker, boot)
  {
    hide Apply, Attached;
    if ops != [] {
      RunKeepsDetached(s, ops[..|ops| - 1], worker, boot);
      StepKeepsDetached(Run(s, ops[..|ops| - 1]), ops[|ops| - 1], worker, boot);
    }
  }

  lemma DetachedIsRefused(s: FabricState, f: AuthorityFence)
    requires !Attached(s, f.worker, f.boot)
    ensures Refused(s, f)
  {
  }

  /**
   After a worker goes down, or registers under another boot, no fence naming its earlier boot is
   checked, bound or reused, and no record has authority under it, in any continuation that does
   not register that very boot again.
   */
  lemma NoResurrection(s: FabricState, down: FabricOp, ops: seq<FabricOp>, f: AuthorityFence)
    requires AuthoritySafe(s)
    requires down == DownOp(f.worker) || (down.JoinOp? && down.worker == f.worker && down.boot != f.boot)
    requires forall i :: 0 <= i < |ops| ==> !Joins(ops[i], f.worker, f.boot)
    ensures Refused(Run(Apply(s, down), ops), f)
    ensures forall a <- Run(Apply(s, down), ops).authority ::
              var ar := Run(Apply(s, down), ops).authority[a];
              ar.hasAuthority || ar.active || ar.lifecycle == Active ==>
                (ar.fence.worker, ar.fence.boot) != (f.worker, f.boot)
  {
    hide Run;
    var t := Apply(s, down);
    assert !Attached(t, f.worker, f.boot);
    RunKeepsDetached(t, ops, f.worker, f.boot);
    DetachedIsRefused(Run(t, ops), f);
    StepKeepsAuthority(s, down);
    RunKeepsAuthority(t, ops);
    assert forall a <- Run(t, ops).authority :: RecordSafe(Run(t, ops), a);
  }

  // ---- eviction ----

  function CountUnpins(ops: seq<FabricOp>, inst: Uuid): nat {
    if ops == [] then 0
    else CountUnpins(ops[..|ops| - 1], inst) + if ops[|ops| - 1] == UnpinOp(inst) then 1 else 0
  }

  function CountPins(ops: seq<FabricOp>, inst: Uuid): nat {
    if ops == [] then 0
    else CountPins(ops[..|ops| - 1], inst) + if ops[|ops| - 1] == PinOp(inst) then 1 else 0
  }

  /** `inst` was generated once and is not generated again. */
  predicate NotRecreated(ops: seq<FabricOp>, inst: Uuid) {
    forall i :: 0 <= i < |ops| ==> !(ops[i].CreateOp? && ops[i].inst == inst)
  }

  /** The step keeps the pinned instance, and counts its pins exactly. */
  predicate PinsCounted(r: ResidencyRecord, q: ResidencyRecord, pins: bool, unpins: bool) {
    && (q.protected || unpins)
    && (!pins && !unpins ==> q.pinCount == r.pinCount)
    && (pins && r.pinCount + 1 < TWO_TO_THE_32 ==> q.pinCount == r.pinCount + 1)
    && (unpins ==> q.pinCount == r.pinCount - 1 && (q.pinCount > 0 ==> q.protected))
  }

  lemma WorkersKeepPins(s: FabricState, op: FabricOp, inst: Uuid)
    requires inst in s.residencies && s.residencies[inst].protected && (op.JoinOp? || op.DownOp?)
    ensures inst in Apply(s, op).residencies
    ensures PinsCounted(s.residencies[inst], Apply(s, op).residencies[inst], false, false)
  {
    hide AuthorityDown, AttemptsDown, AuthorityRestarted, AttemptsRestarted;
  }

  lemma PinCounts(s: FabricState, i: Uuid, inst: Uuid)
    requires inst in s.residencies && s.residencies[inst].pinCount > 0 && s.residencies[inst].protected
    ensures inst in Pin(s, i).0.residencies
    ensures PinsCounted(s.residencies[inst], Pin(s, i).0.residencies[inst], i == inst, false)
  {
  }

  lemma UnpinCounts(s: FabricState, i: Uuid, inst: Uuid)
    requires inst in s.residencies && s.residencies[inst].pinCount > 0 && s.residencies[inst].protected
    ensures inst in Unpin(s, i).0.residencies
    ensures PinsCounted(s.residencies[inst], Unpin(s, i).0.residencies[inst], false, i == inst)
  {
  }

  lemma EvictSparesPinned(s: FabricState, i: Uuid, inst: Uuid)
    requires inst in s.residencies && s.residencies[inst].protected
    ensures inst in Evict(s, i).0.residencies && Evict(s, i).0.residencies[inst] == s.residencies[inst]
  {
  }

  lemma LoadSparesPinned(s: FabricState, i: Uuid, bytes: u64, inst: Uuid)
    requires inst in s.residencies && s.residencies[inst].protected
    ensures inst in MarkLoaded(s, i, bytes).residencies
    ensures PinsCounted(s.residencies[inst], MarkLoaded(s, i, bytes).residencies[inst], false, false)
  {
  }

  lemma StepKeepsPins(s: FabricState, op: FabricOp, inst: Uuid)
    requires inst in s.residencies && s.residencies[inst].pinCount > 0 && s.residencies[inst].protected
    requires !(op.CreateOp? && op.inst == inst)
    ensures inst in Apply(s, op).residencies
    ensures PinsCounted(s.residencies[inst], Apply(s, op).residencies[inst], op == PinOp(inst), op == UnpinOp(inst))
  {
    hide RegisterAdapter, PublishComposition, CreateInstance, BindAuthority, Invalidate, Evict, Pin, Unpin,
         MarkLoaded, MarkReady, Join, OnWorkerDown;
    match op {
      case CreateOp(adapter, worker, boot, device, bytes, i) =>
        CreateFrame(s, adapter, worker, boot, device, bytes, i);
      case JoinOp(_, _, _, _) => WorkersKeepPins(s, op, inst);
      case DownOp(_) => WorkersKeepPins(s, op, inst);
      case EvictOp(i) => EvictSparesPinned(s, i, inst);
      case PinOp(i) => PinCounts(s, i, inst);
      case UnpinOp(i) => UnpinCounts(s, i, inst);
      case LoadedOp(i, bytes) => LoadSparesPinned(s, i, bytes, inst);
      case _ => StepFrame(s, op);
    }
  }

  /**
   A pinned instance outlasts every run that unpins it less often than it is pinned: it stays
   resident, its count is exact, and evicting it is refused. (Counts do not wrap at 2^32.)
   */
  lemma {:induction false} PinnedInstancesStay(s: FabricState, ops: seq<FabricOp>, inst: Uuid)
    requires inst in s.residencies && s.residencies[inst].protected
    requires NotRecreated(ops, inst)
    requires CountUnpins(ops, inst) < s.residencies[inst].pinCount
    requires s.residencies[inst].pinCount + CountPins(ops, inst) < TWO_TO_THE_32
    ensures var t := Run(s, ops);
      && inst in t.residencies && t.residencies[inst].protected
      && t.residencies[inst].pinCount == s.residencies[inst].pinCount + CountPins(ops, inst) - CountUnpins(ops, inst)
      && Evict(t, inst).0 == t && Evict(t, inst).1 in {ActiveReferences, ProtectedOrPinned}
  {
    hide Apply;
    if ops != [] {
      var n := |ops| - 1;
      PinnedInstancesStay(s, ops[..n], inst);
      StepKeepsPins(Run(s, ops[..n]), ops[n], inst);
    }
  }
}
