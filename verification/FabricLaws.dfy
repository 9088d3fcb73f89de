/**
 The fabric part by part: which operations touch an epoch, a registration, a record, a residency, an attempt or
 the exclusive fence, and what they leave there. Nothing here is said through the bodies of the operations.
 (src/fabric.cpp)
 */
module FabricLaws {
  import opened Basics
  import opened Records
  import opened Authorities
  import opened Compositions
  import Capacity
  import opened Fabrics
  import opened FabricRuns
  import Generations

  function Lookup<T>(m: map<Uuid, T>, u: Uuid): Option<T> { if u in m then Some(m[u]) else None }

  // ---- fences ----

  predicate Registered(s: FabricState, a: Uuid) { a != NIL && a in s.adapters }

  predicate WorkerOnline(s: FabricState, worker: Uuid) { worker in s.workers && s.workers[worker].connected }

  predicate Complete(f: AuthorityFence) { NIL !in {f.worker, f.boot, f.attempt} }

  /** Fence and registry agree on the epoch, on the adapter's generation and on its base model revision. */
  predicate UpToDate(s: FabricState, f: AuthorityFence) {
    && Registered(s, f.adapter) && f.epoch == s.epoch
    && f.adapterGeneration == s.adapters[f.adapter].generation
    && f.baseModelRevision == s.adapters[f.adapter].baseModelRevision
  }

  /** The attempt is the recorded one, if one is recorded. */
  predicate AttemptAgrees(s: FabricState, f: AuthorityFence) {
    Lookup(s.currentAttempt, f.adapter) in {None, Some(f.attempt)}
  }

  /** The three generations a record's fence carries; 1 each where there is no record. */
  function RecordGenerations(s: FabricState, a: Uuid): (u64, u64, u64) {
    if a !in s.authority then (1, 1, 1)
    else
      var g := s.authority[a].fence;
      (g.residencyGeneration, g.compositionGeneration, g.artifactGeneration)
  }

  predicate Current(s: FabricState, f: AuthorityFence) {
    && UpToDate(s, f) && Attached(s, f.worker, f.boot) && Complete(f) && AttemptAgrees(s, f)
    && RecordGenerations(s, f.adapter) == (f.residencyGeneration, f.compositionGeneration, f.artifactGeneration)
  }

  /** A fence is authorized exactly when it is current. */
  lemma AuthorizedExactly(s: FabricState, f: AuthorityFence)
    ensures CheckFence(s, f) == Authorized <==> Current(s, f)
  {
  }

  /** Exactly when each refusal is given: the first disagreement decides. */
  lemma RefusedExactly(s: FabricState, f: AuthorityFence)
    ensures var v, reg := CheckFence(s, f), Registered(s, f.adapter);
      var online := UpToDate(s, f) && WorkerOnline(s, f.worker);
      var live := online && Complete(f) && Attached(s, f.worker, f.boot);
      var (rgen, cgen, agen) := RecordGenerations(s, f.adapter);
      && (v == StaleEpoch <==> reg && f.epoch != s.epoch)
      && (v == StaleAdapterGeneration <==>
            reg && f.epoch == s.epoch && f.adapterGeneration != s.adapters[f.adapter].generation)
      && (v == StaleBaseModel <==>
            && reg && f.epoch == s.epoch && f.adapterGeneration == s.adapters[f.adapter].generation
            && f.baseModelRevision != s.adapters[f.adapter].baseModelRevision)
      && (v == StaleWorker <==> UpToDate(s, f) && !WorkerOnline(s, f.worker))
      && (v == Unknown <==> !reg || (online && !Complete(f)))
      && (v == StaleBoot <==> online && Complete(f) && !Attached(s, f.worker, f.boot))
      && (v == StaleAttempt <==> live && !AttemptAgrees(s, f))
      && (v == StaleResidencyGeneration <==> live && AttemptAgrees(s, f) && f.residencyGeneration != rgen)
      && (v == StaleCompositionGeneration <==>
            live && AttemptAgrees(s, f) && f.residencyGeneration == rgen && f.compositionGeneration != cgen)
      && (v == StaleArtifactGeneration <==>
            && live && AttemptAgrees(s, f) && f.residencyGeneration == rgen && f.compositionGeneration == cgen
            && f.artifactGeneration != agen)
  {
  }

  /** A reuse is granted exactly to a current fence whose adapter has authority and a ready, resident instance. */
  lemma ReusedExactly(s: FabricState, f: AuthorityFence)
    ensures ReuseSafe(s, f) == Authorized <==>
            && Current(s, f) && f.adapter in s.authority && s.authority[f.adapter].hasAuthority
            && s.authority[f.adapter].instance in s.residencies
            && s.residencies[s.authority[f.adapter].instance].ready
    ensures ReuseSafe(s, f) in {Authorized, Unknown, CheckFence(s, f)}
    ensures !Current(s, f) ==> ReuseSafe(s, f) == CheckFence(s, f)
  {
    hide CheckFence, Current;
    AuthorizedExactly(s, f);
  }

  // ---- binding ----

  predicate ExclusiveFor(s: FabricState, a: Uuid) { s.activeFence.Some? ==> s.activeFence.value.adapter == a }

  predicate Granted(s: FabricState, f: AuthorityFence) {
    Current(s, f) && ExclusiveFor(s, f.adapter) && f.adapter in s.authority
  }

  /**
   A bind is granted exactly to a current fence of an adapter that has a record, while no other adapter's fence
   is exclusive. A fence that is not current gets its verdict; another exclusive adapter is a conflict; a missing
   record is not found. Whatever is not granted changes nothing.
   */
  lemma BoundExactly(s: FabricState, f: AuthorityFence)
    ensures var (t, res) := BindAuthority(s, f.adapter, f);
      && (res == Ok(Authorized) <==> Granted(s, f))
      && (res.Ok? && res.value != Authorized <==> !Current(s, f)) && (!Current(s, f) ==> res == Ok(CheckFence(s, f)))
      && (res == Err(AuthorityConflict) <==> Current(s, f) && !ExclusiveFor(s, f.adapter))
      && (res == Err(NotFound) <==> Current(s, f) && ExclusiveFor(s, f.adapter) && f.adapter !in s.authority)
      && (!Granted(s, f) ==> t == s)
  {
    hide CheckFence, Current;
    AuthorizedExactly(s, f);
  }

  /** A granted bind leaves every other record and attempt, every registration and every residency as it was. */
  lemma BindLeavesOthersAlone(s: FabricState, f: AuthorityFence)
    requires Granted(s, f)
    ensures var t := BindAuthority(s, f.adapter, f).0;
      && RegistriesEqual(s, t) && t.residencies == s.residencies && t.invalidationLog == s.invalidationLog
      && (forall a :: a != f.adapter ==> Lookup(t.authority, a) == Lookup(s.authority, a))
      && (forall a :: a != f.adapter ==> Lookup(t.currentAttempt, a) == Lookup(s.currentAttempt, a))
  {
    hide CheckFence;
    AuthorizedExactly(s, f);
  }

  /** What has been bound is current, is granted again, and changes nothing the second time. */
  lemma BindingAgainChangesNothing(s: FabricState, f: AuthorityFence)
    requires Granted(s, f)
    ensures var t := BindAuthority(s, f.adapter, f).0;
      Current(t, f) && BindAuthority(t, f.adapter, f) == (t, Ok(Authorized))
  {
    hide CheckFence;
    AuthorizedExactly(s, f);
    var t := BindAuthority(s, f.adapter, f).0;
    AuthorizedExactly(t, f);
    assert t.authority[f.adapter := t.authority[f.adapter]] == t.authority;
    assert t.currentAttempt[f.adapter := f.attempt] == t.currentAttempt;
  }

  // ---- what happens to each part ----

  predicate Creates(s: FabricState, op: FabricOp, a: Uuid) { op.CreateOp? && op.adapter == a && a in s.adapters }

  predicate BindsTo(s: FabricState, op: FabricOp, a: Uuid) {
    op.BindOp? && op.fence.adapter == a && Granted(s, op.fence)
  }

  /** The process `(worker, boot)` is lost: its worker goes down, or joins under another boot. */
  predicate Loses(op: FabricOp, worker: Uuid, boot: Uuid) {
    (op.DownOp? && op.worker == worker) || (op.JoinOp? && op.worker == worker && op.boot != boot)
  }

  /** A new record's fence: everything but an attempt, a node and a composition. */
  function FenceAtCreation(s: FabricState, op: FabricOp): AuthorityFence
    requires op.CreateOp? && op.adapter in s.adapters
  {
    AuthorityFence(op.adapter, NIL, s.adapters[op.adapter].generation, 1, 1, 1,
                   s.adapters[op.adapter].baseModelRevision, s.epoch, op.worker, op.boot, NIL, op.device, NIL)
  }

  function Revoked(ar: AuthorityRecord): AuthorityRecord {
    ar.(hasAuthority := false, active := false, lifecycle := Invalidated)
  }

  function RecordAfter(s: FabricState, op: FabricOp, a: Uuid): Option<AuthorityRecord> {
    if Creates(s, op, a) then Some(AuthorityRecord(a, op.inst, Loading, 1, FenceAtCreation(s, op), false, false))
    else if a !in s.authority then None
    else
      var ar := s.authority[a];
      if BindsTo(s, op, a) then Some(ar.(fence := op.fence, hasAuthority := true, active := true, lifecycle := Active))
      else if (op.InvalidateOp? && op.adapter == a) || Loses(op, ar.fence.worker, ar.fence.boot) then Some(Revoked(ar))
      else if op.ReadyOp? && op.adapter == a then Some(ar.(lifecycle := Ready))
      else Some(ar)
  }

  function AttemptAfter(s: FabricState, op: FabricOp, a: Uuid): Option<Uuid> {
    if BindsTo(s, op, a) then Some(op.fence.attempt)
    else if a in s.authority && Loses(op, s.authority[a].fence.worker, s.authority[a].fence.boot) then None
    else Lookup(s.currentAttempt, a)
  }

  function ExclusiveAfter(s: FabricState, op: FabricOp): Option<AuthorityFence> {
    if op.BindOp? && Granted(s, op.fence) then Some(op.fence)
    else if s.activeFence.Some? && ((op.InvalidateOp? && op.adapter == s.activeFence.value.adapter)
            || Loses(op, s.activeFence.value.worker, s.activeFence.value.boot)) then None
    else s.activeFence
  }

  /** Neither referenced nor pinned nor protected. */
  predicate Evictable(r: ResidencyRecord) { r.activeRefs == 0 && r.pinCount == 0 && !r.protected }

  function ResidencyAfter(s: FabricState, op: FabricOp, i: Uuid): Option<ResidencyRecord> {
    if op.CreateOp? && op.inst == i && op.adapter in s.adapters then
      Some(ResidencyRecord(i, op.adapter, s.adapters[op.adapter].generation, 1, Capacity.DeviceMemory, op.bytes,
                           op.worker, op.boot, s.epoch, op.device, false, 0, 0, false, NoMigration))
    else if i !in s.residencies then None
    else
      var r := s.residencies[i];
      if op == EvictOp(i) && Evictable(r) then None
      else if op == PinOp(i) then Some(r.(pinCount := Above(r.pinCount), protected := true))
      else if op == UnpinOp(i) then Some(r.(pinCount := Below(r.pinCount), protected := r.protected && r.pinCount > 1))
      else if op.LoadedOp? && op.inst == i then Some(r.(ready := true, bytes := op.bytes))
      else if op.DownOp? && op.worker == r.worker then Some(r.(ready := false))
      else if Loses(op, r.worker, r.boot) then Some(r.(ready := false, migration := NoMigration))
      else Some(r)
  }

  /** The next count, back to 0 after the largest. */
  function Above(n: u32): u32 { if n == 0xFFFF_FFFF then 0 else n + 1 }
  function Below(n: u32): u32 { if n == 0 then 0 else n - 1 }

  function WorkerAfter(s: FabricState, op: FabricOp, w: Uuid): Option<WorkerRecord> {
    if op.JoinOp? && op.worker == w then
      Some(WorkerRecord(w, op.boot, op.address, op.node, NIL, true, s.epoch, [], 0, []))
    else if op.DownOp? && op.worker == w && w in s.workers then Some(s.workers[w].(connected := false))
    else Lookup(s.workers, w)
  }

  predicate Registers(op: FabricOp, a: Uuid) { op.AdapterOp? && op.d.id == a && Registrable(op.d) }

  function AdapterAfter(s: FabricState, op: FabricOp, a: Uuid): Option<AdapterDescriptor> {
    if Registers(op, a) then Some(op.d.(generation := s.nextAdapterGen)) else Lookup(s.adapters, a)
  }

  function OneMore(g: u64): u64 { if g == U64_MAX then U64_MAX else g + 1 }

  function EpochAfter(s: FabricState, op: FabricOp): u64 { if op.EpochOp? then OneMore(s.epoch) else s.epoch }

  function CounterAfter(s: FabricState, op: FabricOp): u64 {
    if op.AdapterOp? && Registrable(op.d) then OneMore(s.nextAdapterGen) else s.nextAdapterGen
  }

  function LogAfter(s: FabricState, op: FabricOp): seq<InvalidationRecord> {
    if op.InvalidateOp? then
      var prior := if op.adapter in s.adapters then s.adapters[op.adapter].generation else 0;
      s.invalidationLog + [InvalidationRecord(op.trigger, op.adapter, op.reason, s.epoch, prior)]
    else s.invalidationLog
  }

  // ---- records, attempts and the exclusive fence ----

  /** Record and attempt of one adapter, and the exclusive fence, are as said. */
  predicate HoldingsFollow(s: FabricState, op: FabricOp, t: FabricState, a: Uuid) {
    && Lookup(t.authority, a) == RecordAfter(s, op, a) && Lookup(t.currentAttempt, a) == AttemptAfter(s, op, a)
    && t.activeFence == ExclusiveAfter(s, op)
  }

  lemma CreateFollows(s: FabricState, op: FabricOp, a: Uuid)
    requires op.CreateOp?
    ensures HoldingsFollow(s, op, Apply(s, op), a)
  {
    hide Granted;
  }

  lemma BindFollows(s: FabricState, op: FabricOp, a: Uuid)
    requires op.BindOp?
    ensures HoldingsFollow(s, op, Apply(s, op), a)
  {
    hide CheckFence, Current, ExclusiveFor;
    BoundExactly(s, op.fence);
    if Granted(s, op.fence) {
      GrantedBindWrites(s, op.fence);
    }
  }

  lemma GrantedBindWrites(s: FabricState, f: AuthorityFence)
    requires BindAuthority(s, f.adapter, f).1 == Ok(Authorized)
    ensures var t := BindAuthority(s, f.adapter, f).0;
      && f.adapter in s.authority && t.activeFence == Some(f)
      && t.authority == s.authority[f.adapter := s.authority[f.adapter].(
                          fence := f, hasAuthority := true, active := true, lifecycle := Active)]
      && t.currentAttempt == s.currentAttempt[f.adapter := f.attempt]
  {
    hide CheckFence;
  }

  lemma InvalidateFollows(s: FabricState, op: FabricOp, a: Uuid)
    requires op.InvalidateOp?
    ensures HoldingsFollow(s, op, Apply(s, op), a)
  {
    hide Granted;
  }

  lemma ReadyFollows(s: FabricState, op: FabricOp, a: Uuid)
    requires op.ReadyOp?
    ensures HoldingsFollow(s, op, Apply(s, op), a)
  {
    hide Granted;
  }

  lemma JoinFollows(s: FabricState, op: FabricOp, a: Uuid)
    requires op.JoinOp?
    ensures HoldingsFollow(s, op, Apply(s, op), a)
  {
    hide Granted, ResidenciesRestarted;
  }

  lemma DownFollows(s: FabricState, op: FabricOp, a: Uuid)
    requires op.DownOp?
    ensures HoldingsFollow(s, op, Apply(s, op), a)
  {
    hide Granted, ResidenciesDown;
  }

  /**
   Every operation does to an adapter's record and attempt, and to the exclusive fence, exactly what is said
   above.
   */
  lemma HoldingsAfterStep(s: FabricState, op: FabricOp, a: Uuid)
    ensures HoldingsFollow(s, op, Apply(s, op), a)
  {
    hide RegisterAdapter, PublishComposition, CreateInstance, BindAuthority, Invalidate, Evict, Pin, Unpin, MarkLoaded,
         MarkReady, Join, OnWorkerDown, AdvanceEpoch, Granted;
    match op {
      case CreateOp(_, _, _, _, _, _) => CreateFollows(s, op, a);
      case BindOp(_) => BindFollows(s, op, a);
      case InvalidateOp(_, _, _) => InvalidateFollows(s, op, a);
      case ReadyOp(_) => ReadyFollows(s, op, a);
      case JoinOp(_, _, _, _) => JoinFollows(s, op, a);
      case DownOp(_) => DownFollows(s, op, a);
      case _ => StepFrame(s, op);
    }
  }

  // ---- residencies ----

  lemma CreateMakesResident(s: FabricState, op: FabricOp, i: Uuid)
    requires op.CreateOp?
    ensures Lookup(Apply(s, op).residencies, i) == ResidencyAfter(s, op, i)
  {
  }

  lemma EvictUnmakesResident(s: FabricState, op: FabricOp, i: Uuid)
    requires op.EvictOp?
    ensures Lookup(Apply(s, op).residencies, i) == ResidencyAfter(s, op, i)
  {
    hide RegisterAdapter, PublishComposition, CreateInstance, BindAuthority, Invalidate, Pin, Unpin, MarkLoaded,
         MarkReady, Join, OnWorkerDown, Above, Below;
    EvictedExactly(s, op.inst);
  }

  lemma PinsMove(s: FabricState, op: FabricOp, i: Uuid)
    requires op.PinOp?
    ensures Lookup(Apply(s, op).residencies, i) == ResidencyAfter(s, op, i)
  {
  }

  lemma UnpinsMove(s: FabricState, op: FabricOp, i: Uuid)
    requires op.UnpinOp?
    ensures Lookup(Apply(s, op).residencies, i) == ResidencyAfter(s, op, i)
  {
  }

  lemma LoadedIsReady(s: FabricState, op: FabricOp, i: Uuid)
    requires op.LoadedOp?
    ensures Lookup(Apply(s, op).residencies, i) == ResidencyAfter(s, op, i)
  {
  }

  lemma JoinUnreadies(s: FabricState, op: FabricOp, i: Uuid)
    requires op.JoinOp?
    ensures Lookup(Apply(s, op).residencies, i) == ResidencyAfter(s, op, i)
  {
    hide AuthorityRestarted, AttemptsRestarted;
  }

  lemma DownUnreadies(s: FabricState, op: FabricOp, i: Uuid)
    requires op.DownOp?
    ensures Lookup(Apply(s, op).residencies, i) == ResidencyAfter(s, op, i)
  {
    hide AuthorityDown, AttemptsDown;
  }

  /** Every operation does to an instance's residency exactly what is said above. */
  lemma ResidencyAfterStep(s: FabricState, op: FabricOp, i: Uuid)
    ensures Lookup(Apply(s, op).residencies, i) == ResidencyAfter(s, op, i)
  {
    hide RegisterAdapter, PublishComposition, CreateInstance, BindAuthority, Invalidate, Evict, Pin, Unpin, MarkLoaded,
         MarkReady, Join, OnWorkerDown, AdvanceEpoch;
    match op {
      case CreateOp(_, _, _, _, _, _) => CreateMakesResident(s, op, i);
      case EvictOp(_) => EvictUnmakesResident(s, op, i);
      case PinOp(_) => PinsMove(s, op, i);
      case UnpinOp(_) => UnpinsMove(s, op, i);
      case LoadedOp(_, _) => LoadedIsReady(s, op, i);
      case JoinOp(_, _, _, _) => JoinUnreadies(s, op, i);
      case DownOp(_) => DownUnreadies(s, op, i);
      case _ => StepFrame(s, op);
    }
  }

  // ---- registrations, epoch, counter and log ----

  /** Adapter and worker registered under `u`, the epoch and the generation counter are as said. */
  predicate RegistriesFollow(s: FabricState, op: FabricOp, t: FabricState, u: Uuid) {
    && Lookup(t.adapters, u) == AdapterAfter(s, op, u) && Lookup(t.workers, u) == WorkerAfter(s, op, u)
    && t.epoch == EpochAfter(s, op) && t.nextAdapterGen == CounterAfter(s, op)
  }

  lemma RegisterFollows(s: FabricState, op: FabricOp, u: Uuid)
    requires op.AdapterOp?
    ensures RegistriesFollow(s, op, Apply(s, op), u)
  {
  }

  lemma PublishFollows(s: FabricState, op: FabricOp, u: Uuid)
    requires op.ComposeOp?
    ensures RegistriesFollow(s, op, Apply(s, op), u)
  {
    hide AddAll, TargetsDistinct, Compose;
  }

  lemma WorkersFollow(s: FabricState, op: FabricOp, u: Uuid)
    requires op.JoinOp? || op.DownOp?
    ensures RegistriesFollow(s, op, Apply(s, op), u)
  {
    hide AuthorityDown, AttemptsDown, ResidenciesDown, AuthorityRestarted, AttemptsRestarted, ResidenciesRestarted;
  }

  /** Every operation does to registrations, epoch and counter exactly what is said above. */
  lemma RegistriesAfterStep(s: FabricState, op: FabricOp, u: Uuid)
    ensures RegistriesFollow(s, op, Apply(s, op), u)
  {
    hide RegisterAdapter, PublishComposition, CreateInstance, BindAuthority, Invalidate, Evict, Pin, Unpin, MarkLoaded,
         MarkReady, Join, OnWorkerDown;
    match op {
      case EpochOp =>
      case AdapterOp(_) => RegisterFollows(s, op, u);
      case ComposeOp(_, _, _) => PublishFollows(s, op, u);
      case JoinOp(_, _, _, _) => WorkersFollow(s, op, u);
      case DownOp(_) => WorkersFollow(s, op, u);
      case _ => StepFrame(s, op);
    }
  }

  lemma HoldersKeepLog(s: FabricState, op: FabricOp)
    requires op.CreateOp? || op.BindOp? || op.ReadyOp? || op.JoinOp? || op.DownOp?
    ensures Apply(s, op).invalidationLog == s.invalidationLog
  {
    hide CheckFence, AuthorityDown, AttemptsDown, ResidenciesDown, AuthorityRestarted, AttemptsRestarted,
         ResidenciesRestarted;
  }

  /** The log gains one record for an invalidation, and is left alone by everything else. */
  lemma LogAfterStep(s: FabricState, op: FabricOp)
    ensures Apply(s, op).invalidationLog == LogAfter(s, op)
  {
    hide RegisterAdapter, PublishComposition, CreateInstance, BindAuthority, Evict, Pin, Unpin, MarkLoaded,
         MarkReady, Join, OnWorkerDown, AdvanceEpoch;
    if op.CreateOp? || op.BindOp? || op.ReadyOp? || op.JoinOp? || op.DownOp? {
      HoldersKeepLog(s, op);
    } else if !op.InvalidateOp? {
      LogStays(s, op);
    }
  }

  // ---- who loses authority ----

  /** The step takes the authority of the record: its process is lost, it is invalidated, or it is created anew. */
  predicate Takes(s: FabricState, op: FabricOp, a: Uuid)
    requires a in s.authority
  {
    || Loses(op, s.authority[a].fence.worker, s.authority[a].fence.boot)
    || (op.InvalidateOp? && op.adapter == a) || (op.CreateOp? && op.adapter == a)
  }

  predicate HasAuthority(s: FabricState, a: Uuid) { a in s.authority && s.authority[a].hasAuthority }

  /**
   A record with authority loses it in a step exactly when the step takes it. Otherwise its fence stays, and stays
   the exclusive one, unless a fence for that very adapter is bound.
   */
  lemma AuthorityIsLostExactly(s: FabricState, op: FabricOp, a: Uuid)
    requires AuthoritySafe(s) && HasAuthority(s, a)
    ensures var t := Apply(s, op);
      && (!HasAuthority(t, a) <==> Takes(s, op, a))
      && (!Takes(s, op, a) && !BindsTo(s, op, a) ==>
            t.authority[a].fence == s.authority[a].fence && t.activeFence == Some(s.authority[a].fence))
  {
    hide Apply, Granted, CheckFence;
    assert RecordSafe(s, a);
    HoldingsAfterStep(s, op, a);
    if op.BindOp? && op.fence.adapter != a {
      ExclusiveToAnother(s, op.fence, a);
    }
  }

  lemma ExclusiveToAnother(s: FabricState, f: AuthorityFence, a: Uuid)
    requires s.activeFence.Some? && s.activeFence.value.adapter == a != f.adapter
    ensures !Granted(s, f)
  {
  }

  /** A record gains authority in a step exactly when a fence for it is granted. */
  lemma AuthorityIsGainedExactly(s: FabricState, op: FabricOp, a: Uuid)
    requires !HasAuthority(s, a)
    ensures HasAuthority(Apply(s, op), a) <==> BindsTo(s, op, a)
  {
    hide Apply, Current;
    HoldingsAfterStep(s, op, a);
  }

  /**
   A worker that goes down or joins again touches only what names it: every other worker's registration, records,
   attempts and residencies stay, and of its own records' attempts only those of a lost process are dropped.
   */
  lemma OtherWorkersAreLeftAlone(s: FabricState, op: FabricOp, u: Uuid)
    requires op.DownOp? || op.JoinOp?
    ensures var t := Apply(s, op);
      && t.adapters == s.adapters && t.compositions == s.compositions && t.epoch == s.epoch
      && (u != op.worker ==> Lookup(t.workers, u) == Lookup(s.workers, u))
      && (u !in s.authority ==> u !in t.authority && Lookup(t.currentAttempt, u) == Lookup(s.currentAttempt, u))
      && (u in s.authority && s.authority[u].fence.worker != op.worker ==>
            && Lookup(t.authority, u) == Some(s.authority[u])
            && Lookup(t.currentAttempt, u) == Lookup(s.currentAttempt, u))
      && (u in s.authority && Loses(op, s.authority[u].fence.worker, s.authority[u].fence.boot) ==>
            u in t.authority && !t.authority[u].hasAuthority && u !in t.currentAttempt)
      && (u in s.residencies && s.residencies[u].worker != op.worker ==>
            Lookup(t.residencies, u) == Some(s.residencies[u]))
      && (s.activeFence.Some? && s.activeFence.value.worker != op.worker ==> t.activeFence == s.activeFence)
  {
    hide Apply, Granted;
    HoldingsAfterStep(s, op, u);
    ResidencyAfterStep(s, op, u);
    RegistriesAfterStep(s, op, u);
    WorkersKeepRegistries(s, op);
  }

  lemma WorkersKeepRegistries(s: FabricState, op: FabricOp)
    requires op.DownOp? || op.JoinOp?
    ensures Apply(s, op).adapters == s.adapters && Apply(s, op).compositions == s.compositions
  {
    hide AuthorityDown, AttemptsDown, ResidenciesDown, AuthorityRestarted, AttemptsRestarted, ResidenciesRestarted;
  }

  // ---- results of the operations ----

  /**
   A registration succeeds exactly on a registrable descriptor. What it returns is what it files, numbered by the
   counter; every other adapter stays, and a refusal changes nothing. Missing identities are reported first.
   */
  lemma RegisteredExactly(s: FabricState, d: AdapterDescriptor)
    ensures var (t, res) := RegisterAdapter(s, d);
      && (res.Ok? <==> Registrable(d))
      && (res.Ok? ==>
            && res.value == d.(generation := s.nextAdapterGen) && Lookup(t.adapters, d.id) == Some(res.value)
            && t.nextAdapterGen == OneMore(s.nextAdapterGen))
      && (forall a :: a != d.id ==> Lookup(t.adapters, a) == Lookup(s.adapters, a))
      && t.(adapters := s.adapters, nextAdapterGen := s.nextAdapterGen) == s
      && (res.Err? ==> t == s)
      && (res.Err? ==> res.code == if NIL in {d.id, d.baseModel, d.baseModelRevision} then InvalidIdentity
                                   else InvalidArgument)
  {
  }

  /** An eviction succeeds exactly on a resident, evictable instance, removes that one, and otherwise says why not. */
  lemma EvictedExactly(s: FabricState, i: Uuid)
    ensures var (t, outcome) := Evict(s, i);
      && (outcome == EvictedNow <==> i in s.residencies && Evictable(s.residencies[i]))
      && (outcome == NoSuchInstance <==> i !in s.residencies)
      && (outcome == ActiveReferences <==> i in s.residencies && s.residencies[i].activeRefs > 0)
      && (outcome != EvictedNow ==> t == s)
  {
  }

  /** Pinning and unpinning succeed exactly on a resident instance; a refusal changes nothing. */
  lemma PinnedExactly(s: FabricState, i: Uuid)
    ensures Pin(s, i).1 == (if i in s.residencies then Ok(()) else Err(NotFound))
    ensures Unpin(s, i).1 == (if i in s.residencies then Ok(()) else Err(NotFound))
    ensures i !in s.residencies ==> Pin(s, i).0 == s && Unpin(s, i).0 == s
  {
  }

  /** An instance is created exactly for a registered adapter, under the identity generated for it. */
  lemma CreatedExactly(
      s: FabricState, adapter: Uuid, worker: Uuid, boot: Uuid, device: Uuid, bytes: u64, inst: Uuid)
    ensures var (t, res) := CreateInstance(s, adapter, worker, boot, device, bytes, inst);
      res == (if adapter in s.adapters then Ok(inst) else Err(NotFound)) && (res.Err? ==> t == s)
  {
  }

  /** The record an invalidation returns is the one it logs. */
  lemma InvalidatedExactly(s: FabricState, a: Uuid, trigger: byte, reason: Bytes)
    ensures var (t, rec) := Invalidate(s, a, trigger, reason);
      t.invalidationLog == s.invalidationLog + [rec]
  {
  }

  // ---- what a run has made of the registries ----

  /** The descriptor the last registration of `a` was for. */
  function LastRegistered(ops: seq<FabricOp>, a: Uuid): Option<AdapterDescriptor> {
    if ops == [] then None
    else if Registers(ops[|ops| - 1], a) then Some(ops[|ops| - 1].d)
    else LastRegistered(ops[..|ops| - 1], a)
  }

  /** How many registrations have succeeded. */
  function Registrations(ops: seq<FabricOp>): nat {
    if ops == [] then 0
    else
      var op := ops[|ops| - 1];
      Registrations(ops[..|ops| - 1]) + if op.AdapterOp? && Registrable(op.d) then 1 else 0
  }

  /** How many had succeeded once `a` was last registered. */
  function LastNumber(ops: seq<FabricOp>, a: Uuid): nat {
    if ops == [] then 0
    else if Registers(ops[|ops| - 1], a) then Registrations(ops)
    else LastNumber(ops[..|ops| - 1], a)
  }

  function Saturated(n: nat): u64 { if n >= U64_MAX then U64_MAX else n }

  /**
   In every run an adapter is registered exactly when some registrable operation was for it; its descriptor is the
   last such one, numbered by how many registrations had succeeded by then, up to saturation.
   */
  lemma {:induction false} AdaptersAreTheLastRegistered(ops: seq<FabricOp>, a: Uuid)
    ensures var s := Run(FRESH, ops);
      && s.nextAdapterGen == Saturated(Registrations(ops) + 1)
      && Lookup(s.adapters, a) == match LastRegistered(ops, a)
                                  case None => None
                                  case Some(d) => Some(d.(generation := Saturated(LastNumber(ops, a))))
  {
    hide Apply, Registrable;
    if ops != [] {
      AdaptersAreTheLastRegistered(ops[..|ops| - 1], a);
      RegistriesAfterStep(Run(FRESH, ops[..|ops| - 1]), ops[|ops| - 1], a);
    }
  }

  lemma {:induction false} LastRegisteredExactly(ops: seq<FabricOp>, a: Uuid)
    ensures LastRegistered(ops, a).Some? <==> exists k :: 0 <= k < |ops| && Registers(ops[k], a)
  {
    if ops != [] {
      var n := |ops| - 1;
      LastRegisteredExactly(ops[..n], a);
      if k :| 0 <= k < |ops| && Registers(ops[k], a) {
        assert k < n ==> ops[..n][k] == ops[k];
      }
    }
  }

  function Epochs(ops: seq<FabricOp>): nat {
    if ops == [] then 0 else Epochs(ops[..|ops| - 1]) + if ops[|ops| - 1].EpochOp? then 1 else 0
  }

  /** The registration the last join of `w` made, and whether the worker has gone down since. */
  function LastJoined(ops: seq<FabricOp>, w: Uuid): Option<WorkerRecord> {
    if ops == [] then None
    else
      var op, before := ops[|ops| - 1], ops[..|ops| - 1];
      if op.JoinOp? && op.worker == w then
        Some(WorkerRecord(w, op.boot, op.address, op.node, NIL, true, Saturated(Epochs(before)), [], 0, []))
      else if op == DownOp(w) then Disconnected(LastJoined(before, w))
      else LastJoined(before, w)
  }

  function Disconnected(w: Option<WorkerRecord>): Option<WorkerRecord> {
    if w.Some? then Some(w.value.(connected := false)) else None
  }

  /** In every run the epoch counts the advances, and a worker's record is its last join, until it goes down. */
  lemma {:induction false} WorkersAreTheLastJoined(ops: seq<FabricOp>, w: Uuid)
    ensures var s := Run(FRESH, ops);
      s.epoch == Saturated(Epochs(ops)) && Lookup(s.workers, w) == LastJoined(ops, w)
  {
    hide Apply;
    if ops != [] {
      WorkersAreTheLastJoined(ops[..|ops| - 1], w);
      RegistriesAfterStep(Run(FRESH, ops[..|ops| - 1]), ops[|ops| - 1], w);
    }
  }

  // ---- what a run has made of attempts and fences ----

  predicate AttemptIsSet(s: FabricState, a: Uuid) { a in s.currentAttempt ==> s.currentAttempt[a] != NIL }

  /** In every run every recorded attempt is a real one: a fence without an attempt is never bound. */
  lemma {:induction false} RecordedAttemptsAreSet(ops: seq<FabricOp>, a: Uuid)
    ensures AttemptIsSet(Run(FRESH, ops), a)
  {
    hide Apply;
    if ops != [] {
      RecordedAttemptsAreSet(ops[..|ops| - 1], a);
      HoldingsAfterStep(Run(FRESH, ops[..|ops| - 1]), ops[|ops| - 1], a);
    }
  }

  /** In every run the fence of a record with authority is complete, and was granted by a bind of the run. */
  lemma {:induction false} AuthorityWasGranted(ops: seq<FabricOp>, a: Uuid)
    requires HasAuthority(Run(FRESH, ops), a)
    ensures var f := Run(FRESH, ops).authority[a].fence;
      Complete(f) && f.adapter == a
      && exists k :: 0 <= k < |ops| && GrantedAt(ops, k, f)
  {
    hide Apply, Current;
    if ops != [] {
      var n := |ops| - 1;
      var s, op := Run(FRESH, ops[..n]), ops[n];
      HoldingsAfterStep(s, op, a);
      if BindsTo(s, op, a) {
        GrantedIsComplete(s, op.fence);
        assert GrantedAt(ops, n, op.fence);
      } else {
        AuthorityWasGranted(ops[..n], a);
        var k :| 0 <= k < n && GrantedAt(ops[..n], k, s.authority[a].fence);
        assert ops[..n][..k] == ops[..k];
        assert GrantedAt(ops, k, s.authority[a].fence);
      }
    }
  }

  predicate GrantedAt(ops: seq<FabricOp>, k: nat, f: AuthorityFence)
    requires k < |ops|
  {
    ops[k] == BindOp(f) && Granted(Run(FRESH, ops[..k]), f)
  }

  lemma GrantedIsComplete(s: FabricState, f: AuthorityFence)
    requires Granted(s, f)
    ensures Complete(f)
  {
  }

  // ---- compositions ----

  /** The first adapter that cannot be added is one that is not registered. */
  ghost predicate MissingComesFirst(s: FabricState, ids: seq<Uuid>, base: Uuid, rev: Uuid) {
    exists k: nat :: MissingAt(s, ids, k, base, rev)
  }

  predicate MissingAt(s: FabricState, ids: seq<Uuid>, k: nat, base: Uuid, rev: Uuid) {
    && k < |ids| && ids[k] !in s.adapters && AllRegistered(s, ids[..k])
    && Admitted(Picked(s, ids[..k]), base, rev)
  }

  lemma PrefixesRegistered(s: FabricState, ids: seq<Uuid>, k: nat, m: nat)
    requires k <= m <= |ids| && AllRegistered(s, ids[..m])
    ensures AllRegistered(s, ids[..k]) && Picked(s, ids[..k]) == Picked(s, ids[..m])[..k]
  {
    assert forall i :: 0 <= i < k ==> ids[..k][i] == ids[..m][i];
  }

  lemma {:induction false} AddingMissesExactly(s: FabricState, ids: seq<Uuid>, k: nat, base: Uuid, rev: Uuid)
    requires k <= |ids| && AllRegistered(s, ids[..k]) && Admitted(Picked(s, ids[..k]), base, rev)
    ensures AddAll(s, ids, k, base, rev, Picked(s, ids[..k])) == Err(NotFound) <==> MissingComesFirst(s, ids, base, rev)
    decreases |ids| - k
  {
    hide Admitted;
    if MissingComesFirst(s, ids, base, rev) {
      var m: nat :| MissingAt(s, ids, m, base, rev);
      MissingIsNotBefore(s, ids, k, m);
    }
    if k < |ids| && ids[k] !in s.adapters {
      assert MissingAt(s, ids, k, base, rev);
    } else if k < |ids| {
      var more := Picked(s, ids[..k]) + [s.adapters[ids[k]]];
      OneMorePicked(s, ids, k);
      if Admitted(more, base, rev) {
        AddingMissesExactly(s, ids, k + 1, base, rev);
      } else if MissingComesFirst(s, ids, base, rev) {
        var m: nat :| MissingAt(s, ids, m, base, rev);
        MissingIsNotBefore(s, ids, k, m);
        PrefixesRegistered(s, ids, k + 1, m);
        AdmittedPrefix(Picked(s, ids[..m]), k + 1, base, rev);
        assert false;
      }
    }
  }

  lemma MissingIsNotBefore(s: FabricState, ids: seq<Uuid>, k: nat, m: nat)
    requires k <= |ids| && m < |ids| && AllRegistered(s, ids[..k]) && ids[m] !in s.adapters
    ensures k <= m
  {
    assert forall i :: 0 <= i < k ==> ids[..k][i] == ids[i];
  }

  lemma OneMorePicked(s: FabricState, ids: seq<Uuid>, k: nat)
    requires k < |ids| && AllRegistered(s, ids[..k]) && ids[k] in s.adapters
    ensures AllRegistered(s, ids[..k + 1])
    ensures Picked(s, ids[..k + 1]) == Picked(s, ids[..k]) + [s.adapters[ids[k]]]
  {
    assert ids[..k + 1] == ids[..k] + [ids[k]];
  }

  /** Publishing reports not_found exactly when the first adapter that stops it is not registered. */
  lemma PublishMissesExactly(s: FabricState, ids: seq<Uuid>, policy: Bytes, newId: Uuid)
    ensures PublishComposition(s, ids, policy, newId).1 == Err(NotFound) <==>
            && ids != []
            && (ids[0] in s.adapters ==>
                  MissingComesFirst(s, ids, s.adapters[ids[0]].baseModel, s.adapters[ids[0]].baseModelRevision))
  {
    hide Admitted, AllRegistered, TargetsDistinct, Compose, MissingComesFirst;
    if ids != [] && ids[0] in s.adapters {
      var first := s.adapters[ids[0]];
      NoneIsRegistered(s, ids);
      NothingAdmitted(first.baseModel, first.baseModelRevision);
      AddingMissesExactly(s, ids, 0, first.baseModel, first.baseModelRevision);
    }
  }

  lemma NoneIsRegistered(s: FabricState, ids: seq<Uuid>)
    ensures AllRegistered(s, ids[..0]) && Picked(s, ids[..0]) == []
  {
  }

  predicate Publishes(s: FabricState, op: FabricOp) { op.ComposeOp? && Composable(s, op.ids) }

  function CompositionAfter(s: FabricState, op: FabricOp, c: Uuid): Option<Composition> {
    if Publishes(s, op) && op.newId == c then
      Some(Compose(c, s.nextCompositionGen, s.adapters[op.ids[0]].baseModel, s.adapters[op.ids[0]].baseModelRevision,
                   op.policy, MapSeq(MemberOf, Picked(s, op.ids))))
    else Lookup(s.compositions, c)
  }

  /** Compositions and their counter change exactly when a composable list is published. */
  lemma CompositionsAfterStep(s: FabricState, op: FabricOp, c: Uuid)
    requires RegistrySafe(s)
    ensures Lookup(Apply(s, op).compositions, c) == CompositionAfter(s, op, c)
    ensures Apply(s, op).nextCompositionGen ==
            if Publishes(s, op) then OneMore(s.nextCompositionGen) else s.nextCompositionGen
  {
    hide RegisterAdapter, PublishComposition, CreateInstance, BindAuthority, Invalidate, Evict, Pin, Unpin, MarkLoaded,
         MarkReady, Join, OnWorkerDown, RegistrySafe, Composable, Compose;
    match op {
      case ComposeOp(ids, policy, newId) => PublishExactly(s, ids, policy, newId);
      case AdapterOp(d) => RegisterKeepsCompositions(s, d);
      case JoinOp(_, _, _, _) => WorkersKeepCompositions(s, op);
      case DownOp(_) => WorkersKeepCompositions(s, op);
      case _ => StepFrame(s, op);
    }
  }

  lemma RegisterKeepsCompositions(s: FabricState, d: AdapterDescriptor)
    ensures RegisterAdapter(s, d).0.compositions == s.compositions
    ensures RegisterAdapter(s, d).0.nextCompositionGen == s.nextCompositionGen
  {
  }

  lemma WorkersKeepCompositions(s: FabricState, op: FabricOp)
    requires op.DownOp? || op.JoinOp?
    ensures Apply(s, op).compositions == s.compositions && Apply(s, op).nextCompositionGen == s.nextCompositionGen
  {
    hide AuthorityDown, AttemptsDown, ResidenciesDown, AuthorityRestarted, AttemptsRestarted, ResidenciesRestarted;
  }
}
