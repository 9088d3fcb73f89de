/** The canonical registry and authority decision point (src/fabric.cpp), as state functions and as a class. */
module Fabrics {
  import opened Basics
  import opened Records
  import opened Authorities
  import opened Compositions
  import opened Capacity
  import Generations

  datatype Lifecycle =
    | Declared | Validating | Valid | Loading | Loaded | Ready | Active | Deactivating | Migrating | Stale
    | Invalidated | Evicting | Evicted | Failed | Retired

  datatype MigrationState =
    | NoMigration | TargetReserved | Transferring | Verifying | DestReady | InMigration | SourceRetiring
    | SourceReleased

  datatype AuthorityRecord = AuthorityRecord(
    adapter: Uuid, instance: Uuid, lifecycle: Lifecycle, residencyGeneration: u64, fence: AuthorityFence,
    hasAuthority: bool, active: bool)

  datatype ResidencyRecord = ResidencyRecord(
    instance: Uuid, adapterId: Uuid, adapterGeneration: u64, residencyGeneration: u64, location: Location,
    bytes: u64, worker: Uuid, boot: Uuid, epoch: u64, device: Uuid, ready: bool,
    activeRefs: u32, pinCount: u32, protected: bool, migration: MigrationState)

  datatype InvalidationRecord = InvalidationRecord(
    trigger: byte, adapter: Uuid, reason: Bytes, epoch: u64, priorGeneration: u64)

  datatype EvictOutcome = NoSuchInstance | ActiveReferences | ProtectedOrPinned | EvictedNow

  datatype FabricState = FabricState(
    epoch: u64, nextAdapterGen: u64, nextCompositionGen: u64,
    adapters: map<Uuid, AdapterDescriptor>, compositions: map<Uuid, Composition>, workers: map<Uuid, WorkerRecord>,
    authority: map<Uuid, AuthorityRecord>, residencies: map<Uuid, ResidencyRecord>,
    invalidationLog: seq<InvalidationRecord>, activeFence: Option<AuthorityFence>, currentAttempt: map<Uuid, Uuid>)

  const FRESH: FabricState := FabricState(0, 1, 1, map[], map[], map[], map[], map[], [], None, map[])

  function AdvanceEpoch(s: FabricState): FabricState {
    s.(epoch := Generations.Next(s.epoch))
  }

  function RegisterAdapter(s: FabricState, d: AdapterDescriptor): (FabricState, Result<AdapterDescriptor>) {
    if d.id == NIL then (s, Err(InvalidIdentity))
    else if d.baseModel == NIL then (s, Err(InvalidIdentity))
    else if d.baseModelRevision == NIL then (s, Err(InvalidIdentity))
    else if d.artifactDigest == [] then (s, Err(InvalidArgument))
    else if d.memoryBytes == 0 then (s, Err(InvalidArgument))
    else
      var e := d.(generation := s.nextAdapterGen);
      (s.(nextAdapterGen := Generations.Next(s.nextAdapterGen), adapters := s.adapters[d.id := e]), Ok(e))
  }

  /** The descriptors added one by one, from `ids[k]` on. */
  function AddAll(s: FabricState, ids: seq<Uuid>, k: nat, base: Uuid, rev: Uuid, ds: seq<AdapterDescriptor>)
    : Result<seq<AdapterDescriptor>>
    requires k <= |ids|
    decreases |ids| - k
  {
    if k == |ids| then Ok(ds)
    else if ids[k] !in s.adapters then Err(NotFound)
    else
      var more := ds + [s.adapters[ids[k]]];
      if !Admitted(more, base, rev) then Err(InvalidComposition) else AddAll(s, ids, k + 1, base, rev, more)
  }

  function PublishComposition(s: FabricState, ids: seq<Uuid>, policy: Bytes, newId: Uuid)
    : (FabricState, Result<Composition>)
  {
    if ids == [] then (s, Err(InvalidComposition))
    else if ids[0] !in s.adapters then (s, Err(NotFound))
    else
      var first := s.adapters[ids[0]];
      match AddAll(s, ids, 0, first.baseModel, first.baseModelRevision, [])
      case Err(e) => (s, Err(e))
      case Ok(ds) =>
        if !TargetsDistinct(ds) then (s, Err(InvalidComposition))
        else
          var c := Compose(newId, s.nextCompositionGen, first.baseModel, first.baseModelRevision, policy,
                           MapSeq(MemberOf, ds));
          (s.(compositions := s.compositions[newId := c],
              nextCompositionGen := Generations.Next(s.nextCompositionGen)), Ok(c))
  }

  function RegisterWorker(s: FabricState, rec: WorkerRecord): FabricState {
    s.(workers := s.workers[rec.id := rec])
  }

  /** The residency and the authority record of a new instance; `inst` stands for its generated identity. */
  function CreateInstance(
      s: FabricState, adapter: Uuid, worker: Uuid, boot: Uuid, device: Uuid, bytes: u64, inst: Uuid)
    : (FabricState, Result<Uuid>)
  {
    if adapter !in s.adapters then (s, Err(NotFound))
    else
      var d := s.adapters[adapter];
      var rec := ResidencyRecord(inst, adapter, d.generation, 1, DeviceMemory, bytes, worker, boot, s.epoch, device,
                                 false, 0, 0, false, NoMigration);
      var fence := AuthorityFence(adapter, NIL, d.generation, 1, 1, 1, d.baseModelRevision, s.epoch,
                                  worker, boot, NIL, device, NIL);
      var ar := AuthorityRecord(adapter, inst, Loading, 1, fence, false, false);
      (s.(residencies := s.residencies[inst := rec], authority := s.authority[adapter := ar]), Ok(inst))
  }

  function CheckFence(s: FabricState, f: AuthorityFence): Verdict {
    if f.adapter !in s.adapters || f.adapter == NIL then Unknown
    else
      var d := s.adapters[f.adapter];
      if f.epoch != s.epoch then StaleEpoch
      else if f.adapterGeneration != d.generation then StaleAdapterGeneration
      else if f.baseModelRevision != d.baseModelRevision then StaleBaseModel
      else if f.worker !in s.workers then StaleWorker
      else
        var w := s.workers[f.worker];
        if !w.connected then StaleWorker
        else if f.worker == NIL || f.boot == NIL || f.attempt == NIL then Unknown
        else if f.boot != w.boot then StaleBoot
        else if f.adapter in s.currentAttempt && s.currentAttempt[f.adapter] != f.attempt then StaleAttempt
        else
          var known := f.adapter in s.authority;
          var rgen := if known then s.authority[f.adapter].fence.residencyGeneration else 1;
          var cgen := if known then s.authority[f.adapter].fence.compositionGeneration else 1;
          var agen := if known then s.authority[f.adapter].fence.artifactGeneration else 1;
          if f.residencyGeneration != rgen then StaleResidencyGeneration
          else if f.compositionGeneration != cgen then StaleCompositionGeneration
          else if f.artifactGeneration != agen then StaleArtifactGeneration
          else Authorized
  }

  function BindAuthority(s: FabricState, id: Uuid, f: AuthorityFence): (FabricState, Result<Verdict>) {
    if CheckFence(s, f) != Authorized then (s, Ok(CheckFence(s, f)))
    else if s.activeFence.Some? && s.activeFence.value.adapter != id then (s, Err(AuthorityConflict))
    else if id !in s.authority then (s, Err(NotFound))
    else
      var ar := s.authority[id].(fence := f, hasAuthority := true, active := true, lifecycle := Active);
      (s.(authority := s.authority[id := ar], currentAttempt := s.currentAttempt[id := f.attempt],
          activeFence := Some(f)), Ok(Authorized))
  }

  function ReuseSafe(s: FabricState, f: AuthorityFence): Verdict {
    if CheckFence(s, f) != Authorized then CheckFence(s, f)
    else if f.adapter !in s.authority || !s.authority[f.adapter].hasAuthority then Unknown
    else
      var inst := s.authority[f.adapter].instance;
      if inst in s.residencies && s.residencies[inst].ready then Authorized else Unknown
  }

  function Cleared(ar: AuthorityRecord): AuthorityRecord {
    ar.(active := false, hasAuthority := false, lifecycle := Invalidated)
  }

  function Invalidate(s: FabricState, id: Uuid, trigger: byte, reason: Bytes): (FabricState, InvalidationRecord) {
    var rec := InvalidationRecord(trigger, id, reason, s.epoch,
                                  if id in s.adapters then s.adapters[id].generation else 0);
    var t := s.(invalidationLog := s.invalidationLog + [rec],
                authority := if id in s.authority then s.authority[id := Cleared(s.authority[id])] else s.authority,
                activeFence := if s.activeFence.Some? && s.activeFence.value.adapter == id then None
                               else s.activeFence);
    (t, rec)
  }

  function Evict(s: FabricState, inst: Uuid): (FabricState, EvictOutcome) {
    if inst !in s.residencies then (s, NoSuchInstance)
    else
      var r := s.residencies[inst];
      if r.activeRefs > 0 then (s, ActiveReferences)
      else if r.pinCount > 0 || r.protected then (s, ProtectedOrPinned)
      else (s.(residencies := s.residencies - {inst}), EvictedNow)
  }

  function Pin(s: FabricState, inst: Uuid): (FabricState, Result<()>) {
    if inst !in s.residencies then (s, Err(NotFound))
    else
      var r := s.residencies[inst];
      var pinned := r.(pinCount := (r.pinCount + 1) % TWO_TO_THE_32, protected := true);
      (s.(residencies := s.residencies[inst := pinned]), Ok(()))
  }

  function Unpin(s: FabricState, inst: Uuid): (FabricState, Result<()>) {
    if inst !in s.residencies then (s, Err(NotFound))
    else
      var r := s.residencies[inst];
      var left := if r.pinCount > 0 then r.pinCount - 1 else 0;
      var unpinned := r.(pinCount := left, protected := r.protected && left > 0);
      (s.(residencies := s.residencies[inst := unpinned]), Ok(()))
  }

  function Downed(ar: AuthorityRecord, worker: Uuid): AuthorityRecord {
    if ar.fence.worker == worker then Cleared(ar) else ar
  }

  function Offline(r: ResidencyRecord, worker: Uuid): ResidencyRecord {
    if r.worker == worker then r.(ready := false) else r
  }

  function Restarted(r: ResidencyRecord, worker: Uuid, boot: Uuid): ResidencyRecord {
    if r.worker == worker && r.boot != boot then r.(ready := false, migration := NoMigration) else r
  }

  function AuthorityDown(authority: map<Uuid, AuthorityRecord>, id: Uuid): map<Uuid, AuthorityRecord> {
    map a | a in authority :: Downed(authority[a], id)
  }

  function AttemptsDown(authority: map<Uuid, AuthorityRecord>, attempts: map<Uuid, Uuid>, id: Uuid): map<Uuid, Uuid> {
    map a | a in attempts && !(a in authority && authority[a].fence.worker == id) :: attempts[a]
  }

  function ResidenciesDown(residencies: map<Uuid, ResidencyRecord>, id: Uuid): map<Uuid, ResidencyRecord> {
    map i | i in residencies :: Offline(residencies[i], id)
  }

  function OnWorkerDown(s: FabricState, id: Uuid): FabricState {
    s.(authority := AuthorityDown(s.authority, id), currentAttempt := AttemptsDown(s.authority, s.currentAttempt, id),
       residencies := ResidenciesDown(s.residencies, id),
       workers := if id in s.workers then s.workers[id := s.workers[id].(connected := false)] else s.workers,
       activeFence := if s.activeFence.Some? && s.activeFence.value.worker == id then None else s.activeFence)
  }

  predicate Outdated(f: AuthorityFence, worker: Uuid, boot: Uuid) {
    f.worker == worker && f.boot != boot
  }

  function Revised(ar: AuthorityRecord, worker: Uuid, boot: Uuid): AuthorityRecord {
    if Outdated(ar.fence, worker, boot) then Cleared(ar) else ar
  }

  function AuthorityRestarted(authority: map<Uuid, AuthorityRecord>, id: Uuid, boot: Uuid)
    : map<Uuid, AuthorityRecord>
  {
    map a | a in authority :: Revised(authority[a], id, boot)
  }

  function AttemptsRestarted(
      authority: map<Uuid, AuthorityRecord>, attempts: map<Uuid, Uuid>, id: Uuid, boot: Uuid): map<Uuid, Uuid>
  {
    map a | a in attempts && !(a in authority && Outdated(authority[a].fence, id, boot)) :: attempts[a]
  }

  function ResidenciesRestarted(residencies: map<Uuid, ResidencyRecord>, id: Uuid, boot: Uuid)
    : map<Uuid, ResidencyRecord>
  {
    map i | i in residencies :: Restarted(residencies[i], id, boot)
  }

  function OnWorkerRestart(s: FabricState, id: Uuid, boot: Uuid): FabricState {
    s.(authority := AuthorityRestarted(s.authority, id, boot),
       currentAttempt := AttemptsRestarted(s.authority, s.currentAttempt, id, boot),
       residencies := ResidenciesRestarted(s.residencies, id, boot),
       activeFence := if s.activeFence.Some? && Outdated(s.activeFence.value, id, boot) then None else s.activeFence)
  }

  /** What the coordinator does to a residency when a load is acknowledged. */
  function MarkLoaded(s: FabricState, inst: Uuid, bytes: u64): FabricState {
    if inst in s.residencies
    then s.(residencies := s.residencies[inst := s.residencies[inst].(ready := true, bytes := bytes)])
    else s
  }

  /** What the coordinator does to a record after a load or a deactivation. */
  function MarkReady(s: FabricState, adapter: Uuid): FabricState {
    if adapter in s.authority
    then s.(authority := s.authority[adapter := s.authority[adapter].(lifecycle := Ready)])
    else s
  }

  // ---- snapshots ----

  /** Big-endian value of an identity: the order in which the source's maps list their entries. */
  function Rank(u: Bytes): nat {
    if u == [] then 0 else 256 * Rank(u[..|u| - 1]) + u[|u| - 1]
  }

  predicate Least(u: Uuid, ids: set<Uuid>) {
    u in ids && forall v <- ids :: Rank(u) <= Rank(v)
  }

  lemma {:induction false} RankInjective(u: Bytes, v: Bytes)
    requires |u| == |v| && Rank(u) == Rank(v)
    ensures u == v
  {
    if u != [] {
      RankInjective(u[..|u| - 1], v[..|v| - 1]);
      assert u == u[..|u| - 1] + [u[|u| - 1]] && v == v[..|v| - 1] + [v[|v| - 1]];
    }
  }

  lemma {:induction false} LeastExists(ids: set<Uuid>)
    requires ids != {}
    ensures exists u: Uuid :: Least(u, ids)
    decreases |ids|
  {
    var u: Uuid :| u in ids;
    if ids == {u} {
      assert Least(u, ids);
    } else {
      var rest := ids - {u};
      assert rest != {};
      LeastExists(rest);
      var v: Uuid :| Least(v, rest);
      if Rank(u) <= Rank(v) {
        assert Least(u, ids);
      } else {
        assert Least(v, ids);
      }
    }
  }

  ghost function First(ids: set<Uuid>): (u: Uuid)
    requires ids != {}
    ensures Least(u, ids)
  {
    LeastExists(ids);
    var u: Uuid :| Least(u, ids);
    u
  }

  /** The entries of a registry in key order. */
  ghost function Listing<T>(m: map<Uuid, T>): seq<T> {
    if m == map[] then []
    else
      var u := First(m.Keys);
      [m[u]] + Listing(m - {u})
  }

  ghost function Snapshot(s: FabricState): FabricSnapshot {
    FabricSnapshot(s.epoch, s.nextAdapterGen, s.nextCompositionGen,
                   Listing(s.adapters), Listing(s.compositions), Listing(s.workers))
  }

  /** A registry rebuilt from a list; later entries overwrite earlier ones. */
  function Registry<T>(xs: seq<T>, key: T -> Uuid): map<Uuid, T> {
    if xs == [] then map[] else Registry(xs[..|xs| - 1], key)[key(xs[|xs| - 1]) := xs[|xs| - 1]]
  }

  function AdapterKey(d: AdapterDescriptor): Uuid { d.id }
  function CompositionKey(c: Composition): Uuid { c.id }
  function WorkerKey(w: WorkerRecord): Uuid { w.id }

  /** Recovery replaces the registries and the generations, and nothing else. */
  function Recover(s: FabricState, snap: FabricSnapshot): FabricState {
    s.(epoch := snap.epoch, nextAdapterGen := snap.nextAdapterGeneration,
       nextCompositionGen := snap.nextCompositionGeneration,
       adapters := Registry(snap.adapters, AdapterKey),
       compositions := Registry(snap.compositions, CompositionKey),
       workers := Registry(snap.workers, WorkerKey))
  }

  lemma FirstIsUnique(ids: set<Uuid>, u: Uuid)
    requires Least(u, ids)
    ensures ids != {} && First(ids) == u
  {
    RankInjective(First(ids), u);
  }

  class Fabric {
    var epoch: u64
    var nextAdapterGen: u64
    var nextCompositionGen: u64
    var adapters: map<Uuid, AdapterDescriptor>
    var compositions: map<Uuid, Composition>
    var workers: map<Uuid, WorkerRecord>
    var authority: map<Uuid, AuthorityRecord>
    var residencies: map<Uuid, ResidencyRecord>
    var invalidationLog: seq<InvalidationRecord>
    var activeFence: Option<AuthorityFence>
    var currentAttempt: map<Uuid, Uuid>

    function View(): FabricState
      reads this
    {
      FabricState(epoch, nextAdapterGen, nextCompositionGen, adapters, compositions, workers, authority, residencies,
                  invalidationLog, activeFence, currentAttempt)
    }

    constructor ()
      ensures View() == FRESH
    {
      epoch, nextAdapterGen, nextCompositionGen := 0, 1, 1;
      adapters, compositions, workers := map[], map[], map[];
      authority, residencies, invalidationLog := map[], map[], [];
      activeFence, currentAttempt := None, map[];
    }

    method Advance() returns (e: u64)
      modifies this
      ensures View() == AdvanceEpoch(old(View())) && e == epoch
    {
      epoch := Generations.Next(epoch);
      e := epoch;
    }

    method Register(d: AdapterDescriptor) returns (res: Result<AdapterDescriptor>)
      modifies this
      ensures (View(), res) == RegisterAdapter(old(View()), d)
    {
      if d.id == NIL { return Err(InvalidIdentity); }
      if d.baseModel == NIL { return Err(InvalidIdentity); }
      if d.baseModelRevision == NIL { return Err(InvalidIdentity); }
      if d.artifactDigest == [] { return Err(InvalidArgument); }
      if d.memoryBytes == 0 { return Err(InvalidArgument); }
      var e := d.(generation := nextAdapterGen);
      nextAdapterGen := Generations.Next(nextAdapterGen);
      adapters := adapters[d.id := e];
      res := Ok(e);
    }

    method Publish(ordered: seq<Uuid>, policy: Bytes, newId: Uuid) returns (res: Result<Composition>)
      modifies this
      ensures (View(), res) == PublishComposition(old(View()), ordered, policy, newId)
    {
      hide TargetsDistinct, Admitted;
      if ordered == [] { return Err(InvalidComposition); }
      if ordered[0] !in adapters { return Err(NotFound); }
      var first := adapters[ordered[0]];
      var b := new CompositionBuilder(first.baseModel, first.baseModelRevision, policy, nextCompositionGen);
      ghost var all := AddAll(View(), ordered, 0, b.base, b.rev, []);
      var k := 0;
      while k < |ordered|
        invariant 0 <= k <= |ordered| && b.Valid() && fresh(b) && View() == old(View())
        invariant k > 0 ==> b.descriptors != []
        invariant all == AddAll(View(), ordered, k, b.base, b.rev, b.descriptors)
      {
        if ordered[k] !in adapters { return Err(NotFound); }
        var added := b.Add(adapters[ordered[k]]);
        if added.Err? { return Err(InvalidComposition); }
        k := k + 1;
      }
      var c :- b.Build(newId);
      compositions := compositions[c.id := c];
      nextCompositionGen := Generations.Next(nextCompositionGen);
      res := Ok(c);
    }

    method AddWorker(rec: WorkerRecord)
      modifies this
      ensures View() == RegisterWorker(old(View()), rec)
    {
      workers := workers[rec.id := rec];
    }

    method Create(adapter: Uuid, worker: Uuid, boot: Uuid, device: Uuid, bytes: u64, inst: Uuid)
      returns (res: Result<Uuid>)
      modifies this
      ensures (View(), res) == CreateInstance(old(View()), adapter, worker, boot, device, bytes, inst)
    {
      if adapter !in adapters { return Err(NotFound); }
      var d := adapters[adapter];
      residencies := residencies[inst := ResidencyRecord(
        inst, adapter, d.generation, 1, DeviceMemory, bytes, worker, boot, epoch, device,
        false, 0, 0, false, NoMigration)];
      var fence := AuthorityFence(adapter, NIL, d.generation, 1, 1, 1, d.baseModelRevision, epoch,
                                  worker, boot, NIL, device, NIL);
      authority := authority[adapter := AuthorityRecord(adapter, inst, Loading, 1, fence, false, false)];
      res := Ok(inst);
    }

    method Check(f: AuthorityFence) returns (v: Verdict)
      ensures v == CheckFence(View(), f)
    {
      if f.adapter !in adapters || f.adapter == NIL { return Unknown; }
      var d := adapters[f.adapter];
      if f.epoch != epoch { return StaleEpoch; }
      if f.adapterGeneration != d.generation { return StaleAdapterGeneration; }
      if f.baseModelRevision != d.baseModelRevision { return StaleBaseModel; }
      if f.worker !in workers { return StaleWorker; }
      var w := workers[f.worker];
      if !w.connected { return StaleWorker; }
      if f.worker == NIL || f.boot == NIL || f.attempt == NIL { return Unknown; }
      if f.boot != w.boot { return StaleBoot; }
      if f.adapter in currentAttempt && currentAttempt[f.adapter] != f.attempt { return StaleAttempt; }
      var rgen, cgen, agen := 1, 1, 1;
      if f.adapter in authority {
        var g := authority[f.adapter].fence;
        rgen, cgen, agen := g.residencyGeneration, g.compositionGeneration, g.artifactGeneration;
      }
      if f.residencyGeneration != rgen { return StaleResidencyGeneration; }
      if f.compositionGeneration != cgen { return StaleCompositionGeneration; }
      if f.artifactGeneration != agen { return StaleArtifactGeneration; }
      v := Authorized;
    }

    method Bind(id: Uuid, f: AuthorityFence) returns (res: Result<Verdict>)
      modifies this
      ensures (View(), res) == BindAuthority(old(View()), id, f)
    {
      var check := Check(f);
      if check != Authorized { return Ok(check); }
      if activeFence.Some? && activeFence.value.adapter != id { return Err(AuthorityConflict); }
      if id !in authority { return Err(NotFound); }
      var ar := authority[id].(fence := f, hasAuthority := true, active := true, lifecycle := Active);
      authority := authority[id := ar];
      currentAttempt := currentAttempt[id := f.attempt];
      activeFence := Some(f);
      res := Ok(check);
    }

    method Reuse(f: AuthorityFence) returns (v: Verdict)
      ensures v == ReuseSafe(View(), f)
    {
      var check := Check(f);
      if check != Authorized { return check; }
      if f.adapter !in authority || !authority[f.adapter].hasAuthority { return Unknown; }
      var inst := authority[f.adapter].instance;
      if inst in residencies && residencies[inst].ready { return Authorized; }
      v := Unknown;
    }

    method InvalidateAdapter(id: Uuid, trigger: byte, reason: Bytes) returns (rec: InvalidationRecord)
      modifies this
      ensures (View(), rec) == Invalidate(old(View()), id, trigger, reason)
    {
      rec := InvalidationRecord(trigger, id, reason, epoch, if id in adapters then adapters[id].generation else 0);
      invalidationLog := invalidationLog + [rec];
      if id in authority {
        authority := authority[id := Cleared(authority[id])];
      }
      if activeFence.Some? && activeFence.value.adapter == id { activeFence := None; }
    }

    method EvictInstance(inst: Uuid) returns (outcome: EvictOutcome)
      modifies this
      ensures (View(), outcome) == Evict(old(View()), inst)
    {
      if inst !in residencies { return NoSuchInstance; }
      var r := residencies[inst];
      if r.activeRefs > 0 { return ActiveReferences; }
      if r.pinCount > 0 || r.protected { return ProtectedOrPinned; }
      residencies := residencies - {inst};
      outcome := EvictedNow;
    }

    method PinInstance(inst: Uuid) returns (res: Result<()>)
      modifies this
      ensures (View(), res) == Pin(old(View()), inst)
    {
      if inst !in residencies { return Err(NotFound); }
      var r := residencies[inst];
      residencies := residencies[inst := r.(pinCount := (r.pinCount + 1) % TWO_TO_THE_32, protected := true)];
      res := Ok(());
    }

    method UnpinInstance(inst: Uuid) returns (res: Result<()>)
      modifies this
      ensures (View(), res) == Unpin(old(View()), inst)
    {
      if inst !in residencies { return Err(NotFound); }
      var r := residencies[inst];
      if r.pinCount > 0 { r := r.(pinCount := r.pinCount - 1); }
      if r.pinCount == 0 { r := r.(protected := false); }
      residencies := residencies[inst := r];
      res := Ok(());
    }

    method DropAuthority(id: Uuid)
      modifies `authority, `currentAttempt
      ensures authority == AuthorityDown(old(authority), id)
      ensures currentAttempt == AttemptsDown(old(authority), old(currentAttempt), id)
    {
      hide Cleared;
      var rest := authority.Keys;
      while rest != {}
        invariant rest <= old(authority).Keys == authority.Keys
        invariant forall a <- rest :: authority[a] == old(authority)[a]
        invariant forall a <- authority.Keys - rest :: authority[a] == Downed(old(authority)[a], id)
        invariant forall a :: a in currentAttempt <==>
                    a in old(currentAttempt)
                    && !(a in old(authority) && a !in rest && old(authority)[a].fence.worker == id)
        invariant forall a <- currentAttempt :: currentAttempt[a] == old(currentAttempt)[a]
      {
        var a :| a in rest;
        if authority[a].fence.worker == id {
          authority := authority[a := Cleared(authority[a])];
          currentAttempt := currentAttempt - {a};
        }
        rest := rest - {a};
      }
    }

    method DropResidencies(id: Uuid)
      modifies `residencies
      ensures residencies == ResidenciesDown(old(residencies), id)
    {
      var left := residencies.Keys;
      while left != {}
        invariant left <= old(residencies).Keys == residencies.Keys
        invariant forall i <- left :: residencies[i] == old(residencies)[i]
        invariant forall i <- residencies.Keys - left :: residencies[i] == Offline(old(residencies)[i], id)
      {
        var i :| i in left;
        if residencies[i].worker == id {
          residencies := residencies[i := residencies[i].(ready := false)];
        }
        left := left - {i};
      }
    }

    method WorkerDown(id: Uuid)
      modifies this
      ensures View() == OnWorkerDown(old(View()), id)
    {
      hide AuthorityDown, AttemptsDown, ResidenciesDown;
      DropAuthority(id);
      DropResidencies(id);
      if id in workers {
        workers := workers[id := workers[id].(connected := false)];
      }
      if activeFence.Some? && activeFence.value.worker == id { activeFence := None; }
    }

    method ReviseAuthority(id: Uuid, boot: Uuid)
      modifies `authority, `currentAttempt
      ensures authority == AuthorityRestarted(old(authority), id, boot)
      ensures currentAttempt == AttemptsRestarted(old(authority), old(currentAttempt), id, boot)
    {
      hide Cleared;
      var rest := authority.Keys;
      while rest != {}
        invariant rest <= old(authority).Keys == authority.Keys
        invariant forall a <- rest :: authority[a] == old(authority)[a]
        invariant forall a <- authority.Keys - rest :: authority[a] == Revised(old(authority)[a], id, boot)
        invariant forall a :: a in currentAttempt <==>
                    a in old(currentAttempt)
                    && !(a in old(authority) && a !in rest && Outdated(old(authority)[a].fence, id, boot))
        invariant forall a <- currentAttempt :: currentAttempt[a] == old(currentAttempt)[a]
      {
        var a :| a in rest;
        if Outdated(authority[a].fence, id, boot) {
          authority := authority[a := Cleared(authority[a])];
          currentAttempt := currentAttempt - {a};
        }
        rest := rest - {a};
      }
    }

    method ReviseResidencies(id: Uuid, boot: Uuid)
      modifies `residencies
      ensures residencies == ResidenciesRestarted(old(residencies), id, boot)
    {
      var left := residencies.Keys;
      while left != {}
        invariant left <= old(residencies).Keys == residencies.Keys
        invariant forall i <- left :: residencies[i] == old(residencies)[i]
        invariant forall i <- residencies.Keys - left :: residencies[i] == Restarted(old(residencies)[i], id, boot)
      {
        var i :| i in left;
        if residencies[i].worker == id && residencies[i].boot != boot {
          residencies := residencies[i := residencies[i].(ready := false, migration := NoMigration)];
        }
        left := left - {i};
      }
    }

    method WorkerRestart(id: Uuid, boot: Uuid)
      modifies this
      ensures View() == OnWorkerRestart(old(View()), id, boot)
    {
      hide AuthorityRestarted, AttemptsRestarted, ResidenciesRestarted;
      ReviseAuthority(id, boot);
      ReviseResidencies(id, boot);
      if activeFence.Some? && Outdated(activeFence.value, id, boot) { activeFence := None; }
    }

    method LoadAcknowledged(inst: Uuid, bytes: u64)
      modifies this
      ensures View() == MarkLoaded(old(View()), inst, bytes)
    {
      if inst in residencies {
        residencies := residencies[inst := residencies[inst].(ready := true, bytes := bytes)];
      }
    }

    method SetReady(adapter: Uuid)
      modifies this
      ensures View() == MarkReady(old(View()), adapter)
    {
      if adapter in authority {
        authority := authority[adapter := authority[adapter].(lifecycle := Ready)];
      }
    }

    /** Lists a registry in key order. */
    static method List<T>(m: map<Uuid, T>) returns (xs: seq<T>)
      ensures xs == Listing(m)
    {
      xs := [];
      var rest := m;
      while rest != map[]
        invariant xs + Listing(rest) == Listing(m)
        decreases |rest|
      {
        LeastExists(rest.Keys);
        var u :| u in rest.Keys && forall v <- rest.Keys :: Rank(u) <= Rank(v);
        FirstIsUnique(rest.Keys, u);
        ConcatAssociates(xs, [rest[u]], Listing(rest - {u}));
        xs := xs + [rest[u]];
        rest := rest - {u};
      }
    }

    method TakeSnapshot() returns (snap: FabricSnapshot)
      ensures snap == Snapshot(View())
    {
      var ads := List(adapters);
      var comps := List(compositions);
      var ws := List(workers);
      snap := FabricSnapshot(epoch, nextAdapterGen, nextCompositionGen, ads, comps, ws);
    }

    static method Rebuild<T>(xs: seq<T>, key: T -> Uuid) returns (m: map<Uuid, T>)
      ensures m == Registry(xs, key)
    {
      m := map[];
      var i := 0;
      while i < |xs|
        invariant 0 <= i <= |xs| && m == Registry(xs[..i], key)
      {
        assert xs[..i + 1][..i] == xs[..i];
        m := m[key(xs[i]) := xs[i]];
        i := i + 1;
      }
      assert xs[..i] == xs;
    }

    method RecoverFrom(snap: FabricSnapshot)
      modifies this
      ensures View() == Recover(old(View()), snap)
    {
      hide Registry;
      epoch := snap.epoch;
      nextAdapterGen := snap.nextAdapterGeneration;
      nextCompositionGen := snap.nextCompositionGeneration;
      adapters := Rebuild(snap.adapters, AdapterKey);
      compositions := Rebuild(snap.compositions, CompositionKey);
      workers := Rebuild(snap.workers, WorkerKey);
    }
  }
}
