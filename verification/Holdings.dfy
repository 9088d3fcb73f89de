/** What an instance holds of the device memory, event by event and over whole runs. */
module Holdings {
  import opened Basics
  import opened Records
  import opened Fabrics
  import opened FabricLaws
  import opened Coordinators
  import opened CoordinatorRuns
  import opened Conservation
  import opened Capacity
  import FabricRuns
  import Uuids

  /** The event commits an acknowledged load of the instance. */
  predicate Commits(s: System, e: Event, inst: Uuid) { CommitsLoad(s, e) && s.tasks[e.i].inst == inst }

  /** The event evicts the instance: it is resident, and nothing pins, protects or uses it. */
  predicate EvictsNow(s: System, e: Event, inst: Uuid) {
    && e.Begin? && At(s, e.i, Start) && s.tasks[e.i].cmd == Eviction(inst)
    && Resident(s, inst) && Evictable(s.shared.fabric.residencies[inst])
  }

  function HoldingAfter(s: System, e: Event, inst: Uuid): u64 {
    if Commits(s, e, inst) then
      if s.tasks[e.i].ack.a <= Free(s.shared.cap, DeviceMemory) then s.tasks[e.i].ack.a else 0
    else if EvictsNow(s, e, inst) then 0
    else HeldBy(s, inst)
  }

  // ---- one event ----

  /** Only committing a load and evicting move the books. */
  lemma OthersKeepBooks(s: System, e: Event)
    requires !CommitsLoad(s, e) && !(e.Begin? && At(s, e.i, Start) && s.tasks[e.i].cmd.Eviction?)
    ensures Step(s, e).shared.cap == s.shared.cap
  {
    hide FabricRuns.Join, OnWorkerDown, FabricRuns.Apply, Answers, OneSection, CheckFence, Forwarded, Reachable,
      Evict, Release, BindAuthority, MarkReady, MarkLoaded, Reserve, Invalidate, CreateInstance, Held, AbortAll;
    if Enabled(s, e) && ForConnection(e) {
      ConnectionsKeepRest(s, e);
    }
  }

  lemma CommitHolds(s: System, e: Event, inst: Uuid)
    requires Conserved(s) && CommitsLoad(s, e)
    ensures HeldBy(Step(s, e), inst) == HoldingAfter(s, e, inst)
    ensures Step(s, e).shared.cap.limits == s.shared.cap.limits
    ensures Commits(s, e, inst) ==> HeldBy(s, inst) == 0
  {
    hide Balanced, WithinLimits, OnlyInstancesHold, OnlyHolding, Held, Reserve, Free, Accounted;
    var t, x := Step(s, e), s.tasks[e.i];
    assert LoadOk(s, x);
    CommitReserves(s.shared.cap, x.inst, x.ack.a);
    LimitsStay(s.shared.cap, x.ack.a, Uuids.Text(x.inst));
    if inst != x.inst {
      OneHolder(s, t, x.inst, inst);
    }
  }

  lemma LimitsStay(c: CapState, bytes: u64, owner: Bytes)
    ensures Reserve(c, DeviceMemory, bytes, owner).0.limits == c.limits
    ensures Release(c, DeviceMemory, bytes, owner).0.limits == c.limits
  {
  }

  lemma EvictionHolds(s: System, e: Event, inst: Uuid)
    requires Conserved(s) && e.Begin? && At(s, e.i, Start) && s.tasks[e.i].cmd.Eviction?
    ensures HeldBy(Step(s, e), inst) == HoldingAfter(s, e, inst)
    ensures Step(s, e).shared.cap.limits == s.shared.cap.limits
  {
    hide Balanced, WithinLimits, OnlyInstancesHold, OnlyHolding, Held, Release, Evict, Evictable;
    var t, gone := Step(s, e), s.tasks[e.i].cmd.inst;
    EvictedExactly(s.shared.fabric, gone);
    if EvictSection(s.shared, gone).1 == EvictedNow {
      var bytes := s.shared.fabric.residencies[gone].bytes;
      assert Accounted(s, gone);
      EvictReleases(s.shared.cap, gone, bytes);
      LimitsStay(s.shared.cap, bytes, Uuids.Text(gone));
      if inst != gone {
        OneHolder(s, t, gone, inst);
      }
    }
  }

  /**
   What the instance holds after any event: the acknowledged bytes, if they fit, when its load is committed;
   nothing when it is evicted; and otherwise what it held.
   */
  lemma HoldingAfterStep(s: System, e: Event, inst: Uuid)
    requires Conserved(s)
    ensures HeldBy(Step(s, e), inst) == HoldingAfter(s, e, inst)
    ensures Step(s, e).shared.cap.limits == s.shared.cap.limits
    ensures Commits(s, e, inst) ==> HeldBy(s, inst) == 0
  {
    hide Conserved, Step, Held, Free;
    if CommitsLoad(s, e) {
      CommitHolds(s, e, inst);
    } else if e.Begin? && At(s, e.i, Start) && s.tasks[e.i].cmd.Eviction? {
      EvictionHolds(s, e, inst);
    } else {
      OthersKeepBooks(s, e);
    }
  }

  // ---- whole runs ----

  predicate CommittedAt(s: System, e: Event, inst: Uuid, bytes: u64) {
    && Commits(s, e, inst) && s.tasks[e.i].ack.a == bytes && bytes <= Free(s.shared.cap, DeviceMemory)
  }

  /** Event k committed the instance's load with these bytes, and no later event evicted it. */
  predicate HeldSince(s: System, es: seq<Event>, k: nat, inst: Uuid, bytes: u64) {
    && k < |es| && CommittedAt(After(s, es[..k]), es[k], inst, bytes)
    && forall m :: k < m < |es| ==> !EvictsNow(After(s, es[..m]), es[m], inst)
  }

  lemma HeldSinceLonger(s: System, es: seq<Event>, k: nat, inst: Uuid, bytes: u64)
    requires es != []
    ensures var n := |es| - 1;
      && (k < n ==>
            (HeldSince(s, es, k, inst, bytes) <==>
              HeldSince(s, es[..n], k, inst, bytes) && !EvictsNow(After(s, es[..n]), es[n], inst)))
      && (k == n ==> (HeldSince(s, es, k, inst, bytes) <==> CommittedAt(After(s, es[..n]), es[n], inst, bytes)))
  {
    hide After, CommittedAt, EvictsNow;
    var n := |es| - 1;
    assert forall m: nat :: m < n ==> es[..n][..m] == es[..m];
  }

  /**
   Over whole runs: an instance holds a number of bytes other than zero exactly when some event committed its
   load with that acknowledgement while it fitted, and no event since then evicted the instance.
   */
  lemma {:induction false} HeldExactly(s: System, es: seq<Event>, inst: Uuid, bytes: u64)
    requires Init(s) && bytes != 0
    ensures HeldBy(After(s, es), inst) == bytes <==> exists k: nat :: HeldSince(s, es, k, inst, bytes)
  {
    hide Step, Init, HeldSince, CommitsLoad, EvictsNow, Conserved, Held, Free;
    if es == [] {
      NothingHeldAtFirst(s, inst, bytes);
    } else {
      var n := |es| - 1;
      var u, e := After(s, es[..n]), es[n];
      RunConserves(s, es[..n]);
      HeldExactly(s, es[..n], inst, bytes);
      HoldingAfterStep(u, e, inst);
      NotBoth(u, e, inst);
      HeldSinceWithin(s, es, inst, bytes);
    }
  }

  lemma NotBoth(s: System, e: Event, inst: Uuid)
    ensures !(Commits(s, e, inst) && EvictsNow(s, e, inst))
  {
  }

  lemma HeldSinceWithin(s: System, es: seq<Event>, inst: Uuid, bytes: u64)
    requires es != []
    ensures var n := |es| - 1; var u := After(s, es[..n]);
      (exists k: nat :: HeldSince(s, es, k, inst, bytes)) <==>
      CommittedAt(u, es[n], inst, bytes)
      || (!EvictsNow(u, es[n], inst) && exists k: nat :: HeldSince(s, es[..n], k, inst, bytes))
  {
    hide After, CommittedAt, EvictsNow, HeldSince;
    var n := |es| - 1;
    forall k: nat | HeldSince(s, es, k, inst, bytes) || HeldSince(s, es[..n], k, inst, bytes)
      ensures k <= n && (HeldSince(s, es[..n], k, inst, bytes) ==> k < n)
    {
      HeldSinceIsEarlier(s, es, k, inst, bytes);
      HeldSinceIsEarlier(s, es[..n], k, inst, bytes);
    }
    forall k: nat
      ensures k < n ==> (HeldSince(s, es, k, inst, bytes) <==>
                HeldSince(s, es[..n], k, inst, bytes) && !EvictsNow(After(s, es[..n]), es[n], inst))
    {
      HeldSinceLonger(s, es, k, inst, bytes);
    }
    HeldSinceLonger(s, es, n, inst, bytes);
  }

  lemma HeldSinceIsEarlier(s: System, es: seq<Event>, k: nat, inst: Uuid, bytes: u64)
    ensures HeldSince(s, es, k, inst, bytes) ==> k < |es|
  {
  }

  lemma NothingHeldAtFirst(s: System, inst: Uuid, bytes: u64)
    requires Init(s) && bytes != 0
    ensures HeldBy(After(s, []), inst) == 0 && !exists k: nat :: HeldSince(s, [], k, inst, bytes)
  {
  }
}
