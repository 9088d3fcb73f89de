/** Snapshot, codec and recovery together: what a restarted coordinator gets back, and what it does not. */
module Recovery {
  import opened Basics
  import opened Records
  import opened Authorities
  import opened Compositions
  import opened Fabrics
  import opened FabricRuns
  import opened AdapterCodec
  import opened SnapshotCodec
  import opened Codec

  lemma {:induction false} RegistryFromTheFront<T>(x: T, xs: seq<T>, key: T -> Uuid)
    ensures Registry([x] + xs, key) == map[key(x) := x] + Registry(xs, key)
  {
    var all := [x] + xs;
    if xs == [] {
      assert all == [x] && all[..0] == [];
    } else {
      assert all[..|all| - 1] == [x] + xs[..|xs| - 1];
      RegistryFromTheFront(x, xs[..|xs| - 1], key);
    }
  }

  lemma {:induction false} ListingHolds<T>(m: map<Uuid, T>, key: T -> Uuid)
    requires forall u <- m :: key(m[u]) == u
    ensures |Listing(m)| == |m|
    ensures forall i :: 0 <= i < |Listing(m)| ==> key(Listing(m)[i]) in m && m[key(Listing(m)[i])] == Listing(m)[i]
    decreases |m|
  {
    hide Rank;
    if m != map[] {
      ListingHolds(m - {First(m.Keys)}, key);
    }
  }

  lemma {:induction false} ListingIsSorted<T>(m: map<Uuid, T>, key: T -> Uuid)
    requires forall u <- m :: key(m[u]) == u
    ensures forall i, j :: 0 <= i < j < |Listing(m)| ==> Rank(key(Listing(m)[i])) < Rank(key(Listing(m)[j]))
    decreases |m|
  {
    hide Rank;
    if m != map[] {
      var u := First(m.Keys);
      var rest := m - {u};
      ListingIsSorted(rest, key);
      ListingHolds(rest, key);
      var ys := Listing(rest);
      assert Listing(m) == [m[u]] + ys;
      forall j | 0 <= j < |ys|
        ensures Rank(u) < Rank(key(ys[j]))
      {
        if Rank(u) == Rank(key(ys[j])) {
          RankInjective(u, key(ys[j]));
        }
      }
    }
  }

  lemma {:induction false} ListingRebuildsIt<T>(m: map<Uuid, T>, key: T -> Uuid)
    requires forall u <- m :: key(m[u]) == u
    ensures Registry(Listing(m), key) == m
    decreases |m|
  {
    hide Rank;
    if m != map[] {
      var u := First(m.Keys);
      var rest := m - {u};
      ListingRebuildsIt(rest, key);
      RegistryFromTheFront(m[u], Listing(rest), key);
      assert map[u := m[u]] + rest == m;
    }
  }

  /** A registry's listing is in key order without repeats, and rebuilds the registry. */
  lemma ListingRebuilds<T>(m: map<Uuid, T>, key: T -> Uuid)
    requires forall u <- m :: key(m[u]) == u
    ensures var xs := Listing(m);
      && |xs| == |m| && Registry(xs, key) == m
      && (forall i :: 0 <= i < |xs| ==> key(xs[i]) in m && m[key(xs[i])] == xs[i])
      && (forall i, j :: 0 <= i < j < |xs| ==> Rank(key(xs[i])) < Rank(key(xs[j])))
  {
    hide Listing, Rank, Registry;
    ListingHolds(m, key);
    ListingIsSorted(m, key);
    ListingRebuildsIt(m, key);
  }

  lemma {:induction false} DecimalIsShort(n: nat)
    ensures |Decimal(n)| <= n + 1
  {
    if n >= 10 {
      DecimalIsShort(n / 10);
    }
  }

  lemma SummaryIsShort(ms: seq<CompositionMember>, digest: Bytes)
    requires |ms| <= MAX_COUNT && |digest| == 16
    ensures Short(Summary(ms, digest))
  {
    hide Decimal, Ascii;
    DecimalIsShort(|ms|);
  }

  lemma FiledCompositionIsOk(s: FabricState, c: Uuid)
    requires c in s.compositions && CompositionFiled(s, c) && |s.adapters| <= MAX_COUNT
    ensures CompositionOk(s.compositions[c])
  {
    hide Summary, Digest, TotalMemory;
    var x := s.compositions[c];
    SummaryIsShort(x.members, Digest(x.members, x.policy));
  }

  predicate WithinCounts(s: FabricState) {
    |s.adapters| <= MAX_COUNT && |s.compositions| <= MAX_COUNT && |s.workers| <= MAX_COUNT
  }

  lemma SnapshotIsOk(s: FabricState)
    requires RegistrySafe(s) && WithinCounts(s)
    ensures SnapshotOk(Snapshot(s))
  {
    hide AdapterOk, CompositionOk, WorkerOk, CompositionFiled, Listing, Rank, Registry;
    assert forall a <- s.adapters :: AdapterFiled(s, a);
    forall c | c in s.compositions
      ensures CompositionOk(s.compositions[c]) && s.compositions[c].id == c
    {
      FiledCompositionIsOk(s, c);
      FiledUnderItsId(s, c);
    }
    ListingRebuilds(s.adapters, AdapterKey);
    ListingRebuilds(s.compositions, CompositionKey);
    ListingRebuilds(s.workers, WorkerKey);
  }

  lemma FiledUnderItsId(s: FabricState, c: Uuid)
    requires c in s.compositions && CompositionFiled(s, c)
    ensures s.compositions[c].id == c
  {
  }

  /** Recovering a registry's own snapshot into a fresh fabric gives the registries back, and no holdings. */
  lemma RecoveryRestoresRegistries(s: FabricState)
    requires RegistrySafe(s)
    ensures var t := Recover(FRESH, Snapshot(s));
      RegistriesEqual(s, t) && t.authority == map[] && t.residencies == map[]
      && t.activeFence == None && t.currentAttempt == map[]
  {
    hide AdapterOk, WorkerOk, CompositionFiled, Listing, Rank, Registry;
    assert forall a <- s.adapters :: AdapterFiled(s, a);
    forall c | c in s.compositions
      ensures s.compositions[c].id == c
    {
      FiledUnderItsId(s, c);
    }
    ListingRebuilds(s.adapters, AdapterKey);
    ListingRebuilds(s.compositions, CompositionKey);
    ListingRebuilds(s.workers, WorkerKey);
  }

  lemma FreshRegistryIsSafe()
    ensures RegistrySafe(FRESH)
  {
  }

  /**
   The whole restart, for every state the coordinator can reach with at most 100000 adapters,
   compositions and workers: the serialized snapshot is accepted, decodes to the snapshot, and
   rebuilds the same registries in a new fabric that holds nothing.
   */
  method Restart(f: Fabric, ghost ops: seq<FabricOp>) returns (res: Result<Fabric>)
    requires AllFromWire(ops) && f.View() == Run(FRESH, ops) && WithinCounts(f.View())
    ensures res.Ok? && fresh(res.value)
    ensures RegistriesEqual(f.View(), res.value.View())
    ensures var t := res.value.View();
      t.authority == map[] && t.residencies == map[] && t.activeFence == None && t.currentAttempt == map[]
  {
    hide Run, RegistrySafe, SnapshotOk, Snapshot, WithinCounts, Recover;
    FreshRegistryIsSafe();
    RunKeepsRegistry(FRESH, ops);
    SnapshotIsOk(f.View());
    RecoveryRestoresRegistries(f.View());
    var snap := f.TakeSnapshot();
    var decoded := SnapshotRoundTrip(snap);
    var g := new Fabric();
    g.RecoverFrom(decoded.value);
    res := Ok(g);
  }

  predicate Unheld(s: FabricState) {
    s.authority == map[] && s.residencies == map[]
  }

  lemma StepKeepsUnheld(s: FabricState, op: FabricOp)
    requires Unheld(s) && !op.CreateOp?
    ensures Unheld(Apply(s, op))
  {
    hide RegisterAdapter, PublishComposition, CreateInstance, CheckFence;
    if op.AdapterOp? || op.ComposeOp? {
      StepFrame(s, op);
    }
  }

  /** After a recovery no fence is bound or reused, in any continuation, before an instance is created. */
  lemma {:induction false} NothingGrantedBeforeAnInstance(snap: FabricSnapshot, ops: seq<FabricOp>, f: AuthorityFence)
    requires forall i :: 0 <= i < |ops| ==> !ops[i].CreateOp?
    ensures var t := Run(Recover(FRESH, snap), ops);
      && Unheld(t)
      && BindAuthority(t, f.adapter, f).0 == t && BindAuthority(t, f.adapter, f).1 != Ok(Authorized)
      && ReuseSafe(t, f) != Authorized
  {
    hide Apply, CheckFence, Registry;
    if ops != [] {
      NothingGrantedBeforeAnInstance(snap, ops[..|ops| - 1], f);
      StepKeepsUnheld(Run(Recover(FRESH, snap), ops[..|ops| - 1]), ops[|ops| - 1]);
    }
  }

  /** A rebuilt registry holds, under each key, the last entry of the list with that key. */
  lemma {:induction false} LastEntryWins<T>(xs: seq<T>, key: T -> Uuid, u: Uuid)
    ensures u in Registry(xs, key) <==> exists i :: 0 <= i < |xs| && key(xs[i]) == u
    ensures u in Registry(xs, key) ==>
              exists i :: 0 <= i < |xs| && LastOf(xs, key, u, i) && Registry(xs, key)[u] == xs[i]
  {
    if xs != [] {
      var n := |xs| - 1;
      LastEntryWins(xs[..n], key, u);
      if key(xs[n]) == u {
        assert LastOf(xs, key, u, n);
      } else {
        if i :| 0 <= i < |xs| && key(xs[i]) == u {
          assert xs[..n][i] == xs[i];
        }
        if u in Registry(xs, key) {
          var i :| 0 <= i < n && LastOf(xs[..n], key, u, i) && Registry(xs[..n], key)[u] == xs[..n][i];
          assert LastOf(xs, key, u, i);
        }
      }
    }
  }

  predicate LastOf<T>(xs: seq<T>, key: T -> Uuid, u: Uuid, i: nat)
    requires i < |xs|
  {
    key(xs[i]) == u && forall j :: i < j < |xs| ==> key(xs[j]) != u
  }

  /** Recovery takes epoch, counters and registries from the snapshot alone, and keeps everything that is held. */
  lemma RecoveryKeepsHoldings(s: FabricState, snap: FabricSnapshot)
    ensures var t := Recover(s, snap);
      && HoldingsEqual(s, t) && t.residencies == s.residencies && t.invalidationLog == s.invalidationLog
      && RegistriesEqual(Recover(FRESH, snap), t)
      && t.epoch == snap.epoch && t.nextAdapterGen == snap.nextAdapterGeneration
      && t.nextCompositionGen == snap.nextCompositionGeneration
  {
    hide Registry;
  }
}
