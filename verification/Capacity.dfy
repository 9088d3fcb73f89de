/** Exact capacity accounting (src/capacity.cpp), with its 64-bit arithmetic written out. */
module Capacity {
  import opened Basics

  datatype Location = DeviceMemory | PinnedHost | PageableHost | ProcessLocal | NodeLocal | PersistentStorage

  type Holder = (Location, Bytes)

  datatype CapState = CapState(used: map<Location, u64>, limits: map<Location, u64>, held: map<Holder, u64>)

  function Used(c: CapState, loc: Location): u64 {
    if loc in c.used then c.used[loc] else 0
  }

  function Limit(c: CapState, loc: Location): u64 {
    if loc in c.limits then c.limits[loc] else 0
  }

  function Held(c: CapState, loc: Location, owner: Bytes): u64 {
    if (loc, owner) in c.held then c.held[(loc, owner)] else 0
  }

  function Free(c: CapState, loc: Location): u64 {
    if Limit(c, loc) > Used(c, loc) then Limit(c, loc) - Used(c, loc) else 0
  }

  function Wrap(n: int): u64 { n % TWO_TO_THE_64 }

  /** Looking an owner up creates a zero entry. */
  function Touch(c: CapState, loc: Location, owner: Bytes): CapState {
    c.(held := c.held[(loc, owner) := Held(c, loc, owner)])
  }

  function Reserve(c: CapState, loc: Location, bytes: u64, owner: Bytes): (CapState, Result<()>) {
    if Held(c, loc, owner) != 0 then (Touch(c, loc, owner), Err(DoubleReservation))
    else if bytes > Wrap(Limit(c, loc) - Used(c, loc)) then (Touch(c, loc, owner), Err(CapacityOvercommit))
    else (c.(held := c.held[(loc, owner) := bytes], used := c.used[loc := Wrap(Used(c, loc) + bytes)]), Ok(()))
  }

  function Release(c: CapState, loc: Location, bytes: u64, owner: Bytes): (CapState, Result<()>) {
    var h := Held(c, loc, owner);
    if h == 0 then (Touch(c, loc, owner), Err(DoubleRelease))
    else if bytes > h then (Touch(c, loc, owner), Err(CapacityUnderflow))
    else (c.(held := c.held[(loc, owner) := h - bytes], used := c.used[loc := Wrap(Used(c, loc) - bytes)]), Ok(()))
  }

  predicate IsClean(c: CapState) {
    forall loc <- c.used :: c.used[loc] == 0
  }

  datatype CapOp =
    | ReserveOp(loc: Location, bytes: u64, owner: Bytes)
    | ReleaseOp(loc: Location, bytes: u64, owner: Bytes)
    | AdjustOp(loc: Location, delta: int, owner: Bytes)
    | SetLimitOp(loc: Location, bytes: u64)

  /** A 64-bit delta, its most negative value excepted, whose negation overflows in the source. */
  predicate DeltaOk(delta: int) { -0x8000_0000_0000_0000 < delta < 0x8000_0000_0000_0000 }

  function Adjust(c: CapState, loc: Location, delta: int, owner: Bytes): (CapState, Result<()>)
    requires DeltaOk(delta)
  {
    if delta >= 0 then Reserve(c, loc, delta, owner) else Release(c, loc, -delta, owner)
  }

  /** Operations a run may contain: limits are never set below what is in use. */
  predicate Allowed(c: CapState, op: CapOp) {
    match op
    case AdjustOp(_, delta, _) => DeltaOk(delta)
    case SetLimitOp(loc, bytes) => Used(c, loc) <= bytes
    case _ => true
  }

  function Apply(c: CapState, op: CapOp): CapState
    requires Allowed(c, op)
  {
    match op
    case ReserveOp(loc, bytes, owner) => Reserve(c, loc, bytes, owner).0
    case ReleaseOp(loc, bytes, owner) => Release(c, loc, bytes, owner).0
    case AdjustOp(loc, delta, owner) => Adjust(c, loc, delta, owner).0
    case SetLimitOp(loc, bytes) => c.(limits := c.limits[loc := bytes])
  }

  ghost function Share(held: map<Holder, u64>, k: Holder, loc: Location): nat {
    if k in held && k.0 == loc then held[k] else 0
  }

  /** Bytes held at a location by all owners together. */
  ghost function Total(held: map<Holder, u64>, loc: Location): nat {
    if held == map[] then 0
    else
      var k := Pick(held);
      Share(held, k, loc) + Total(held - {k}, loc)
  }

  ghost function Pick(held: map<Holder, u64>): (k: Holder)
    requires held != map[]
    ensures k in held
  {
    var k :| k in held;
    k
  }

  /** The books balance and stay within the limits. */
  ghost predicate Balanced(c: CapState) {
    forall loc :: Used(c, loc) == Total(c.held, loc)
  }

  predicate WithinLimits(c: CapState) {
    forall loc :: Used(c, loc) <= Limit(c, loc)
  }

  lemma {:induction false} TotalWithout(held: map<Holder, u64>, k: Holder, loc: Location)
    requires k in held
    ensures Total(held, loc) == Share(held, k, loc) + Total(held - {k}, loc)
    decreases |held|
  {
    var j := Pick(held);
    if j != k {
      TotalWithout(held - {j}, k, loc);
      TotalWithout(held - {k}, j, loc);
      assert held - {j} - {k} == held - {k} - {j};
    }
  }

  lemma TotalAfterPut(held: map<Holder, u64>, k: Holder, v: u64, loc: Location)
    ensures Total(held[k := v], loc) == Total(held, loc) - Share(held, k, loc) + (if k.0 == loc then v else 0)
  {
    var after := held[k := v];
    TotalWithout(after, k, loc);
    if k in held {
      TotalWithout(held, k, loc);
      assert after - {k} == held - {k};
    } else {
      assert after - {k} == held;
    }
  }

  lemma ShareIsPart(held: map<Holder, u64>, k: Holder, loc: Location)
    ensures Share(held, k, loc) <= Total(held, loc)
  {
    if k in held {
      TotalWithout(held, k, loc);
    }
  }

  lemma HoldingIsPart(c: CapState, loc: Location, owner: Bytes)
    requires Balanced(c)
    ensures Held(c, loc, owner) <= Used(c, loc)
  {
    ShareIsPart(c.held, (loc, owner), loc);
  }

  /** No balance differs between the two states. */
  ghost predicate SameBalances(c: CapState, d: CapState) {
    && (forall loc, owner :: Held(c, loc, owner) == Held(d, loc, owner))
    && (forall loc :: Used(c, loc) == Used(d, loc))
  }

  /**
   With balanced books a reservation succeeds exactly when the owner holds nothing there and the
   bytes fit in what is free, then only that owner's balance and that location's use grow by exactly
   the bytes; a refused one changes no balance. Either way the books stay balanced, without wrap-around.
   */
  lemma ReserveIsExact(c: CapState, loc: Location, bytes: u64, owner: Bytes)
    requires Balanced(c) && WithinLimits(c)
    ensures var (d, res) := Reserve(c, loc, bytes, owner);
      && (res.Ok? <==> Held(c, loc, owner) == 0 && bytes <= Free(c, loc))
      && (res.Ok? ==> Used(d, loc) == Used(c, loc) + bytes && Held(d, loc, owner) == bytes)
      && (res.Ok? ==> forall l, o :: (l, o) != (loc, owner) ==> Held(d, l, o) == Held(c, l, o))
      && (res.Err? ==> SameBalances(c, d))
      && Balanced(d) && WithinLimits(d)
  {
    hide Total, Wrap, Balanced;
    var (d, res) := Reserve(c, loc, bytes, owner);
    WrapIsFree(c, loc);
    NoWrap(Used(c, loc) + bytes);
    if res.Ok? {
      PutKeepsBooks(c, d, loc, owner);
    } else {
      TouchKeepsBooks(c, loc, owner);
    }
  }

  lemma NoWrap(n: int)
    ensures 0 <= n < TWO_TO_THE_64 ==> Wrap(n) == n
  {
  }

  lemma WrapIsFree(c: CapState, loc: Location)
    requires Used(c, loc) <= Limit(c, loc)
    ensures Wrap(Limit(c, loc) - Used(c, loc)) == Free(c, loc)
  {
  }

  lemma TouchKeepsBooks(c: CapState, loc: Location, owner: Bytes)
    requires Balanced(c)
    ensures Balanced(Touch(c, loc, owner)) && SameBalances(c, Touch(c, loc, owner))
  {
    PutKeepsBooks(c, Touch(c, loc, owner), loc, owner);
  }

  /** Changing one balance and its location's use by the same amount keeps the books balanced. */
  lemma PutKeepsBooks(c: CapState, d: CapState, loc: Location, owner: Bytes)
    requires Balanced(c) && (loc, owner) in d.held
    requires d.held == c.held[(loc, owner) := d.held[(loc, owner)]]
    requires forall l :: Used(d, l) == Used(c, l) + if l == loc then Held(d, l, owner) - Held(c, l, owner) else 0
    ensures Balanced(d)
  {
    forall l
      ensures Used(d, l) == Total(d.held, l)
    {
      TotalAfterPut(c.held, (loc, owner), Held(d, loc, owner), l);
    }
  }

  lemma ReleaseIsExact(c: CapState, loc: Location, bytes: u64, owner: Bytes)
    requires Balanced(c)
    ensures var (d, res) := Release(c, loc, bytes, owner);
      && (res.Ok? <==> Held(c, loc, owner) > 0 && bytes <= Held(c, loc, owner))
      && (res.Ok? ==> Used(d, loc) == Used(c, loc) - bytes && Held(d, loc, owner) == Held(c, loc, owner) - bytes)
      && (res.Ok? ==> forall l, o :: (l, o) != (loc, owner) ==> Held(d, l, o) == Held(c, l, o))
      && (res.Err? ==> SameBalances(c, d))
      && Balanced(d) && (WithinLimits(c) ==> WithinLimits(d))
  {
    hide Total, Wrap, Balanced;
    var (d, res) := Release(c, loc, bytes, owner);
    HoldingIsPart(c, loc, owner);
    NoWrap(Used(c, loc) - bytes);
    if res.Ok? {
      PutKeepsBooks(c, d, loc, owner);
    } else {
      TouchKeepsBooks(c, loc, owner);
    }
  }

  /** States reached from `c` by allowed operations. */
  ghost predicate Reaches(c: CapState, ops: seq<CapOp>, d: CapState)
    decreases |ops|
  {
    if ops == [] then c == d else Allowed(c, ops[0]) && Reaches(Apply(c, ops[0]), ops[1..], d)
  }

  /** Over whole runs: use equals the sum of holdings, never exceeds a limit, never wraps. */
  lemma {:induction false} RunsKeepTheBooks(c: CapState, ops: seq<CapOp>, d: CapState)
    requires Balanced(c) && WithinLimits(c) && Reaches(c, ops, d)
    ensures Balanced(d) && WithinLimits(d)
    decreases |ops|
  {
    if ops != [] {
      match ops[0] {
        case ReserveOp(loc, bytes, owner) => ReserveIsExact(c, loc, bytes, owner);
        case ReleaseOp(loc, bytes, owner) => ReleaseIsExact(c, loc, bytes, owner);
        case AdjustOp(loc, delta, owner) =>
          if delta >= 0 {
            ReserveIsExact(c, loc, delta, owner);
          } else {
            ReleaseIsExact(c, loc, -delta, owner);
          }
        case SetLimitOp(loc, bytes) =>
      }
      RunsKeepTheBooks(Apply(c, ops[0]), ops[1..], d);
    }
  }

  /** Clean exactly when nobody holds anything anywhere. */
  lemma CleanExactly(c: CapState)
    requires Balanced(c)
    ensures IsClean(c) <==> forall loc, owner :: Held(c, loc, owner) == 0
  {
    if IsClean(c) {
      forall loc, owner
        ensures Held(c, loc, owner) == 0
      {
        assert Used(c, loc) == 0;
        HoldingIsPart(c, loc, owner);
      }
    }
    if forall loc, owner :: Held(c, loc, owner) == 0 {
      forall loc | loc in c.used
        ensures c.used[loc] == 0
      {
        assert Used(c, loc) == c.used[loc];
        forall l, o | (l, o) in c.held
          ensures c.held[(l, o)] == 0
        {
          assert Held(c, l, o) == 0;
        }
        NothingHeld(c.held, loc);
      }
    }
  }

  lemma {:induction false} NothingHeld(held: map<Holder, u64>, loc: Location)
    requires forall l, o :: (l, o) in held ==> held[(l, o)] == 0
    ensures Total(held, loc) == 0
    decreases |held|
  {
    if held != map[] {
      var k := Pick(held);
      assert held[(k.0, k.1)] == 0;
      NothingHeld(held - {k}, loc);
    }
  }

  /** Releasing what was reserved returns to the same balances. */
  lemma ReleaseUndoesReserve(c: CapState, loc: Location, bytes: u64, owner: Bytes)
    requires Balanced(c) && WithinLimits(c) && bytes > 0
    requires Reserve(c, loc, bytes, owner).1.Ok?
    ensures Release(Reserve(c, loc, bytes, owner).0, loc, bytes, owner).1.Ok?
    ensures SameBalances(c, Release(Reserve(c, loc, bytes, owner).0, loc, bytes, owner).0)
  {
    ReserveIsExact(c, loc, bytes, owner);
    ReleaseIsExact(Reserve(c, loc, bytes, owner).0, loc, bytes, owner);
  }

  /**
   The limit is honoured exactly while use is within it. Once `set_limit` has gone below the use,
   `limit - used` wraps, and even a single byte is then accepted.
   */
  lemma LimitHonouredExactlyWithinIt(c: CapState, loc: Location, owner: Bytes)
    requires Held(c, loc, owner) == 0
    ensures Used(c, loc) <= Limit(c, loc) <==>
            forall bytes: u64 :: bytes >= 1 && Reserve(c, loc, bytes, owner).1.Ok? ==>
              Used(Reserve(c, loc, bytes, owner).0, loc) == Used(c, loc) + bytes <= Limit(c, loc)
  {
    if Used(c, loc) > Limit(c, loc) {
      assert Reserve(c, loc, 1, owner).1.Ok?;
    }
  }

  class CapacityAccountant {
    var used: map<Location, u64>
    var limits: map<Location, u64>
    var held: map<Holder, u64>

    function View(): CapState
      reads this
    {
      CapState(used, limits, held)
    }

    constructor (limits: map<Location, u64>)
      ensures Balanced(View()) && WithinLimits(View()) && IsClean(View()) && held == map[]
      ensures forall loc :: Limit(View(), loc) == if loc in limits then limits[loc] else 0
    {
      var zero := map[DeviceMemory := 0, PinnedHost := 0, PageableHost := 0,
                      ProcessLocal := 0, NodeLocal := 0, PersistentStorage := 0];
      this.used := zero;
      this.limits := zero + limits;
      this.held := map[];
    }

    method ReserveBytes(loc: Location, bytes: u64, owner: Bytes) returns (res: Result<()>)
      modifies this
      ensures (View(), res) == Reserve(old(View()), loc, bytes, owner)
    {
      hide Wrap;
      if (loc, owner) !in held { held := held[(loc, owner) := 0]; }
      assert View() == Touch(old(View()), loc, owner);
      if held[(loc, owner)] != 0 { return Err(DoubleReservation); }
      if bytes > Wrap(Limit(View(), loc) - Used(View(), loc)) { return Err(CapacityOvercommit); }
      held := held[(loc, owner) := bytes];
      assert held == old(held)[(loc, owner) := bytes];
      used := used[loc := Wrap(Used(View(), loc) + bytes)];
      res := Ok(());
    }

    method ReleaseBytes(loc: Location, bytes: u64, owner: Bytes) returns (res: Result<()>)
      modifies this
      ensures (View(), res) == Release(old(View()), loc, bytes, owner)
    {
      hide Wrap;
      if (loc, owner) !in held { held := held[(loc, owner) := 0]; }
      assert View() == Touch(old(View()), loc, owner);
      if held[(loc, owner)] == 0 { return Err(DoubleRelease); }
      if bytes > held[(loc, owner)] { return Err(CapacityUnderflow); }
      held := held[(loc, owner) := held[(loc, owner)] - bytes];
      assert held == old(held)[(loc, owner) := Held(old(View()), loc, owner) - bytes];
      used := used[loc := Wrap(Used(View(), loc) - bytes)];
      res := Ok(());
    }

    method AdjustBytes(loc: Location, delta: int, owner: Bytes) returns (res: Result<()>)
      requires DeltaOk(delta)
      modifies this
      ensures (View(), res) == Adjust(old(View()), loc, delta, owner)
    {
      if delta >= 0 {
        res := ReserveBytes(loc, delta, owner);
      } else {
        res := ReleaseBytes(loc, -delta, owner);
      }
    }

    method SetLimit(loc: Location, bytes: u64)
      modifies this
      ensures View() == old(View()).(limits := old(limits)[loc := bytes])
    {
      limits := limits[loc := bytes];
    }

    method Clean() returns (clean: bool)
      ensures clean == IsClean(View())
    {
      var rest := used.Keys;
      while rest != {}
        invariant rest <= used.Keys
        invariant forall loc <- used :: loc !in rest ==> used[loc] == 0
      {
        var loc :| loc in rest;
        if used[loc] != 0 { return false; }
        rest := rest - {loc};
      }
      clean := true;
    }
  }
}
