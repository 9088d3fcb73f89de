/** The splitmix64 generator of include/adapter_fabric/rng.hpp. */
module Rng {
  import opened Basics
  import opened Checksum

  const GAMMA: u64 := 0x9E3779B97F4A7C15
  const GAMMA_INVERSE: u64 := 0xF1DE83E19937733D
  const GAMMA_CARRY: u64 := 10771413168148108919
  const MIX1: u64 := 0xBF58476D1CE4E5B9
  const MIX1_INVERSE: u64 := 0x96DE1B173F119089
  const MIX1_CARRY: u64 := 8125545580553827436
  const MIX2: u64 := 0x94D049BB133111EB
  const MIX2_INVERSE: u64 := 0x319642B2D24D8EC3
  const MIX2_CARRY: u64 := 2077064247507883091


  /** `z >> k`. */
  function ShiftRight(z: nat, k: nat): (r: nat)
    ensures r <= z && (k > 0 && z > 0 ==> r < z)
  {
    if k == 0 then z else ShiftRight(z / 2, k - 1)
  }

  /** `z ^ (z >> k)`. */
  function XorShift(z: u64, k: nat): u64 {
    XorOfWords(z, ShiftRight(z, k));
    Xor(z, ShiftRight(z, k))
  }

  function Mix(state: u64): u64 {
    XorShift(XorShift(XorShift(state, 30) * MIX1 % TWO_TO_THE_64, 27) * MIX2 % TWO_TO_THE_64, 31)
  }

  function NextState(state: u64): u64 {
    (state + GAMMA) % TWO_TO_THE_64
  }

  function StateAfter(state: u64, steps: nat): u64 {
    if steps == 0 then state else NextState(StateAfter(state, steps - 1))
  }

  /** The bytes `fill` writes: whole outputs, least significant byte first, the last one cut short. */
  function Stream(state: u64, n: nat): (b: Bytes)
    ensures |b| == n
    decreases n
  {
    if n == 0 then []
    else
      var take := if n < 8 then n else 8;
      LE(Mix(NextState(state)), 8)[..take] + Stream(NextState(state), n - take)
  }

  class Rng {
    var state: u64

    constructor (seed: u64)
      ensures state == seed
    {
      state := seed;
    }

    method Next() returns (v: u64)
      modifies this
      ensures state == NextState(old(state)) && v == Mix(state)
    {
      state := (state + GAMMA) % TWO_TO_THE_64;
      var z := state;
      z := XorShift(z, 30) * MIX1 % TWO_TO_THE_64;
      z := XorShift(z, 27) * MIX2 % TWO_TO_THE_64;
      v := XorShift(z, 31);
    }

    method Fill(out: array<byte>)
      modifies this, out
      ensures out[..] == Stream(old(state), out.Length)
    {
      var i := 0;
      while i < out.Length
        invariant 0 <= i <= out.Length
        invariant out[..i] + Stream(state, out.Length - i) == Stream(old(state), out.Length)
      {
        ghost var before := out[..i];
        var v := Next();
        var take := if out.Length - i < 8 then out.Length - i else 8;
        CopyInto(out, i, LE(v, 8)[..take]);
        ConcatAssociates(before, LE(v, 8)[..take], Stream(state, out.Length - i - take));
        i := i + take;
      }
      assert out[..] == out[..i];
    }

    /** The inner loop of `fill`. */
    method CopyInto(out: array<byte>, i: nat, p: Bytes)
      requires i + |p| <= out.Length
      modifies out
      ensures out[..i + |p|] == old(out[..i]) + p
    {
      var k := 0;
      while k < |p|
        invariant 0 <= k <= |p| && out[..i + k] == old(out[..i]) + p[..k]
      {
        out[i + k] := p[k];
        k := k + 1;
      }
    }
  }

  lemma {:induction false} XorShiftsThrough(a: nat, b: nat, k: nat)
    ensures ShiftRight(Xor(a, b), k) == Xor(ShiftRight(a, k), ShiftRight(b, k))
  {
    if k > 0 {
      HalfOfXor(a, b);
      XorShiftsThrough(a / 2, b / 2, k - 1);
    }
  }

  lemma HalfOfXor(a: nat, b: nat)
    ensures Xor(a, b) / 2 == Xor(a / 2, b / 2)
  {
  }

  /** Shifting right and xor-ing back loses nothing: the high bits survive, and they undo the rest. */
  lemma {:induction false} XorShiftInjective(x: u64, y: u64, k: nat)
    requires k > 0
    requires XorShift(x, k) == XorShift(y, k)
    ensures x == y
    decreases x + y
  {
    if x != 0 || y != 0 {
      var p, q := ShiftRight(x, k), ShiftRight(y, k);
      XorShiftsThrough(x, p, k);
      XorShiftsThrough(y, q, k);
      assert XorShift(p, k) == XorShift(q, k);
      XorShiftInjective(p, q, k);
      XorUndoes(x, p);
      XorUndoes(y, q);
    }
  }

  lemma MultiplyInjective(x: u64, y: u64, p: nat, inverse: nat, carry: nat)
    requires p * inverse == 1 + carry * TWO_TO_THE_64
    requires x * p % TWO_TO_THE_64 == y * p % TWO_TO_THE_64
    ensures x == y
  {
    OddMultiplierInvertible(x, p, inverse, carry);
    OddMultiplierInvertible(y, p, inverse, carry);
  }

  lemma MixInjective(x: u64, y: u64)
    requires Mix(x) == Mix(y)
    ensures x == y
  {
    var x1, y1 := XorShift(x, 30), XorShift(y, 30);
    var x2, y2 := x1 * MIX1 % TWO_TO_THE_64, y1 * MIX1 % TWO_TO_THE_64;
    var x3, y3 := XorShift(x2, 27), XorShift(y2, 27);
    XorShiftInjective(x3 * MIX2 % TWO_TO_THE_64, y3 * MIX2 % TWO_TO_THE_64, 31);
    MultiplyInjective(x3, y3, MIX2, MIX2_INVERSE, MIX2_CARRY);
    XorShiftInjective(x2, y2, 27);
    MultiplyInjective(x1, y1, MIX1, MIX1_INVERSE, MIX1_CARRY);
    XorShiftInjective(x, y, 30);
  }

  lemma AddAfterModulo(a: nat, b: nat)
    ensures (a % TWO_TO_THE_64 + b) % TWO_TO_THE_64 == (a + b) % TWO_TO_THE_64
  {
  }

  lemma {:induction false} StateAfterClosedForm(state: u64, k: nat)
    ensures StateAfter(state, k) == (state + k * GAMMA) % TWO_TO_THE_64
  {
    if k > 0 {
      var a := state + (k - 1) * GAMMA;
      StateAfterClosedForm(state, k - 1);
      AddAfterModulo(a, GAMMA);
      assert a + GAMMA == state + k * GAMMA;
    }
  }

  lemma EqualResiduesDifferByMultiple(a: nat, b: nat)
    requires a % TWO_TO_THE_64 == (a + b) % TWO_TO_THE_64
    ensures b % TWO_TO_THE_64 == 0
  {
  }

  lemma StatesDistinct(state: u64, i: nat, j: nat)
    requires i < j < i + TWO_TO_THE_64
    ensures StateAfter(state, i) != StateAfter(state, j)
  {
    StateAfterClosedForm(state, i);
    StateAfterClosedForm(state, j);
    if StateAfter(state, i) == StateAfter(state, j) {
      var d: u64 := j - i;
      assert state + j * GAMMA == state + i * GAMMA + d * GAMMA;
      EqualResiduesDifferByMultiple(state + i * GAMMA, d * GAMMA);
      MultiplyInjective(d, 0, GAMMA, GAMMA_INVERSE, GAMMA_CARRY);
      assert false;
    }
  }

  /** Any 2^64 consecutive outputs are pairwise distinct. */
  lemma OutputsDistinctForAFullPeriod(state: u64, i: nat, j: nat)
    requires i < j < i + TWO_TO_THE_64
    ensures Mix(StateAfter(state, i)) != Mix(StateAfter(state, j))
  {
    StatesDistinct(state, i, j);
    if Mix(StateAfter(state, i)) == Mix(StateAfter(state, j)) {
      MixInjective(StateAfter(state, i), StateAfter(state, j));
      assert false;
    }
  }
}
