/** The FNV-style checksum of include/adapter_fabric/checksum.hpp, with its own starting constant. */
module Checksum {
  import opened Basics

  const FNV_START: u64 := 1469598103934665603
  const FNV_PRIME: u64 := 1099511628211
  // FNV_PRIME * FNV_INVERSE == 1 + FNV_CARRY * 2^64
  const FNV_INVERSE: u64 := 14886173955864302971
  const FNV_CARRY: u64 := 887285111055

  /** Bitwise exclusive or of two unsigned words of any width. */
  function Xor(a: nat, b: nat): nat {
    if a == 0 && b == 0 then 0 else (a + b) % 2 + 2 * Xor(a / 2, b / 2)
  }

  lemma {:induction false} XorUndoes(a: nat, b: nat)
    ensures Xor(Xor(a, b), b) == a
    decreases a + b
  {
    if a != 0 || b != 0 {
      var c := Xor(a, b);
      XorUndoes(a / 2, b / 2);
      assert c / 2 == Xor(a / 2, b / 2) && c % 2 == (a + b) % 2;
      assert (c + b) % 2 == a % 2;
    }
  }

  lemma {:induction false} XorCommutes(a: nat, b: nat)
    ensures Xor(a, b) == Xor(b, a)
    decreases a + b
  {
    if a != 0 || b != 0 {
      XorCommutes(a / 2, b / 2);
    }
  }

  function Pow2(k: nat): (p: nat)
    ensures p > 0
  {
    if k == 0 then 1 else 2 * Pow2(k - 1)
  }

  lemma {:induction false} XorFits(a: nat, b: nat, k: nat)
    requires a < Pow2(k) && b < Pow2(k)
    ensures Xor(a, b) < Pow2(k)
  {
    if k > 0 {
      XorFits(a / 2, b / 2, k - 1);
    }
  }

  lemma Pow2Of64()
    ensures Pow2(64) == TWO_TO_THE_64
  {
    assert Pow2(8) == 0x100;
    assert Pow2(16) == 0x100 * Pow2(8);
    assert Pow2(24) == 0x100 * Pow2(16);
    assert Pow2(32) == 0x100 * Pow2(24);
    assert Pow2(40) == 0x100 * Pow2(32);
    assert Pow2(48) == 0x100 * Pow2(40);
    assert Pow2(56) == 0x100 * Pow2(48);
  }

  function Step(hash: u64, b: byte): u64 {
    Xor(hash, b) * FNV_PRIME % TWO_TO_THE_64
  }

  /** Left fold of a byte string with a hashing step. */
  function Fold(step: (u64, byte) -> u64, hash: u64, data: Bytes): u64
    decreases data
  {
    if data == [] then hash else Fold(step, step(hash, data[0]), data[1..])
  }

  function Fnv(hash: u64, data: Bytes): u64 {
    Fold(Step, hash, data)
  }

  method Fnv1a64(start: u64, data: Bytes) returns (hash: u64)
    ensures hash == Fnv(start, data)
  {
    hash := start;
    var i := 0;
    while i < |data|
      invariant 0 <= i <= |data|
      invariant Fnv(hash, data[i..]) == Fnv(start, data)
    {
      assert data[i..][1..] == data[i + 1..];
      hash := Step(hash, data[i]);
      i := i + 1;
    }
    assert data[|data|..] == [];
  }

  /** Multiplication by the odd prime loses nothing modulo 2^64. */
  lemma MultiplyIsInjective(x: u64, y: u64)
    requires x * FNV_PRIME % TWO_TO_THE_64 == y * FNV_PRIME % TWO_TO_THE_64
    ensures x == y
  {
    OddMultiplierInvertible(x, FNV_PRIME, FNV_INVERSE, FNV_CARRY);
    OddMultiplierInvertible(y, FNV_PRIME, FNV_INVERSE, FNV_CARRY);
  }

  lemma OddMultiplierInvertible(x: u64, p: nat, inverse: nat, carry: nat)
    requires p * inverse == 1 + carry * TWO_TO_THE_64
    ensures x * p % TWO_TO_THE_64 * inverse % TWO_TO_THE_64 == x
  {
    var q, r := x * p / TWO_TO_THE_64, x * p % TWO_TO_THE_64;
    assert r == x * p - TWO_TO_THE_64 * q;
    calc {
      r * inverse;
      (x * p - TWO_TO_THE_64 * q) * inverse;
      x * p * inverse - TWO_TO_THE_64 * q * inverse;
      { assert x * p * inverse == x * (p * inverse); }
      x * (1 + carry * TWO_TO_THE_64) - TWO_TO_THE_64 * q * inverse;
      x + (x * carry - q * inverse) * TWO_TO_THE_64;
    }
    ModOfShifted(x, x * carry - q * inverse);
  }

  lemma ModOfShifted(x: u64, k: int)
    ensures (x + k * TWO_TO_THE_64) % TWO_TO_THE_64 == x
  {
  }

  lemma XorOfWords(h: u64, g: u64)
    ensures Xor(h, g) < TWO_TO_THE_64
  {
    Pow2Of64();
    XorFits(h, g, 64);
  }

  /** For a fixed byte, a checksum step is a bijection of the hash ... */
  lemma StepInjectiveInHash(h: u64, k: u64, b: byte)
    requires Step(h, b) == Step(k, b)
    ensures h == k
  {
    XorOfWords(h, b);
    XorOfWords(k, b);
    MultiplyIsInjective(Xor(h, b), Xor(k, b));
    XorUndoes(h, b);
    XorUndoes(k, b);
  }

  /** ... and for a fixed hash it tells all bytes apart. */
  lemma StepInjectiveInByte(h: u64, b: byte, c: byte)
    requires Step(h, b) == Step(h, c)
    ensures b == c
  {
    XorOfWords(h, b);
    XorOfWords(h, c);
    MultiplyIsInjective(Xor(h, b), Xor(h, c));
    XorCommutes(h, b);
    XorCommutes(h, c);
    XorUndoes(b, h);
    XorUndoes(c, h);
  }

  /** No two hashes are merged by a step, and no two bytes give the same step. */
  ghost predicate LosesNothing(step: (u64, byte) -> u64) {
    && (forall h, k, b :: step(h, b) == step(k, b) ==> h == k)
    && (forall h, b, c :: step(h, b) == step(h, c) ==> b == c)
  }

  lemma StepLosesNothing()
    ensures LosesNothing(Step)
  {
    forall h, k, b | Step(h, b) == Step(k, b)
      ensures h == k
    {
      StepInjectiveInHash(h, k, b);
    }
    forall h, b, c | Step(h, b) == Step(h, c)
      ensures b == c
    {
      StepInjectiveInByte(h, b, c);
    }
  }

  lemma {:induction false} FoldInjectiveInHash(step: (u64, byte) -> u64, h: u64, k: u64, data: Bytes)
    requires LosesNothing(step)
    requires Fold(step, h, data) == Fold(step, k, data)
    ensures h == k
    decreases data
  {
    if data != [] {
      FoldInjectiveInHash(step, step(h, data[0]), step(k, data[0]), data[1..]);
    }
  }

  lemma {:induction false} OneChangedByteChangesFold(step: (u64, byte) -> u64, hash: u64, s: Bytes, i: nat, b: byte)
    requires LosesNothing(step)
    requires i < |s| && s[i] != b
    ensures Fold(step, hash, s[i := b]) != Fold(step, hash, s)
    decreases s
  {
    var t := s[i := b];
    if i == 0 {
      assert t[1..] == s[1..];
      if Fold(step, hash, t) == Fold(step, hash, s) {
        FoldInjectiveInHash(step, step(hash, b), step(hash, s[0]), s[1..]);
      }
    } else {
      assert t[1..] == s[1..][i - 1 := b];
      OneChangedByteChangesFold(step, step(hash, s[0]), s[1..], i - 1, b);
    }
  }

  /** Changing exactly one byte of the data always changes the checksum. */
  lemma OneChangedByteChangesFnv(hash: u64, s: Bytes, i: nat, b: byte)
    requires i < |s| && s[i] != b
    ensures Fnv(hash, s[i := b]) != Fnv(hash, s)
  {
    StepLosesNothing();
    OneChangedByteChangesFold(Step, hash, s, i, b);
  }
}
