/** What the words and texts of the checksum, the identities and the digest spell, digit by digit. */
module Texts {
  import opened Basics
  import opened Checksum
  import opened Records
  import opened Compositions
  import opened Layout
  import Rng
  import Uuids

  // ---- words ----

  predicate Bit(n: nat, k: nat) { Rng.ShiftRight(n, k) % 2 == 1 }

  lemma {:induction false} ShiftDivides(z: nat, k: nat)
    ensures Rng.ShiftRight(z, k) == z / Pow2(k)
  {
    if k > 0 {
      ShiftDivides(z / 2, k - 1);
      DivideTwice(z, Pow2(k - 1));
    }
  }

  lemma DivideTwice(z: nat, p: nat)
    requires p > 0
    ensures z / 2 / p == z / (2 * p)
  {
    var q, r := z / (2 * p), z % (2 * p);
    assert z == q * (2 * p) + r;
    var h := r / 2;
    assert z / 2 == q * p + h by {
      assert z == 2 * (q * p) + r;
    }
    assert 0 <= h < p;
    QuotientIs(z / 2, p, q, h);
  }

  lemma Multiple(d: int, p: nat)
    ensures d >= 1 ==> d * p >= p
    ensures d <= -1 ==> d * p <= 0 - p
  {
    if d >= 1 {
      assert (d - 1) * p >= 0;
    } else {
      assert (-d) * p >= 0;
      if d <= -1 {
        assert (-d - 1) * p >= 0;
      }
    }
  }

  lemma QuotientIs(n: nat, p: nat, q: nat, h: nat)
    requires n == q * p + h && h < p
    ensures n / p == q
  {
    var d := n / p - q;
    assert n == n / p * p + n % p;
    assert d * p == n / p * p - q * p;
    Multiple(d, p);
  }

  lemma ParityOfSum(a: nat, b: nat)
    ensures (a + b) % 2 == 1 <==> a % 2 != b % 2
  {
  }

  /** The exclusive or, bit by bit. */
  lemma {:induction false} XorBit(a: nat, b: nat, k: nat)
    ensures Bit(Xor(a, b), k) <==> Bit(a, k) != Bit(b, k)
  {
    hide Xor;
    XorUnfolds(a, b);
    if k == 0 {
      ParityOfSum(a, b);
    } else {
      XorBit(a / 2, b / 2, k - 1);
    }
  }

  lemma HalfOfRemainder(a: nat, p: nat)
    requires p > 0
    ensures a % (2 * p) / 2 == a / 2 % p && a % (2 * p) % 2 == a % 2
  {
    var q, r := a / 2 / p, a / 2 % p;
    assert a == 2 * (q * p) + 2 * r + a % 2;
    assert 2 * (q * p) == q * (2 * p);
    RemainderIs(a, 2 * p, q, 2 * r + a % 2);
  }

  lemma RemainderIs(n: nat, p: nat, q: nat, r: nat)
    requires n == q * p + r && r < p
    ensures n % p == r
  {
    QuotientIs(n, p, q, r);
  }

  /** Xor-ing a short word in touches the low bits only. */
  lemma {:induction false} XorAbove(a: nat, c: nat, k: nat)
    requires c < Pow2(k)
    ensures Xor(a, c) == a - a % Pow2(k) + Xor(a % Pow2(k), c)
  {
    if k == 0 {
      XorWithZero(a);
    } else {
      var p := Pow2(k - 1);
      XorAbove(a / 2, c / 2, k - 1);
      HalfOfRemainder(a, p);
      HalvesOfXor(a, c);
      HalvesOfXor(a % (2 * p), c);
    }
  }

  lemma HalvesOfXor(a: nat, b: nat)
    ensures Xor(a, b) == (a % 2 + b) % 2 + 2 * Xor(a / 2, b / 2)
  {
    SameParity(a, b);
    XorUnfolds(a, b);
  }

  lemma SameParity(a: nat, b: nat)
    ensures (a + b) % 2 == (a % 2 + b) % 2
  {
  }

  lemma XorUnfolds(a: nat, b: nat)
    ensures Xor(a, b) == (a + b) % 2 + 2 * Xor(a / 2, b / 2)
  {
    if a == 0 && b == 0 {
      assert Xor(0, 0) == 0;
    }
  }

  lemma {:induction false} XorWithZero(b: nat)
    ensures Xor(b, 0) == b
  {
    if b > 0 {
      XorWithZero(b / 2);
    }
  }

  /**
   One checksum step: the byte goes into the low byte of the hash first, the upper bytes stay, and then the
   hash is multiplied.
   */
  lemma StepOfLowByte(h: u64, b: byte)
    ensures Step(h, b) == (h - h % 256 + Xor(h % 256, b)) * FNV_PRIME % TWO_TO_THE_64
    ensures h % 256 == 0 ==> Step(h, b) == (h + b) * FNV_PRIME % TWO_TO_THE_64
  {
    hide Xor;
    LowByte(h, b);
    XorOfWords(h, b);
  }

  lemma LowByte(h: nat, b: byte)
    ensures Xor(h, b) == h - h % 256 + Xor(h % 256, b)
    ensures h % 256 == 0 ==> Xor(h, b) == h + b
  {
    hide Xor;
    assert Pow2(8) == 256;
    XorAbove(h, b, 8);
    if h % 256 == 0 {
      XorCommutes(0, b);
      XorWithZero(b);
    }
  }

  // ---- digits ----

  function DecimalValue(t: Bytes): int {
    if t == [] then 0
    else
      var last: int := t[|t| - 1];
      DecimalValue(t[..|t| - 1]) * 10 + last - 48
  }

  /** A decimal number is read back from its digits, the first of which is not a zero unless it is the only one. */
  lemma {:induction false} DecimalReads(n: nat)
    ensures DecimalValue(Decimal(n)) == n
    ensures |Decimal(n)| > 1 ==> Decimal(n)[0] != 48
    ensures n > 0 ==> Decimal(n)[0] != 48
  {
    var t := Decimal(n);
    if n >= 10 {
      DecimalReads(n / 10);
      assert t[..|t| - 1] == Decimal(n / 10);
    } else {
      assert t[..0] == [];
    }
  }

  lemma {:induction false} HexAt(b: Bytes, i: nat)
    requires i < |b|
    ensures HexEncode(b)[2 * i] == Uuids.HexDigit(b[i] / 16)
    ensures HexEncode(b)[2 * i + 1] == Uuids.HexDigit(b[i] % 16)
  {
    if i > 0 {
      HexAt(b[1..], i - 1);
    }
  }

  lemma NibbleOfDigit(n: nat)
    requires n < 16
    ensures Uuids.Nibble(Uuids.HexDigit(n)) == n
  {
  }

  /** Two hexadecimal digits for every byte, the upper one first. */
  lemma HexReads(b: Bytes, i: nat)
    requires i < |b|
    ensures var hi, lo := Uuids.Nibble(HexEncode(b)[2 * i]), Uuids.Nibble(HexEncode(b)[2 * i + 1]);
      0 <= hi && 0 <= lo && b[i] == 16 * hi + lo
  {
    hide HexEncode, Uuids.HexDigit, Uuids.Nibble;
    var x := b[i];
    HexAt(b, i);
    NibbleOfDigit(x / 16);
    NibbleOfDigit(x % 16);
  }

  lemma HexAtAny(u: Uuid, from: nat, to: nat, p: nat)
    requires from <= to <= 16 && p < 2 * (to - from)
    ensures HexEncode(u[from..to])[p] == Uuids.HexDigit(Uuids.Digit(u, 2 * from + p))
  {
    hide HexEncode, Uuids.HexDigit;
    var k := p / 2;
    HexAt(u[from..to], k);
    assert u[from..to][k] == u[from + k];
    assert p == 2 * k || p == 2 * k + 1;
    assert (2 * from + p) / 2 == from + k && (2 * from + p) % 2 == p % 2;
  }

  /** Text position `start + p` holds digit `p` counted from byte `from`. */
  predicate InGroup(start: nat, from: nat, p: nat) {
    !Uuids.DashAt(start + p) && Uuids.DigitsBefore(start + p) == 2 * from + p
  }

  lemma GroupIsHex(u: Uuid, from: nat, to: nat, start: nat)
    requires from <= to <= 16 && start + 2 * (to - from) <= 36
    requires forall p: nat :: p < 2 * (to - from) ==> InGroup(start, from, p)
    ensures Uuids.Text(u)[start..start + 2 * (to - from)] == HexEncode(u[from..to])
  {
    hide HexEncode, Uuids.HexDigit, Uuids.Digit, Uuids.DigitsBefore, Uuids.DashAt;
    var g := HexEncode(u[from..to]);
    forall p | 0 <= p < 2 * (to - from)
      ensures Uuids.Text(u)[start + p] == g[p]
    {
      HexAtAny(u, from, to, p);
      assert InGroup(start, from, p);
    }
  }

  lemma NineParts(t: Bytes)
    requires |t| == 36
    ensures t == t[0..8] + [t[8]] + t[9..13] + [t[13]] + t[14..18] + [t[18]] + t[19..23] + [t[23]] + t[24..36]
  {
  }

  lemma Dashes(u: Uuid)
    ensures var t := Uuids.Text(u);
      t[8] == Uuids.DASH && t[13] == Uuids.DASH && t[18] == Uuids.DASH && t[23] == Uuids.DASH
  {
  }

  /** An identity is written in five groups of hexadecimal digits. */
  lemma TextIsHexInGroups(u: Uuid)
    ensures var dash := [Uuids.DASH];
      Uuids.Text(u) == HexEncode(u[..4]) + dash + HexEncode(u[4..6]) + dash + HexEncode(u[6..8]) + dash
                       + HexEncode(u[8..10]) + dash + HexEncode(u[10..])
  {
    hide HexEncode, Uuids.Text;
    GroupIsHex(u, 0, 4, 0);
    GroupIsHex(u, 4, 6, 9);
    GroupIsHex(u, 6, 8, 14);
    GroupIsHex(u, 8, 10, 19);
    GroupIsHex(u, 10, 16, 24);
    assert u[0..4] == u[..4] && u[10..16] == u[10..];
    NineParts(Uuids.Text(u));
    Dashes(u);
  }

  // ---- the hashed text of a composition ----

  const BAR: Bytes := [124]
  const SEMICOLON: Bytes := [59]
  const AT_SIGN: Bytes := [64]

  function MemberTexts(m: CompositionMember): seq<Bytes> {
    [Uuids.Text(m.adapterId), BAR, Uuids.Text(m.revision), BAR, Decimal(m.generation), BAR, Decimal(m.memoryBytes),
     BAR, Decimal(m.kind), SEMICOLON]
  }

  lemma FieldIsPieces(text: Bytes, end: byte, ps: seq<Bytes>, rest: Bytes)
    ensures Field(text, end, Flat(ps) + rest) == Flat([text, [end]] + ps) + rest
  {
    FlatConcat([text, [end]], ps);
    FlatConcat([text], [[end]]);
    FlatOne(text);
    FlatOne([end]);
    assert [text, [end]] == [text] + [[end]];
  }

  lemma FiveFields(a: Bytes, b: Bytes, c: Bytes, d: Bytes, e: Bytes, rest: Bytes)
    ensures Field(a, 124, Field(b, 124, Field(c, 124, Field(d, 124, Field(e, 59, rest))))) ==
            Flat([a, BAR, b, BAR, c, BAR, d, BAR, e, SEMICOLON]) + rest
  {
    hide Flat, Field;
    assert Flat([]) + rest == rest by { FlatNothing(); }
    FieldIsPieces(e, 59, [], rest);
    FieldIsPieces(d, 124, [e, SEMICOLON], rest);
    FieldIsPieces(c, 124, [d, BAR, e, SEMICOLON], rest);
    FieldIsPieces(b, 124, [c, BAR, d, BAR, e, SEMICOLON], rest);
    FieldIsPieces(a, 124, [b, BAR, c, BAR, d, BAR, e, SEMICOLON], rest);
    assert [e, SEMICOLON] == [e, SEMICOLON] + [];
    assert [d, BAR, e, SEMICOLON] == [d, BAR] + [e, SEMICOLON];
    assert [c, BAR, d, BAR, e, SEMICOLON] == [c, BAR] + [d, BAR, e, SEMICOLON];
    assert [b, BAR, c, BAR, d, BAR, e, SEMICOLON] == [b, BAR] + [c, BAR, d, BAR, e, SEMICOLON];
    assert [a, BAR, b, BAR, c, BAR, d, BAR, e, SEMICOLON] == [a, BAR] + [b, BAR, c, BAR, d, BAR, e, SEMICOLON];
  }

  lemma FlatNothing()
    ensures Flat([]) == []
  {
  }

  lemma {:induction false} CanonicalAsPieces(ms: seq<CompositionMember>, policy: Bytes)
    ensures Canonical(ms, policy) == Flat(Each(MemberTexts, ms)) + AT_SIGN + policy
  {
    hide Uuids.Text, Decimal;
    if ms != [] {
      var m := ms[0];
      CanonicalAsPieces(ms[1..], policy);
      FiveFields(Uuids.Text(m.adapterId), Uuids.Text(m.revision), Decimal(m.generation), Decimal(m.memoryBytes),
                 Decimal(m.kind), Canonical(ms[1..], policy));
      FlatConcat(MemberTexts(m), Each(MemberTexts, ms[1..]));
    }
  }

  function Bytewise(ms: seq<CompositionMember>): nat {
    if ms == [] then 0 else ms[0].memoryBytes + Bytewise(ms[1..])
  }

  /** The running total is the sum of all members' bytes, cut to 64 bits. */
  lemma {:induction false} TotalIsTheSum(ms: seq<CompositionMember>)
    ensures TotalMemory(ms) == Bytewise(ms) % TWO_TO_THE_64
  {
    if ms != [] {
      TotalIsTheSum(ms[..|ms| - 1]);
      SumSnoc(ms[..|ms| - 1], ms[|ms| - 1]);
      assert ms[..|ms| - 1] + [ms[|ms| - 1]] == ms;
      Rng.AddAfterModulo(Bytewise(ms[..|ms| - 1]), ms[|ms| - 1].memoryBytes);
    }
  }

  lemma {:induction false} SumSnoc(ms: seq<CompositionMember>, m: CompositionMember)
    ensures Bytewise(ms + [m]) == Bytewise(ms) + m.memoryBytes
  {
    if ms == [] {
      assert Bytewise([m]) == m.memoryBytes + Bytewise([]);
    } else {
      assert (ms + [m])[1..] == ms[1..] + [m];
      SumSnoc(ms[1..], m);
    }
  }
}
