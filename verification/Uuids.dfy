/** Canonical text of 128-bit identities (src/uuid.cpp), the layout of section 3 of RFC 4122. */
module Uuids {
  import opened Basics
  import R = Rng

  const DASH: byte := 45

  function HexDigit(n: nat): byte
    requires n < 16
  {
    if n < 10 then 48 + n else 97 + (n - 10)
  }

  /** The value of a hexadecimal digit, or -1. */
  function Nibble(c: byte): (v: int)
    ensures -1 <= v < 16
  {
    if 48 <= c <= 57 then c - 48
    else if 97 <= c <= 102 then c - 97 + 10
    else if 65 <= c <= 70 then c - 65 + 10
    else -1
  }

  function LowerCase(c: byte): byte {
    if 65 <= c <= 90 then c + 32 else c
  }

  function Lower(s: Bytes): Bytes {
    MapSeq(LowerCase, s)
  }

  predicate DashAt(p: int) { p == 8 || p == 13 || p == 18 || p == 23 }

  /** How many hexadecimal digits precede text position `p`. */
  function DigitsBefore(p: nat): nat {
    if p <= 8 then p
    else if p <= 13 then p - 1
    else if p <= 18 then p - 2
    else if p <= 23 then p - 3
    else p - 4
  }

  /** Hexadecimal digit number `n` of the 32 digits of an identity. */
  function Digit(u: Uuid, n: nat): (d: nat)
    requires n < 32
    ensures d < 16
  {
    if n % 2 == 0 then u[n / 2] / 16 else u[n / 2] % 16
  }

  function TextAt(u: Uuid, p: nat): byte
    requires p < 36
  {
    if DashAt(p) then DASH else HexDigit(Digit(u, DigitsBefore(p)))
  }

  /** The canonical 8-4-4-4-12 lowercase text. */
  function Text(u: Uuid): (t: Bytes)
    ensures |t| == 36
  {
    seq(36, p requires 0 <= p < 36 => TextAt(u, p))
  }

  method Str(u: Uuid) returns (text: Bytes)
    ensures text == Text(u)
  {
    var buf := new byte[36](_ => 0);
    var i, k := 0, 0;
    while k < 16
      invariant 0 <= k <= 16 && i <= 36
      invariant i == 2 * k + if k <= 4 then 0 else if k <= 6 then 1 else if k <= 8 then 2 else if k <= 10 then 3 else 4
      invariant forall p :: 0 <= p < i ==> buf[p] == TextAt(u, p)
    {
      if k == 4 || k == 6 || k == 8 || k == 10 {
        buf[i] := DASH;
        i := i + 1;
      }
      buf[i] := HexDigit(u[k] / 16);
      buf[i + 1] := HexDigit(u[k] % 16);
      i := i + 2;
      k := k + 1;
    }
    text := buf[..];
  }

  /** Accepts exactly the texts that are canonical up to letter case. */
  method Parse(s: Bytes) returns (res: Result<Uuid>)
    ensures res.Ok? <==> |s| == 36 && exists u: Uuid :: Lower(s) == Text(u)
    ensures res.Ok? ==> Lower(s) == Text(res.value)
    ensures res.Err? ==> res.code == InvalidIdentity
  {
    if |s| != 36 { return Err(InvalidIdentity); }
    var out := new byte[16](_ => 0);
    var di, i := 0, 0;
    while i < |s|
      invariant 0 <= i <= 36 && DigitsBefore(i) == 2 * di && di <= 16
      invariant i < 36 ==> DashAt(i) || (i + 1 < 36 && !DashAt(i + 1) && di < 16)
      invariant forall p :: 0 <= p < i ==> LowerCase(s[p]) == TextAt(out[..], p)
    {
      if DashAt(i) {
        if s[i] != DASH { NotText(s, i); return Err(InvalidIdentity); }
        i := i + 1;
        continue;
      }
      var hi, lo := Nibble(s[i]), Nibble(s[i + 1]);
      if hi < 0 || lo < 0 {
        NotText(s, if hi < 0 then i else i + 1);
        return Err(InvalidIdentity);
      }
      ghost var was := out[..];
      out[di] := hi * 16 + lo;
      ByteParsed(s, was, i, di, hi, lo);
      di := di + 1;
      i := i + 2;
    }
    assert Lower(s) == Text(out[..]);
    res := Ok(out[..]);
  }

  /** Two more digits parsed: the text agrees two positions further. */
  lemma ByteParsed(s: Bytes, was: Uuid, i: nat, di: nat, hi: nat, lo: nat)
    requires |s| == 36 && i + 1 < 36 && di < 16 && !DashAt(i) && !DashAt(i + 1) && DigitsBefore(i) == 2 * di
    requires hi == Nibble(s[i]) && lo == Nibble(s[i + 1])
    requires forall p :: 0 <= p < i ==> LowerCase(s[p]) == TextAt(was, p)
    ensures forall p :: 0 <= p < i + 2 ==> LowerCase(s[p]) == TextAt(was[di := hi * 16 + lo], p)
  {
    var now := was[di := hi * 16 + lo];
    forall p | 0 <= p < i + 2
      ensures LowerCase(s[p]) == TextAt(now, p)
    {
      if p < i {
        assert LowerCase(s[p]) == TextAt(was, p);
        assert DashAt(p) || DigitsBefore(p) / 2 < di;
      } else {
        DigitOfNibble(s[p]);
        assert Digit(now, 2 * di) == hi && Digit(now, 2 * di + 1) == lo;
      }
    }
  }

  lemma DigitOfNibble(c: byte)
    requires Nibble(c) >= 0
    ensures HexDigit(Nibble(c)) == LowerCase(c)
  {
  }

  lemma NotText(s: Bytes, p: nat)
    requires |s| == 36 && p < 36
    requires if DashAt(p) then s[p] != DASH else Nibble(s[p]) < 0
    ensures forall u: Uuid :: Lower(s) != Text(u)
  {
    forall u: Uuid
      ensures Lower(s) != Text(u)
    {
      assert Lower(s)[p] != Text(u)[p];
    }
  }

  /** Texts determine identities, so a map keyed by text is a map keyed by identity. */
  lemma TextInjective(u: Uuid, v: Uuid)
    requires Text(u) == Text(v)
    ensures u == v
  {
    forall k | 0 <= k < 16
      ensures u[k] == v[k]
    {
      SameDigit(u, v, 2 * k);
      SameDigit(u, v, 2 * k + 1);
    }
  }

  lemma SameDigit(u: Uuid, v: Uuid, n: nat)
    requires n < 32 && Text(u) == Text(v)
    ensures Digit(u, n) == Digit(v, n)
  {
    var p := if n < 8 then n else if n < 12 then n + 1 else if n < 16 then n + 2 else if n < 20 then n + 3 else n + 4;
    assert DigitsBefore(p) == n && !DashAt(p);
    assert Text(u)[p] == HexDigit(Digit(u, n)) && Text(v)[p] == HexDigit(Digit(v, n));
    HexDigitInjective(Digit(u, n), Digit(v, n));
  }

  lemma HexDigitInjective(m: nat, n: nat)
    requires m < 16 && n < 16 && HexDigit(m) == HexDigit(n)
    ensures m == n
  {
  }

  lemma TextIsLowerCase(u: Uuid)
    ensures Lower(Text(u)) == Text(u)
  {
    forall p | 0 <= p < 36
      ensures LowerCase(TextAt(u, p)) == TextAt(u, p)
    {
    }
  }

  /** Printing and parsing again gives back the identity. */
  method ParseOfStr(u: Uuid) returns (res: Result<Uuid>)
    ensures res == Ok(u)
  {
    var text := Str(u);
    TextIsLowerCase(u);
    res := Parse(text);
    TextInjective(u, res.value);
  }

  /** A version 4 identity drawn from the generator; it is never nil. */
  method Generate(rng: R.Rng) returns (u: Uuid)
    modifies rng
    ensures u[6] / 16 == 4 && u[8] / 64 == 2
    ensures u != NIL
    ensures var drawn := R.Stream(old(rng.state), 16);
      && u[6] % 16 == drawn[6] % 16 && u[8] % 64 == drawn[8] % 64
      && forall k :: 0 <= k < 16 && k != 6 && k != 8 ==> u[k] == drawn[k]
  {
    var bytes := new byte[16](_ => 0);
    rng.Fill(bytes);
    bytes[6] := bytes[6] % 16 + 0x40;
    bytes[8] := bytes[8] % 64 + 0x80;
    u := bytes[..];
    assert u[6] != NIL[6];
  }
}
