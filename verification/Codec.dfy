/**
 The strict binary codec of src/persistence.cpp, said once for every record.

 A `Format` describes what a reader demands; a `Val` is what it delivers. `Decode` is the
 reader run on the bytes that are left, `Encode` the writer. The theorems below hold for
 every format, and the records of the repository are instances.
 */
module Codec {
  import opened Basics
  import opened Checksum

  datatype Val =
    | Num(w: nat, n: nat)
    | Raw(bytes: Bytes)
    | Text(bytes: Bytes)
    | Flag(on: bool)
    | Pair(fst: Val, snd: Val)
    | List(items: seq<Val>)

  datatype Format =
    | FNum(w: nat)                                          // fixed width, little endian
    | FRaw(n: nat)                                          // exactly n bytes
    | FText                                                 // 32-bit length, then that many bytes
    | FBlob(limit: nat)                                     // the same, with a limit on the length
    | FFlag                                                 // one byte, zero or not
    | FGuard(base: Format, ok: Val -> bool, err: ErrorCode) // decoded, then validated
    | FPair(fst: Format, snd: Format)
    | FList(cap: nat, elem: Format, keyed: bool)            // 32-bit count, then elements

  datatype Parsed = Got(v: Val, rest: Bytes) | Bad(err: ErrorCode)

  /** Elements of a keyed list are told apart by their first component, the identity. */
  function Key(v: Val): Val {
    if v.Pair? then v.fst else v
  }

  predicate KeySeen(seen: seq<Val>, v: Val) {
    exists i :: 0 <= i < |seen| && Key(seen[i]) == Key(v)
  }

  predicate KeysDistinct(items: seq<Val>) {
    forall i, j :: 0 <= i < j < |items| ==> Key(items[i]) != Key(items[j])
  }

  function Then(v: Val, p: Parsed): Parsed {
    match p
    case Got(w, rest) => Got(Pair(v, w), rest)
    case Bad(e) => Bad(e)
  }

  function Decode(f: Format, s: Bytes): Parsed
    decreases f, 0
  {
    match f
    case FNum(w) => if |s| < w then Bad(Truncation) else Got(Num(w, UnLE(s[..w])), s[w..])
    case FRaw(n) => if |s| < n then Bad(Truncation) else Got(Raw(s[..n]), s[n..])
    case FText =>
      if |s| < 4 then Bad(Truncation)
      else
        var n := UnLE(s[..4]);
        if n > |s| - 4 then Bad(Malformed) else Got(Text(s[4..4 + n]), s[4 + n..])
    case FBlob(limit) =>
      if |s| < 4 then Bad(Truncation)
      else
        var n := UnLE(s[..4]);
        if n > limit then Bad(Malformed)
        else if n > |s| - 4 then Bad(Truncation)
        else Got(Text(s[4..4 + n]), s[4 + n..])
    case FFlag => if |s| < 1 then Bad(Truncation) else Got(Flag(s[0] != 0), s[1..])
    case FGuard(base, ok, err) =>
      (match Decode(base, s)
       case Got(v, rest) => if ok(v) then Got(v, rest) else Bad(err)
       case Bad(e) => Bad(e))
    case FPair(a, b) =>
      (match Decode(a, s)
       case Got(v, rest) => Then(v, Decode(b, rest))
       case Bad(e) => Bad(e))
    case FList(cap, elem, keyed) =>
      if |s| < 4 then Bad(Truncation)
      else
        var n := UnLE(s[..4]);
        if n > cap then Bad(Malformed) else DecodeMany(elem, keyed, n, [], s[4..])
  }

  function DecodeMany(elem: Format, keyed: bool, n: nat, acc: seq<Val>, s: Bytes): Parsed
    decreases elem, n
  {
    if n == 0 then Got(List(acc), s)
    else
      match Decode(elem, s)
      case Bad(e) => Bad(e)
      case Got(v, rest) =>
        if keyed && KeySeen(acc, v) then Bad(Duplicate)
        else DecodeMany(elem, keyed, n - 1, acc + [v], rest)
  }

  /** What the writer appends. Lengths and counts are cut to 32 bits, as the casts do. */
  function Encode(v: Val): Bytes
    decreases v
  {
    match v
    case Num(w, n) => LE(n, w)
    case Raw(b) => b
    case Text(b) => LE(|b|, 4) + b
    case Flag(on) => [if on then 1 else 0]
    case Pair(a, b) => Encode(a) + Encode(b)
    case List(items) => LE(|items|, 4) + EncodeAll(items)
  }

  function EncodeAll(items: seq<Val>): Bytes
    decreases items
  {
    if items == [] then [] else Encode(items[0]) + EncodeAll(items[1..])
  }

  /** `v` has the shape, the sizes and the validity the format demands. */
  predicate Fits(f: Format, v: Val)
    decreases f
  {
    match f
    case FNum(w) => v.Num? && v.w == w && v.n < Pow256(w)
    case FRaw(n) => v.Raw? && |v.bytes| == n
    case FText => v.Text? && |v.bytes| < TWO_TO_THE_32
    case FBlob(limit) => v.Text? && |v.bytes| < TWO_TO_THE_32 && |v.bytes| <= limit
    case FFlag => v.Flag?
    case FGuard(base, ok, err) => Fits(base, v) && ok(v)
    case FPair(a, b) => v.Pair? && Fits(a, v.fst) && Fits(b, v.snd)
    case FList(cap, elem, keyed) =>
      && v.List? && |v.items| <= cap && |v.items| < TWO_TO_THE_32
      && (forall i :: 0 <= i < |v.items| ==> Fits(elem, v.items[i]))
      && (keyed ==> KeysDistinct(v.items))
  }

  /** The byte strings a reader takes for `v`: its encoding, with any non-zero byte for a true flag. */
  predicate Spells(v: Val, p: Bytes)
    decreases v
  {
    match v
    case Num(w, n) => p == LE(n, w)
    case Raw(b) => p == b
    case Text(b) => p == LE(|b|, 4) + b
    case Flag(on) => |p| == 1 && on == (p[0] != 0)
    case Pair(a, b) =>
      var k := |Encode(a)|;
      |p| >= k && Spells(a, p[..k]) && Spells(b, p[k..])
    case List(items) => |p| >= 4 && p[..4] == LE(|items|, 4) && SpellsAll(items, p[4..])
  }

  predicate SpellsAll(items: seq<Val>, p: Bytes)
    decreases items
  {
    if items == [] then p == []
    else
      var k := |Encode(items[0])|;
      |p| >= k && Spells(items[0], p[..k]) && SpellsAll(items[1..], p[k..])
  }

  /** Every flag byte of a spelling of `v` is 0 or 1. */
  predicate PlainFlags(v: Val, p: Bytes)
    requires Spells(v, p)
    decreases v
  {
    match v
    case Flag(on) => p[0] <= 1
    case Pair(a, b) => PlainFlags(a, p[..|Encode(a)|]) && PlainFlags(b, p[|Encode(a)|..])
    case List(items) => PlainFlagsAll(items, p[4..])
    case _ => true
  }

  predicate PlainFlagsAll(items: seq<Val>, p: Bytes)
    requires SpellsAll(items, p)
    decreases items
  {
    items == [] ||
    var k := |Encode(items[0])|;
    PlainFlags(items[0], p[..k]) && PlainFlagsAll(items[1..], p[k..])
  }

  /** The clauses of `Fits`, one per format. */
  lemma FitsClauses()
    ensures forall w, v {:trigger Fits(FNum(w), v)} :: Fits(FNum(w), v) <==> v.Num? && v.w == w && v.n < Pow256(w)
    ensures forall n, v {:trigger Fits(FRaw(n), v)} :: Fits(FRaw(n), v) <==> v.Raw? && |v.bytes| == n
    ensures forall v {:trigger Fits(FText, v)} :: Fits(FText, v) <==> v.Text? && |v.bytes| < TWO_TO_THE_32
    ensures forall n, v {:trigger Fits(FBlob(n), v)} ::
              Fits(FBlob(n), v) <==> v.Text? && |v.bytes| < TWO_TO_THE_32 && |v.bytes| <= n
    ensures forall v {:trigger Fits(FFlag, v)} :: Fits(FFlag, v) <==> v.Flag?
    ensures forall f, ok, e, v {:trigger Fits(FGuard(f, ok, e), v)} ::
              Fits(FGuard(f, ok, e), v) <==> Fits(f, v) && ok(v)
    ensures forall a, b, v {:trigger Fits(FPair(a, b), v)} ::
              Fits(FPair(a, b), v) <==> v.Pair? && Fits(a, v.fst) && Fits(b, v.snd)
    ensures forall cap, f, keyed, v {:trigger Fits(FList(cap, f, keyed), v)} ::
              Fits(FList(cap, f, keyed), v) <==>
                && v.List? && |v.items| <= cap && |v.items| < TWO_TO_THE_32
                && (forall i :: 0 <= i < |v.items| ==> Fits(f, v.items[i]))
                && (keyed ==> KeysDistinct(v.items))
  {
    hide KeysDistinct, Pow256;
  }

  lemma {:induction false} SpellingsHaveOneWidth(v: Val, p: Bytes)
    requires Spells(v, p)
    ensures |p| == |Encode(v)|
    decreases v
  {
    match v
    case Pair(a, b) =>
      SpellingsHaveOneWidth(a, p[..|Encode(a)|]);
      SpellingsHaveOneWidth(b, p[|Encode(a)|..]);
    case List(items) => SpellingsOfAllHaveOneWidth(items, p[4..]);
    case _ =>
  }

  lemma {:induction false} SpellingsOfAllHaveOneWidth(items: seq<Val>, p: Bytes)
    requires SpellsAll(items, p)
    ensures |p| == |EncodeAll(items)|
    decreases items
  {
    if items != [] {
      SpellingsHaveOneWidth(items[0], p[..|Encode(items[0])|]);
      SpellingsOfAllHaveOneWidth(items[1..], p[|Encode(items[0])|..]);
    }
  }

  lemma SpellsConcat(v: Val, w: Val, p: Bytes, q: Bytes)
    requires Spells(v, p) && Spells(w, q)
    ensures Spells(Pair(v, w), p + q)
  {
    SpellingsHaveOneWidth(v, p);
    assert (p + q)[..|p|] == p && (p + q)[|p|..] == q;
  }

  lemma SpellsAllConcat(v: Val, items: seq<Val>, p: Bytes, q: Bytes)
    requires Spells(v, p) && SpellsAll(items, q)
    ensures SpellsAll([v] + items, p + q)
  {
    SpellingsHaveOneWidth(v, p);
    assert (p + q)[..|p|] == p && (p + q)[|p|..] == q;
    assert ([v] + items)[1..] == items;
  }

  /** Whatever the reader delivers fits its format and was spelled by exactly the bytes it took. */
  lemma {:induction false} DecodeIsSound(f: Format, s: Bytes) returns (p: Bytes)
    requires Decode(f, s).Got?
    ensures Fits(f, Decode(f, s).v)
    ensures s == p + Decode(f, s).rest && Spells(Decode(f, s).v, p)
    decreases f, 0
  {
    match f
    case FNum(w) => LEInvertsUnLE(s[..w]); p := s[..w];
    case FRaw(n) => p := s[..n];
    case FText => p := TextIsSound(s);
    case FBlob(limit) => p := TextIsSound(s);
    case FFlag => p := s[..1];
    case FGuard(base, ok, err) => p := DecodeIsSound(base, s);
    case FPair(a, b) =>
      var pa := DecodeIsSound(a, s);
      var mid := Decode(a, s).rest;
      var pb := DecodeIsSound(b, mid);
      SpellsConcat(Decode(a, s).v, Decode(b, mid).v, pa, pb);
      ConcatAssociates(pa, pb, Decode(b, mid).rest);
      p := pa + pb;
    case FList(cap, elem, keyed) =>
      var n := UnLE(s[..4]);
      LEInvertsUnLE(s[..4]);
      WidthsOfWords();
      var more, q := DecodeManyIsSound(elem, keyed, n, [], s[4..]);
      assert [] + more == more;
      p := s[..4] + q;
      assert p[4..] == q;
  }

  lemma TextIsSound(s: Bytes) returns (p: Bytes)
    requires |s| >= 4 && UnLE(s[..4]) <= |s| - 4
    ensures var n := UnLE(s[..4]);
      n < TWO_TO_THE_32 && s == p + s[4 + n..] && Spells(Text(s[4..4 + n]), p)
  {
    LEInvertsUnLE(s[..4]);
    WidthsOfWords();
    var n := UnLE(s[..4]);
    p := s[..4] + s[4..4 + n];
  }

  lemma NewKeyKeepsDistinct(items: seq<Val>, v: Val)
    requires KeysDistinct(items) && !KeySeen(items, v)
    ensures KeysDistinct(items + [v])
  {
  }

  lemma NextKeyIsNew(seen: seq<Val>, items: seq<Val>)
    requires items != [] && KeysDistinct(seen + items)
    ensures !KeySeen(seen, items[0])
  {
    forall i | 0 <= i < |seen|
      ensures Key(seen[i]) != Key(items[0])
    {
      assert Key((seen + items)[i]) != Key((seen + items)[|seen|]);
    }
  }

  lemma {:induction false} DecodeManyIsSound(elem: Format, keyed: bool, n: nat, acc: seq<Val>, s: Bytes)
    returns (more: seq<Val>, p: Bytes)
    requires DecodeMany(elem, keyed, n, acc, s).Got?
    requires keyed ==> KeysDistinct(acc)
    ensures var d := DecodeMany(elem, keyed, n, acc, s);
      && d.v == List(acc + more) && |more| == n
      && (forall i :: 0 <= i < n ==> Fits(elem, more[i]))
      && (keyed ==> KeysDistinct(acc + more))
      && s == p + d.rest && SpellsAll(more, p)
    decreases elem, n
  {
    if n == 0 {
      more, p := [], [];
      assert acc + more == acc;
    } else {
      var d := Decode(elem, s);
      var q := DecodeIsSound(elem, s);
      if keyed {
        NewKeyKeepsDistinct(acc, d.v);
      }
      var tail, r := DecodeManyIsSound(elem, keyed, n - 1, acc + [d.v], d.rest);
      more, p := [d.v] + tail, q + r;
      assert acc + more == acc + [d.v] + tail;
      SpellsAllConcat(d.v, tail, q, r);
      ConcatAssociates(q, r, DecodeMany(elem, keyed, n, acc, s).rest);
    }
  }

  /** Every spelling of a value that fits is accepted, whatever follows it. */
  lemma {:induction false} DecodeIsComplete(f: Format, v: Val, p: Bytes, rest: Bytes)
    requires Fits(f, v) && Spells(v, p)
    ensures Decode(f, p + rest) == Got(v, rest)
    decreases f, 0
  {
    var s := p + rest;
    match f
    case FNum(w) => UnLEInvertsLE(v.n, w); assert s[..w] == p && s[w..] == rest;
    case FRaw(n) => assert s[..n] == p && s[n..] == rest;
    case FText => TextIsComplete(v.bytes, p, rest);
    case FBlob(limit) => TextIsComplete(v.bytes, p, rest);
    case FFlag => assert s[1..] == rest;
    case FGuard(base, ok, err) => DecodeIsComplete(base, v, p, rest);
    case FPair(a, b) =>
      var k := |Encode(v.fst)|;
      assert p + rest == p[..k] + (p[k..] + rest);
      DecodeIsComplete(a, v.fst, p[..k], p[k..] + rest);
      DecodeIsComplete(b, v.snd, p[k..], rest);
    case FList(cap, elem, keyed) =>
      WidthsOfWords();
      UnLEInvertsLE(|v.items|, 4);
      assert s[..4] == p[..4] && s[4..] == p[4..] + rest;
      assert [] + v.items == v.items;
      DecodeManyIsComplete(elem, keyed, [], v.items, p[4..], rest);
  }

  lemma TextIsComplete(b: Bytes, p: Bytes, rest: Bytes)
    requires |b| < TWO_TO_THE_32 && Spells(Text(b), p)
    ensures var s := p + rest;
      && |s| >= 4 && UnLE(s[..4]) == |b| && |b| <= |s| - 4
      && s[4..4 + |b|] == b && s[4 + |b|..] == rest
  {
    WidthsOfWords();
    UnLEInvertsLE(|b|, 4);
    assert (p + rest)[..4] == LE(|b|, 4);
  }

  lemma {:induction false} DecodeManyIsComplete(
      elem: Format, keyed: bool, acc: seq<Val>, items: seq<Val>, p: Bytes, rest: Bytes)
    requires forall i :: 0 <= i < |items| ==> Fits(elem, items[i])
    requires keyed ==> KeysDistinct(acc + items)
    requires SpellsAll(items, p)
    ensures DecodeMany(elem, keyed, |items|, acc, p + rest) == Got(List(acc + items), rest)
    decreases elem, |items|
  {
    if items == [] {
      assert p + rest == rest && acc + items == acc;
    } else {
      var v := items[0];
      var k := |Encode(v)|;
      assert p + rest == p[..k] + (p[k..] + rest);
      DecodeIsComplete(elem, v, p[..k], p[k..] + rest);
      if keyed {
        NextKeyIsNew(acc, items);
      }
      assert acc + items == acc + [v] + items[1..];
      DecodeManyIsComplete(elem, keyed, acc + [v], items[1..], p[k..], rest);
    }
  }

  /** The encoding is a spelling, and the only one whose flag bytes are 0 or 1. */
  lemma {:induction false} EncodeIsThePlainSpelling(v: Val, p: Bytes)
    requires Spells(v, p)
    ensures p == Encode(v) <==> PlainFlags(v, p)
    decreases v
  {
    SpellingsHaveOneWidth(v, p);
    match v
    case Pair(a, b) =>
      var k := |Encode(a)|;
      EncodeIsThePlainSpelling(a, p[..k]);
      EncodeIsThePlainSpelling(b, p[k..]);
      assert p == p[..k] + p[k..];
      assert Encode(v)[..k] == Encode(a) && Encode(v)[k..] == Encode(b);
    case List(items) =>
      EncodeAllIsThePlainSpelling(items, p[4..]);
      assert p == p[..4] + p[4..];
      assert Encode(v)[4..] == EncodeAll(items);
    case _ =>
  }

  lemma {:induction false} EncodeAllIsThePlainSpelling(items: seq<Val>, p: Bytes)
    requires SpellsAll(items, p)
    ensures p == EncodeAll(items) <==> PlainFlagsAll(items, p)
    decreases items
  {
    if items != [] {
      var k := |Encode(items[0])|;
      EncodeIsThePlainSpelling(items[0], p[..k]);
      EncodeAllIsThePlainSpelling(items[1..], p[k..]);
      assert p == p[..k] + p[k..];
      assert EncodeAll(items)[..k] == Encode(items[0]) && EncodeAll(items)[k..] == EncodeAll(items[1..]);
    }
  }

  lemma {:induction false} EncodeSpells(v: Val)
    ensures Spells(v, Encode(v))
    decreases v
  {
    match v
    case Pair(a, b) =>
      EncodeSpells(a);
      EncodeSpells(b);
      SpellsConcat(a, b, Encode(a), Encode(b));
    case List(items) =>
      EncodeAllSpells(items);
      assert Encode(v)[4..] == EncodeAll(items);
    case _ =>
  }

  lemma {:induction false} EncodeAllSpells(items: seq<Val>)
    ensures SpellsAll(items, EncodeAll(items))
    decreases items
  {
    if items != [] {
      EncodeSpells(items[0]);
      EncodeAllSpells(items[1..]);
      assert [items[0]] + items[1..] == items;
      SpellsAllConcat(items[0], items[1..], Encode(items[0]), EncodeAll(items[1..]));
    }
  }
}
