/** Sealed payloads (a checksum closes them) and the writer and reader of src/persistence.cpp. */
module Envelope {
  import opened Basics
  import opened Checksum
  import opened Codec

  function Seal(payload: Bytes): (sealed: Bytes)
    ensures |sealed| == |payload| + 8
  {
    payload + LE(Fnv(FNV_START, payload), 8)
  }

  /** The checks of the reader's constructor. */
  function Open(bytes: Bytes): Result<Bytes> {
    if |bytes| < 8 then Err(Malformed)
    else
      var payload := bytes[..|bytes| - 8];
      if Fnv(FNV_START, payload) != UnLE(bytes[|bytes| - 8..]) then Err(ChecksumMismatch) else Ok(payload)
  }

  /** Open, decode one value, and demand that nothing is left. */
  function Unseal(f: Format, bytes: Bytes): Result<Val> {
    match Open(bytes)
    case Err(e) => Err(e)
    case Ok(payload) => Finish(Decode(f, payload))
  }

  function Finish(parsed: Parsed): Result<Val> {
    match parsed
    case Bad(e) => Err(e)
    case Got(v, rest) => if rest == [] then Ok(v) else Err(TrailingGarbage)
  }

  lemma OpenSeal(payload: Bytes)
    ensures Open(Seal(payload)) == Ok(payload)
  {
    var sealed := Seal(payload);
    WidthsOfWords();
    UnLEInvertsLE(Fnv(FNV_START, payload), 8);
    assert sealed[..|sealed| - 8] == payload;
  }

  lemma SealOpen(bytes: Bytes)
    requires Open(bytes).Ok?
    ensures Seal(Open(bytes).value) == bytes
  {
    hide LE, UnLE, Fold;
    var n := |bytes| - 8;
    LEInvertsUnLE(bytes[n..]);
    assert bytes == bytes[..n] + bytes[n..];
  }

  /** Exactly what is accepted: the sealed spellings of the values that fit. */
  lemma AcceptedExactly(f: Format, bytes: Bytes, v: Val)
    ensures Unseal(f, bytes) == Ok(v) <==>
            |bytes| >= 8 && var p := bytes[..|bytes| - 8]; bytes == Seal(p) && Fits(f, v) && Spells(v, p)
  {
    if Unseal(f, bytes) == Ok(v) {
      SealOpen(bytes);
      var p := DecodeIsSound(f, Open(bytes).value);
      assert p + [] == p;
    }
    if |bytes| >= 8 && var p := bytes[..|bytes| - 8]; bytes == Seal(p) && Fits(f, v) && Spells(v, p) {
      var p := bytes[..|bytes| - 8];
      OpenSeal(p);
      DecodeIsComplete(f, v, p, []);
      assert p + [] == p;
    }
  }

  /** Writing then reading gives the value back exactly when the value fits the format. */
  lemma RoundTripExactly(f: Format, v: Val)
    ensures Unseal(f, Seal(Encode(v))) == Ok(v) <==> Fits(f, v)
  {
    EncodeSpells(v);
    var bytes := Seal(Encode(v));
    assert bytes[..|bytes| - 8] == Encode(v);
    AcceptedExactly(f, bytes, v);
  }

  /**
   An accepted payload re-encodes to itself exactly when its flag bytes are 0 or 1,
   and in every case decoding the re-encoding gives the same value.
   */
  lemma ReencodingIsCanonical(f: Format, bytes: Bytes)
    requires Unseal(f, bytes).Ok?
    ensures var v := Unseal(f, bytes).value; var p := bytes[..|bytes| - 8];
      && Spells(v, p)
      && (Seal(Encode(v)) == bytes <==> PlainFlags(v, p))
      && |Seal(Encode(v))| == |bytes|
      && Unseal(f, Seal(Encode(v))) == Ok(v)
  {
    var v, p := Unseal(f, bytes).value, bytes[..|bytes| - 8];
    AcceptedExactly(f, bytes, v);
    EncodeIsThePlainSpelling(v, p);
    SpellingsHaveOneWidth(v, p);
    RoundTripExactly(f, v);
    var again := Seal(Encode(v));
    assert again[..|again| - 8] == Encode(v);
  }

  /** A valid payload with anything appended is refused, checksum recomputed or not ... */
  lemma AppendedPayloadIsRefused(f: Format, p: Bytes, extra: Bytes)
    requires Unseal(f, Seal(p)).Ok? && extra != []
    ensures Unseal(f, Seal(p + extra)) == Err(TrailingGarbage)
  {
    OpenSeal(p);
    OpenSeal(p + extra);
    var q := DecodeIsSound(f, p);
    assert q + [] == q;
    DecodeIsComplete(f, Decode(f, p).v, p, extra);
  }

  /** ... and so is every proper prefix of it. */
  lemma TruncatedPayloadIsRefused(f: Format, p: Bytes, k: nat)
    requires Unseal(f, Seal(p)).Ok? && k < |p|
    ensures Unseal(f, Seal(p[..k])).Err?
  {
    if Unseal(f, Seal(p[..k])).Ok? {
      assert p == p[..k] + p[k..];
      AppendedPayloadIsRefused(f, p[..k], p[k..]);
      assert false;
    }
  }

  /** Changing exactly one byte of a sealed payload, checksum bytes included, is always detected. */
  lemma OneChangedByteIsDetected(f: Format, payload: Bytes, i: nat, b: byte)
    requires i < |payload| + 8 && Seal(payload)[i] != b
    ensures Unseal(f, Seal(payload)[i := b]) == Err(ChecksumMismatch)
  {
    var n := |payload|;
    var t := Seal(payload)[i := b];
    var sum := LE(Fnv(FNV_START, payload), 8);
    if i < n {
      OneChangedByteChangesFnv(FNV_START, payload, i, b);
      assert t[..n] == payload[i := b] && t[n..] == sum;
      WidthsOfWords();
      UnLEInvertsLE(Fnv(FNV_START, payload), 8);
    } else {
      assert t == payload + sum[i - n := b];
      ChangedChecksumIsDetected(f, payload, sum[i - n := b]);
    }
  }

  /** Replacing the stored checksum by any other eight bytes is always detected. */
  lemma ChangedChecksumIsDetected(f: Format, payload: Bytes, sum: Bytes)
    requires |sum| == 8 && payload + sum != Seal(payload)
    ensures Unseal(f, payload + sum) == Err(ChecksumMismatch)
  {
    var t := payload + sum;
    assert t[..|t| - 8] == payload && t[|t| - 8..] == sum;
    LEInvertsUnLE(sum);
  }

  /** `after` is `before` with `v` written, alone or as the head of a longer record. */
  ghost predicate Wrote(before: Bytes, v: Val, after: Bytes) {
    && after == before + Encode(v)
    && (forall tail {:trigger Encode(Pair(v, tail))} :: before + Encode(Pair(v, tail)) == after + Encode(tail))
  }

  lemma WroteAppended(before: Bytes, v: Val)
    ensures Wrote(before, v, before + Encode(v))
  {
    forall tail
      ensures before + Encode(Pair(v, tail)) == before + Encode(v) + Encode(tail)
    {
      ConcatAssociates(before, Encode(v), Encode(tail));
    }
  }

  lemma ListStarts(before: Bytes, items: seq<Val>)
    ensures before + Encode(List(items)) == before + Encode(Num(4, |items|)) + EncodeAll(items[0..])
  {
    assert items[0..] == items;
    ConcatAssociates(before, LE(|items|, 4), EncodeAll(items));
  }

  lemma ListContinues(buf: Bytes, items: seq<Val>, i: nat)
    requires i < |items|
    ensures buf + EncodeAll(items[i..]) == buf + Encode(items[i]) + EncodeAll(items[i + 1..])
  {
    assert items[i..][1..] == items[i + 1..];
    ConcatAssociates(buf, Encode(items[i]), EncodeAll(items[i + 1..]));
  }

  /** A little-endian writer over a growing buffer. */
  class BinWriter {
    var buf: Bytes

    constructor ()
      ensures buf == []
    {
      buf := [];
    }

    method Number(v: nat, w: nat)
      modifies this
      ensures Wrote(old(buf), Num(w, v), buf)
    {
      var i := 0;
      while i < w
        invariant 0 <= i <= w && buf == old(buf) + LE(v, w)[..i]
      {
        LEAt(v, w, i);
        buf := buf + [ShiftBytes(v, i) % 256];
        i := i + 1;
      }
      assert LE(v, w)[..w] == LE(v, w);
      WroteAppended(old(buf), Num(w, v));
    }

    method Raw(b: Bytes)
      modifies this
      ensures Wrote(old(buf), Val.Raw(b), buf)
    {
      buf := buf + b;
      WroteAppended(old(buf), Val.Raw(b));
    }

    method Str(s: Bytes)
      modifies this
      ensures Wrote(old(buf), Text(s), buf)
    {
      Number(|s|, 4);
      buf := buf + s;
      ConcatAssociates(old(buf), LE(|s|, 4), s);
      WroteAppended(old(buf), Text(s));
    }

    method Bool(on: bool)
      modifies this
      ensures Wrote(old(buf), Flag(on), buf)
    {
      buf := buf + [if on then 1 else 0];
      WroteAppended(old(buf), Flag(on));
    }

    method Close() returns (bytes: Bytes)
      modifies this
      ensures bytes == Seal(old(buf))
    {
      var h := Fnv1a64(FNV_START, buf);
      Number(h, 8);
      bytes := buf;
    }
  }

  /** `res` is what decoding `f` from `before` delivers, and how it advances any record headed by `f`. */
  ghost predicate Reads(f: Format, before: Bytes, res: Result<Val>, after: Bytes) {
    match res
    case Ok(v) =>
      && Decode(f, before) == Got(v, after)
      && (forall t {:trigger Decode(FPair(f, t), before)} :: Decode(FPair(f, t), before) == Then(v, Decode(t, after)))
    case Err(e) =>
      && Decode(f, before) == Bad(e)
      && (forall t {:trigger Decode(FPair(f, t), before)} :: Decode(FPair(f, t), before) == Bad(e))
  }

  /** How the result of a record's head continues into the rest of the record. */
  function Onto(head: Parsed, t: Format): Parsed {
    match head
    case Got(v, rest) => Then(v, Decode(t, rest))
    case Bad(e) => Bad(e)
  }

  lemma Heads(f: Format, s: Bytes)
    ensures forall t {:trigger Decode(FPair(f, t), s)} :: Decode(FPair(f, t), s) == Onto(Decode(f, s), t)
  {
  }

  /** How a counted list goes on after its count: the cap, then the elements. */
  function Counted(cap: nat, elem: Format, keyed: bool, count: Parsed): Parsed {
    match count
    case Bad(e) => Bad(e)
    case Got(v, rest) =>
      if v.Num? && v.n <= cap then DecodeMany(elem, keyed, v.n, [], rest) else Bad(Malformed)
  }

  lemma ListHeads(cap: nat, elem: Format, keyed: bool, s: Bytes)
    ensures forall t {:trigger Decode(FPair(FList(cap, elem, keyed), t), s)} ::
              Decode(FPair(FList(cap, elem, keyed), t), s) == Onto(Decode(FList(cap, elem, keyed), s), t)
    ensures Decode(FList(cap, elem, keyed), s) == Counted(cap, elem, keyed, Decode(FNum(4), s))
  {
  }

  /** Read first, then validate. */
  function Guarded(parsed: Parsed, ok: Val -> bool, err: ErrorCode): Parsed {
    match parsed
    case Bad(e) => Bad(e)
    case Got(v, rest) => if ok(v) then Got(v, rest) else Bad(err)
  }

  lemma GuardedHeads(base: Format, ok: Val -> bool, err: ErrorCode, s: Bytes)
    ensures forall t {:trigger Decode(FPair(FGuard(base, ok, err), t), s)} ::
              Decode(FPair(FGuard(base, ok, err), t), s) == Onto(Decode(FGuard(base, ok, err), s), t)
    ensures Decode(FGuard(base, ok, err), s) == Guarded(Decode(base, s), ok, err)
  {
  }

  /** How an element loop goes on after one more element. */
  function Turn(elem: Format, keyed: bool, left: nat, seen: seq<Val>, next: Parsed): Parsed {
    match next
    case Bad(e) => Bad(e)
    case Got(v, rest) =>
      if keyed && KeySeen(seen, v) then Bad(Duplicate) else DecodeMany(elem, keyed, left, seen + [v], rest)
  }

  lemma NextElement(elem: Format, keyed: bool, n: nat, seen: seq<Val>, s: Bytes)
    ensures n == 0 ==> DecodeMany(elem, keyed, n, seen, s) == Got(List(seen), s)
    ensures n > 0 ==> DecodeMany(elem, keyed, n, seen, s) == Turn(elem, keyed, n - 1, seen, Decode(elem, s))
  {
  }

  function U8Val(n: byte): Val { Num(1, n) }
  function U32Val(n: u32): Val { Num(4, n) }
  function U64Val(n: u64): Val { Num(8, n) }
  function RawVal(b: Bytes): Val { Raw(b) }
  function IdVal(u: Uuid): Val { Raw(u) }
  function TextVal(b: Bytes): Val { Text(b) }
  function FlagVal(on: bool): Val { Flag(on) }

  /** A reader that checks the checksum up front and bounds on every read. */
  class BinReader {
    const data: Bytes
    var pos: nat
    const payloadEnd: nat

    ghost predicate Valid()
      reads this
    {
      pos <= payloadEnd <= |data|
    }

    /** The payload bytes not yet read. */
    ghost function Rest(): Bytes
      requires Valid()
      reads this
    {
      data[pos..payloadEnd]
    }

    constructor (data: Bytes)
      requires |data| >= 8
      ensures Valid() && this.data == data && Rest() == data[..|data| - 8]
    {
      this.data := data;
      pos := 0;
      payloadEnd := |data| - 8;
    }

    static method Create(data: Bytes) returns (res: Result<BinReader>)
      ensures match res
              case Ok(r) => fresh(r) && r.Valid() && r.data == data && Open(data) == Ok(r.Rest())
              case Err(e) => Open(data) == Err(e)
    {
      if |data| < 8 { return Err(Malformed); }
      var n := |data| - 8;
      var stored, i := 0, 0;
      while i < 8
        invariant 0 <= i <= 8 && stored == UnLE(data[n..n + i])
      {
        assert data[n..n + i + 1] == data[n..n + i] + [data[n + i]];
        UnLESnoc(data[n..n + i], data[n + i]);
        stored := stored + data[n + i] * Pow256(i);
        i := i + 1;
      }
      assert data[n..n + 8] == data[n..];
      var computed := Fnv1a64(FNV_START, data[..n]);
      if computed != stored { return Err(ChecksumMismatch); }
      var r := new BinReader(data);
      res := Ok(r);
    }

    predicate Short(n: nat)
      requires Valid()
      reads this
    {
      n > payloadEnd - pos
    }

    method Number(w: nat) returns (res: Result<nat>)
      requires Valid()
      modifies this
      ensures Valid() && Reads(FNum(w), old(Rest()), res.Map(n => Num(w, n)), Rest())
      ensures res.Ok? ==> res.value < Pow256(w)
    {
      if Short(w) { return Err(Truncation); }
      var v, i := 0, 0;
      while i < w
        invariant pos == old(pos)
        invariant 0 <= i <= w && v == UnLE(data[pos..pos + i])
      {
        assert data[pos..pos + i + 1] == data[pos..pos + i] + [data[pos + i]];
        UnLESnoc(data[pos..pos + i], data[pos + i]);
        v := v + data[pos + i] * Pow256(i);
        i := i + 1;
      }
      assert old(Rest())[..w] == data[pos..pos + w];
      LEInvertsUnLE(old(Rest())[..w]);
      pos := pos + w;
      assert old(Rest())[w..] == Rest();
      res := Ok(v);
    }

    method U8() returns (res: Result<byte>)
      requires Valid()
      modifies this
      ensures Valid() && Reads(FNum(1), old(Rest()), res.Map(U8Val), Rest())
    {
      WidthsOfWords();
      res := Number(1);
    }

    method U32() returns (res: Result<u32>)
      requires Valid()
      modifies this
      ensures Valid() && Reads(FNum(4), old(Rest()), res.Map(U32Val), Rest())
    {
      WidthsOfWords();
      res := Number(4);
    }

    method U64() returns (res: Result<u64>)
      requires Valid()
      modifies this
      ensures Valid() && Reads(FNum(8), old(Rest()), res.Map(U64Val), Rest())
    {
      WidthsOfWords();
      res := Number(8);
    }

    method Raw(n: nat) returns (res: Result<Bytes>)
      requires Valid()
      modifies this
      ensures Valid() && Reads(FRaw(n), old(Rest()), res.Map(RawVal), Rest())
      ensures res.Ok? ==> |res.value| == n
    {
      if Short(n) { return Err(Truncation); }
      var v := data[pos..pos + n];
      assert old(Rest())[..n] == v;
      pos := pos + n;
      assert old(Rest())[n..] == Rest();
      res := Ok(v);
    }

    method Id() returns (res: Result<Uuid>)
      requires Valid()
      modifies this
      ensures Valid() && Reads(FRaw(16), old(Rest()), res.Map(IdVal), Rest())
    {
      res := Raw(16);
    }

    method Str() returns (res: Result<Bytes>)
      requires Valid()
      modifies this
      ensures Valid() && Reads(FText, old(Rest()), res.Map(TextVal), Rest())
    {
      ghost var s := Rest();
      var n :- U32();
      assert s[4..] == Rest();
      if Short(n) { return Err(Malformed); }
      var v := data[pos..pos + n];
      assert Rest()[..n] == v && s[4..4 + n] == s[4..][..n];
      pos := pos + n;
      assert s[4 + n..] == Rest();
      res := Ok(v);
    }

    method Bool() returns (res: Result<bool>)
      requires Valid()
      modifies this
      ensures Valid() && Reads(FFlag, old(Rest()), res.Map(FlagVal), Rest())
    {
      if Short(1) { return Err(Truncation); }
      var b := data[pos];
      assert old(Rest())[0] == b;
      pos := pos + 1;
      assert old(Rest())[1..] == Rest();
      res := Ok(b != 0);
    }

    /** `expect_end`, called with the offset where the payload ends. */
    method ExpectEnd() returns (res: Result<()>)
      requires Valid()
      ensures res == if Rest() == [] then Ok(()) else Err(TrailingGarbage)
    {
      if pos != payloadEnd { return Err(TrailingGarbage); }
      res := Ok(());
    }
  }
}
