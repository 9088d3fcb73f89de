/** Integer widths, byte strings, identities and error codes shared by every module. */
module Basics {
  type byte = x: int | 0 <= x < 0x100
  type u32 = x: int | 0 <= x < 0x1_0000_0000
  type u64 = x: int | 0 <= x < 0x1_0000_0000_0000_0000
  type Bytes = seq<byte>

  const TWO_TO_THE_32: int := 0x1_0000_0000
  const TWO_TO_THE_64: int := 0x1_0000_0000_0000_0000
  const U64_MAX: u64 := 0xFFFF_FFFF_FFFF_FFFF

  /** A 128-bit identity. Every strongly typed id of the repository wraps one. */
  type Uuid = b: Bytes | |b| == 16 witness [0, 0, 0, 0, 0, 0, 0, 0, 0, 0, 0, 0, 0, 0, 0, 0]

  const NIL: Uuid := [0, 0, 0, 0, 0, 0, 0, 0, 0, 0, 0, 0, 0, 0, 0, 0]

  datatype Option<+T> = None | Some(value: T)

  /** The error codes thrown by the modelled operations. */
  datatype ErrorCode =
    | InvalidIdentity | InvalidComposition | CapacityOvercommit | CapacityUnderflow
    | DoubleReservation | DoubleRelease | NotFound | ChecksumMismatch | Malformed | Truncation
    | Duplicate | InvalidEnum | InvalidGenerationValue | TrailingGarbage | UnsupportedVersion
    | InvalidArgument | AuthorityConflict

  /** A returned value, or the code of the exception that was thrown instead. */
  datatype Result<+T> = Ok(value: T) | Err(code: ErrorCode) {
    predicate IsFailure() { Err? }

    function PropagateFailure<U>(): Result<U>
      requires Err?
    {
      Err(code)
    }

    function Extract(): T
      requires Ok?
    {
      value
    }

    function Map<U>(f: T -> U): Result<U> {
      match this
      case Ok(v) => Ok(f(v))
      case Err(e) => Err(e)
    }
  }

  function Pow256(w: nat): (p: nat)
    ensures p > 0
  {
    if w == 0 then 1 else 256 * Pow256(w - 1)
  }

  lemma WidthsOfWords()
    ensures Pow256(1) == 0x100 && Pow256(4) == TWO_TO_THE_32 && Pow256(8) == TWO_TO_THE_64
  {
    assert Pow256(2) == 0x1_0000;
    assert Pow256(4) == 0x1_0000 * 0x1_0000;
    assert Pow256(6) == 0x1_0000 * Pow256(4);
  }

  /** The low `w` bytes of `n`, least significant first. */
  function LE(n: nat, w: nat): (b: Bytes)
    ensures |b| == w
  {
    if w == 0 then [] else [n % 256] + LE(n / 256, w - 1)
  }

  function UnLE(b: Bytes): nat {
    if b == [] then 0 else b[0] + 256 * UnLE(b[1..])
  }

  lemma {:induction false} UnLEInvertsLE(n: nat, w: nat)
    requires n < Pow256(w)
    ensures UnLE(LE(n, w)) == n
  {
    if w > 0 {
      UnLEInvertsLE(n / 256, w - 1);
      assert LE(n, w)[1..] == LE(n / 256, w - 1);
    }
  }

  lemma {:induction false} LEInvertsUnLE(b: Bytes)
    ensures UnLE(b) < Pow256(|b|)
    ensures LE(UnLE(b), |b|) == b
  {
    if b != [] {
      LEInvertsUnLE(b[1..]);
    }
  }

  /** `n >> (8 * i)`. */
  function ShiftBytes(n: nat, i: nat): nat {
    if i == 0 then n else ShiftBytes(n / 256, i - 1)
  }

  lemma {:induction false} LEAt(n: nat, w: nat, i: nat)
    requires i < w
    ensures LE(n, w)[i] == ShiftBytes(n, i) % 256
  {
    if i > 0 {
      LEAt(n / 256, w - 1, i - 1);
    }
  }

  /** Or-ing byte `i` in at bit `8 * i` adds `b * 256^i`: the bits below are already final. */
  lemma {:induction false} UnLESnoc(s: Bytes, b: byte)
    ensures UnLE(s + [b]) == UnLE(s) + b * Pow256(|s|)
  {
    if s == [] {
      assert UnLE([b]) == b + 256 * UnLE([]);
    } else {
      assert (s + [b])[1..] == s[1..] + [b];
      UnLESnoc(s[1..], b);
      var p := Pow256(|s| - 1);
      assert b * (256 * p) == 256 * (b * p);
    }
  }

  /** Applies `f` to every element. */
  function MapSeq<A, B>(f: A -> B, xs: seq<A>): (ys: seq<B>)
    ensures |ys| == |xs| && forall i :: 0 <= i < |xs| ==> ys[i] == f(xs[i])
  {
    seq(|xs|, i requires 0 <= i < |xs| => f(xs[i]))
  }

  lemma MapSeqSnoc<A, B>(f: A -> B, xs: seq<A>, x: A)
    ensures MapSeq(f, xs + [x]) == MapSeq(f, xs) + [f(x)]
  {
  }

  lemma ConcatAssociates<T>(a: seq<T>, b: seq<T>, c: seq<T>)
    ensures (a + b) + c == a + (b + c)
  {
  }
}
