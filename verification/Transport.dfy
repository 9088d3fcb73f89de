/** Framing over a byte stream that sends and receives in pieces of any size (src/transport.cpp). */
module Transport {
  import opened Basics
  import opened Checksum

  /** The receiver's hard cap on a payload. */
  const CAP: int := 64 * 1024 * 1024

  /** Length, payload, checksum. The length is the payload's size modulo 2^32. */
  function Frame(p: Bytes): (f: Bytes)
    ensures |f| == |p| + 12
  {
    LE(|p| % TWO_TO_THE_32, 4) + p + LE(Fnv(FNV_START, p), 8)
  }

  datatype Taken = Payload(p: Bytes, rest: Bytes) | Incomplete | TooLong | Corrupt

  /** The first frame of a stream. */
  function TakeFrame(s: Bytes): Taken {
    if |s| < 4 then Incomplete
    else
      var n := UnLE(s[..4]);
      if n > CAP then TooLong
      else if |s| < n + 12 then Incomplete
      else if UnLE(s[4 + n..n + 12]) != Fnv(FNV_START, s[4..4 + n]) then Corrupt
      else Payload(s[4..4 + n], s[n + 12..])
  }

  lemma FourParts(a: Bytes, b: Bytes, c: Bytes, rest: Bytes)
    ensures var s := a + b + c + rest;
      && s[..|a|] == a && s[|a|..|a| + |b|] == b && s[|a| + |b|..|a| + |b| + |c|] == c && s[|a| + |b| + |c|..] == rest
  {
  }

  lemma LengthsAreRead(n: nat)
    ensures UnLE(LE(n % TWO_TO_THE_32, 4)) == n % TWO_TO_THE_32
  {
    WidthsOfWords();
    UnLEInvertsLE(n % TWO_TO_THE_32, 4);
  }

  lemma ChecksumsAreRead(h: u64)
    ensures UnLE(LE(h, 8)) == h
  {
    WidthsOfWords();
    UnLEInvertsLE(h, 8);
  }

  lemma FrameParts(p: Bytes, rest: Bytes)
    ensures var s := Frame(p) + rest;
      && s[..4] == LE(|p| % TWO_TO_THE_32, 4) && UnLE(s[..4]) == |p| % TWO_TO_THE_32
      && s[4..4 + |p|] == p && s[4 + |p|..|p| + 12] == LE(Fnv(FNV_START, p), 8)
      && UnLE(s[4 + |p|..|p| + 12]) == Fnv(FNV_START, p) && s[|p| + 12..] == rest
  {
    hide Fnv, LE, UnLE;
    FourParts(LE(|p| % TWO_TO_THE_32, 4), p, LE(Fnv(FNV_START, p), 8), rest);
    LengthsAreRead(|p|);
    ChecksumsAreRead(Fnv(FNV_START, p));
  }

  lemma DropTake(s: Bytes, a: nat, b: nat)
    requires a + b <= |s|
    ensures s[a..][..b] == s[a..a + b] && s[a..][b..] == s[a + b..]
  {
  }

  lemma TooShort(s: Bytes)
    ensures |s| < 4 ==> TakeFrame(s) == Incomplete
  {
  }

  lemma Taking(s: Bytes, n: nat)
    requires |s| >= 4 && n == UnLE(s[..4])
    ensures n > CAP ==> TakeFrame(s) == TooLong
    ensures n <= CAP && |s| < n + 12 ==> TakeFrame(s) == Incomplete
    ensures n <= CAP && |s| >= n + 12 ==>
              TakeFrame(s) == if UnLE(s[4 + n..n + 12]) == Fnv(FNV_START, s[4..4 + n])
                              then Payload(s[4..4 + n], s[n + 12..]) else Corrupt
  {
  }

  /** The same with the length read and dropped. */
  lemma TakingTheRest(s: Bytes, n: nat)
    requires |s| >= 4 && n == UnLE(s[..4])
    ensures var u := s[4..];
      && (TakeFrame(s).Payload? <==> n <= CAP && n + 8 <= |u| && UnLE(u[n..][..8]) == Fnv(FNV_START, u[..n]))
      && (TakeFrame(s).Payload? ==> TakeFrame(s) == Payload(u[..n], u[n..][8..]))
  {
    hide Fnv, UnLE, TakeFrame;
    Taking(s, n);
    if n + 12 <= |s| {
      DropTake(s, 4, n);
      DropTake(s, 4 + n, 8);
    }
  }

  /** A frame is read back, whatever follows it, exactly when its payload is within the cap. */
  lemma FrameIsReadBackExactly(p: Bytes, rest: Bytes)
    ensures TakeFrame(Frame(p) + rest) == Payload(p, rest) <==> |p| <= CAP
  {
    hide Fnv, LE, UnLE, Frame;
    FrameParts(p, rest);
    if |p| <= CAP {
      assert |p| % TWO_TO_THE_32 == |p|;
    } else {
      TakenIsCapped(Frame(p) + rest);
    }
  }

  lemma TakenIsCapped(s: Bytes)
    ensures TakeFrame(s).Payload? ==> |TakeFrame(s).p| <= CAP
  {
    hide Fnv, UnLE;
  }

  /** Whatever is read as a frame is one. */
  lemma TakenIsAFrame(s: Bytes)
    requires TakeFrame(s).Payload?
    ensures s == Frame(TakeFrame(s).p) + TakeFrame(s).rest && |TakeFrame(s).p| <= CAP
  {
    hide Fnv, LE, UnLE;
    var n := UnLE(s[..4]);
    LEInvertsUnLE(s[..4]);
    LEInvertsUnLE(s[4 + n..n + 12]);
    WidthsOfWords();
    assert s == s[..4] + s[4..4 + n] + s[4 + n..n + 12] + s[n + 12..];
  }

  /** Changing one byte of a framed payload or of its checksum is always detected. */
  lemma DamagedFrameIsRefused(p: Bytes, i: nat, b: byte, rest: Bytes)
    requires |p| <= CAP && 4 <= i < |p| + 12 && Frame(p)[i] != b
    ensures TakeFrame(Frame(p)[i := b] + rest) == Corrupt
  {
    hide Fnv, LE, UnLE, TakeFrame;
    var n := |p|;
    var hdr, sum := LE(n % TWO_TO_THE_32, 4), LE(Fnv(FNV_START, p), 8);
    var t := Frame(p)[i := b] + rest;
    LengthsAreRead(n);
    ChecksumsAreRead(Fnv(FNV_START, p));
    assert n % TWO_TO_THE_32 == n;
    if i < 4 + n {
      var q := p[i - 4 := b];
      OneChangedByteChangesFnv(FNV_START, p, i - 4, b);
      assert Frame(p)[i := b] == hdr + q + sum;
      FourParts(hdr, q, sum, rest);
    } else {
      var changed := sum[i - 4 - n := b];
      assert Frame(p)[i := b] == hdr + p + changed;
      FourParts(hdr, p, changed, rest);
      LEInvertsUnLE(changed);
    }
    Taking(t, n);
  }

  // ---- streams of frames ----

  function Frames(ps: seq<Bytes>): Bytes {
    if ps == [] then [] else Frame(ps[0]) + Frames(ps[1..])
  }

  /** What a reader makes of a stream: the frames it can take, until one is missing or refused. */
  function Parse(s: Bytes): seq<Bytes>
    decreases |s|
  {
    if TakeFrame(s).Payload? then
      TakenIsAFrame(s);
      [TakeFrame(s).p] + Parse(TakeFrame(s).rest)
    else []
  }

  predicate Sendable(ps: seq<Bytes>) {
    forall i :: 0 <= i < |ps| ==> |ps[i]| <= CAP
  }

  lemma FramesSnoc(ps: seq<Bytes>, p: Bytes)
    ensures Frames(ps + [p]) == Frames(ps) + Frame(p)
  {
    if ps == [] {
      assert ps + [p] == [p];
    } else {
      assert (ps + [p])[1..] == ps[1..] + [p];
      FramesSnoc(ps[1..], p);
      ConcatAssociates(Frame(ps[0]), Frames(ps[1..]), Frame(p));
    }
  }

  /** A proper prefix of a frame is not taken for a frame. */
  lemma PartialFrameIsIncomplete(p: Bytes, n: nat)
    requires |p| <= CAP && n < |Frame(p)|
    ensures TakeFrame(Frame(p)[..n]) == Incomplete
  {
    hide Fnv, LE, UnLE, TakeFrame, Frame;
    FrameParts(p, []);
    assert Frame(p) + [] == Frame(p);
    var t := Frame(p)[..n];
    TooShort(t);
    if n >= 4 {
      assert t[..4] == Frame(p)[..4];
      assert |p| % TWO_TO_THE_32 == |p|;
      Taking(t, |p|);
    }
  }

  /**
   From any part of a stream of frames that has arrived, a reader recovers the payloads sent, in order,
   as far as they have arrived whole; from all of it, all of them.
   */
  lemma {:induction false} ReaderRecoversAPrefix(ps: seq<Bytes>, n: nat)
    requires Sendable(ps) && n <= |Frames(ps)|
    ensures Parse(Frames(ps)[..n]) <= ps
    ensures |Frames(Parse(Frames(ps)[..n]))| <= n
    ensures |Parse(Frames(ps)[..n])| < |ps| ==> n < |Frames(ps[..|Parse(Frames(ps)[..n])| + 1])|
    decreases |ps|
  {
    hide Fnv, TakeFrame;
    var s := Frames(ps)[..n];
    if ps == [] {
      NothingTaken(s);
    } else {
      var f := Frame(ps[0]);
      if n < |f| {
        assert s == f[..n];
        PartialFrameIsIncomplete(ps[0], n);
        assert ps[..1] == [ps[0]];
        assert Frames([ps[0]][1..]) == [];
      } else {
        var tail := Frames(ps[1..])[..n - |f|];
        assert s == f + tail;
        FrameIsReadBackExactly(ps[0], tail);
        ReaderRecoversAPrefix(ps[1..], n - |f|);
        var got := Parse(tail);
        assert Parse(s) == [ps[0]] + got;
        assert Parse(s)[1..] == got;
        if |got| < |ps[1..]| {
          assert ps[..|got| + 2][1..] == ps[1..][..|got| + 1];
        }
      }
    }
  }

  lemma NothingTaken(s: Bytes)
    requires s == []
    ensures Parse(s) == []
  {
  }

  // ---- several writers ----

  /**
   Writers of one socket: what each still has to send, the writer inside `send_frame`, the part of its
   frame not yet accepted, the frames begun so far with their writers, and the bytes accepted so far.
   */
  datatype Writers = Writers(
    queues: map<nat, seq<Bytes>>, holder: Option<nat>, unsent: Bytes, log: seq<(nat, Bytes)>, wire: Bytes)

  /** A writer takes the write lock, some bytes are accepted, the lock is given back. */
  datatype WriterEvent = Acquire(w: nat) | Accept(n: nat) | Release

  function WriterStep(s: Writers, e: WriterEvent): Writers {
    match e
    case Acquire(w) =>
      if s.holder == None && w in s.queues && s.queues[w] != [] then
        s.(queues := s.queues[w := s.queues[w][1..]], holder := Some(w), unsent := Frame(s.queues[w][0]),
           log := s.log + [(w, s.queues[w][0])])
      else s
    case Accept(n) =>
      if s.holder.Some? && n <= |s.unsent| then s.(unsent := s.unsent[n..], wire := s.wire + s.unsent[..n]) else s
    case Release => if s.unsent == [] then s.(holder := None) else s
  }

  function WriterRun(s: Writers, es: seq<WriterEvent>): Writers {
    if es == [] then s else WriterStep(WriterRun(s, es[..|es| - 1]), es[|es| - 1])
  }

  function Payloads(log: seq<(nat, Bytes)>): (ps: seq<Bytes>)
    ensures |ps| == |log|
  {
    MapSeq((x: (nat, Bytes)) => x.1, log)
  }

  /** The payloads one writer has begun to send, in order. */
  function OfWriter(log: seq<(nat, Bytes)>, w: nat): seq<Bytes> {
    if log == [] then []
    else OfWriter(log[..|log| - 1], w) + if log[|log| - 1].0 == w then [log[|log| - 1].1] else []
  }

  function Starting(queues: map<nat, seq<Bytes>>): Writers { Writers(queues, None, [], [], []) }

  ghost predicate InStep(queues: map<nat, seq<Bytes>>, s: Writers) {
    && s.wire + s.unsent == Frames(Payloads(s.log))
    && (s.holder == None ==> s.unsent == [])
    && s.queues.Keys == queues.Keys
    && (forall i :: 0 <= i < |s.log| ==> s.log[i].0 in queues)
    && (forall w <- queues :: OfWriter(s.log, w) + s.queues[w] == queues[w])
  }

  lemma NextOfWriter(queues: map<nat, seq<Bytes>>, s: Writers, w: nat, v: nat)
    requires w in s.queues && s.queues[w] != [] && v in s.queues && v in queues
    requires OfWriter(s.log, v) + s.queues[v] == queues[v]
    ensures OfWriter(s.log + [(w, s.queues[w][0])], v) + s.queues[w := s.queues[w][1..]][v] == queues[v]
  {
    var log := s.log + [(w, s.queues[w][0])];
    assert log[..|log| - 1] == s.log;
    if v == w {
      assert s.queues[w] == [s.queues[w][0]] + s.queues[w][1..];
      ConcatAssociates(OfWriter(s.log, w), [s.queues[w][0]], s.queues[w][1..]);
    } else {
      assert OfWriter(log, v) == OfWriter(s.log, v) + [];
    }
  }

  lemma AcquireKeepsStep(queues: map<nat, seq<Bytes>>, s: Writers, w: nat)
    requires InStep(queues, s)
    ensures InStep(queues, WriterStep(s, Acquire(w)))
  {
    hide Frames, Frame, OfWriter;
    var t := WriterStep(s, Acquire(w));
    if t != s {
      var p := s.queues[w][0];
      assert Payloads(t.log) == Payloads(s.log) + [p];
      FramesSnoc(Payloads(s.log), p);
      forall v | v in queues
        ensures OfWriter(t.log, v) + t.queues[v] == queues[v]
      {
        NextOfWriter(queues, s, w, v);
      }
    }
  }

  lemma AcceptKeepsStep(queues: map<nat, seq<Bytes>>, s: Writers, n: nat)
    requires InStep(queues, s)
    ensures InStep(queues, WriterStep(s, Accept(n)))
  {
    hide Frames, OfWriter;
    if s.holder.Some? && n <= |s.unsent| {
      assert s.unsent == s.unsent[..n] + s.unsent[n..];
      ConcatAssociates(s.wire, s.unsent[..n], s.unsent[n..]);
    }
  }

  lemma {:induction false} WritersStayInStep(queues: map<nat, seq<Bytes>>, es: seq<WriterEvent>)
    ensures InStep(queues, WriterRun(Starting(queues), es))
  {
    hide InStep, WriterStep;
    if es == [] {
      StartsInStep(queues);
    } else {
      var s := WriterRun(Starting(queues), es[..|es| - 1]);
      WritersStayInStep(queues, es[..|es| - 1]);
      match es[|es| - 1] {
        case Acquire(w) => AcquireKeepsStep(queues, s, w);
        case Accept(n) => AcceptKeepsStep(queues, s, n);
        case Release => ReleaseKeepsStep(queues, s);
      }
    }
  }

  lemma ReleaseKeepsStep(queues: map<nat, seq<Bytes>>, s: Writers)
    requires InStep(queues, s)
    ensures InStep(queues, WriterStep(s, Release))
  {
  }

  lemma StartsInStep(queues: map<nat, seq<Bytes>>)
    ensures InStep(queues, Starting(queues))
  {
    assert Payloads([]) == [];
  }

  lemma {:induction false} OfWriterPrefix(log: seq<(nat, Bytes)>, k: nat, w: nat)
    requires k <= |log|
    ensures OfWriter(log[..k], w) <= OfWriter(log, w)
    decreases |log| - k
  {
    if k == |log| {
      assert log[..k] == log;
    } else {
      OfWriterPrefix(log, k + 1, w);
      assert log[..k + 1][..k] == log[..k];
    }
  }

  lemma {:induction false} LoggedWereQueued(log: seq<(nat, Bytes)>, i: nat)
    requires i < |log|
    ensures log[i].1 in OfWriter(log, log[i].0)
  {
    OfWriterPrefix(log, i + 1, log[i].0);
    assert log[..i + 1][..i] == log[..i];
    var a, b := OfWriter(log[..i + 1], log[i].0), OfWriter(log, log[i].0);
    assert a[|a| - 1] == log[i].1 && b[|a| - 1] == a[|a| - 1];
  }

  /**
   However the writers' sends are split and scheduled, and however much of the stream has arrived: the
   reader recovers, intact, the payloads of the first `k` frames begun, for some `k`. Those of each writer
   are its own payloads in its own order. Once all that was begun is sent and has arrived, `k` counts all of it.
   */
  lemma FramedWritersAreRecovered(queues: map<nat, seq<Bytes>>, es: seq<WriterEvent>, n: nat)
    requires forall w <- queues :: Sendable(queues[w])
    requires n <= |WriterRun(Starting(queues), es).wire|
    ensures var s := WriterRun(Starting(queues), es);
      var k := |Parse(s.wire[..n])|;
      && k <= |s.log| && Parse(s.wire[..n]) == Payloads(s.log[..k])
      && (forall w <- queues :: OfWriter(s.log[..k], w) <= queues[w])
      && (n == |s.wire| && s.unsent == [] ==> k == |s.log|)
      && (forall w <- queues :: w in s.queues && OfWriter(s.log, w) + s.queues[w] == queues[w])
  {
    hide WriterRun, Parse, Frames, TakeFrame, OfWriter;
    WritersStayInStep(queues, es);
    var s := WriterRun(Starting(queues), es);
    var ps := Payloads(s.log);
    forall i | 0 <= i < |ps|
      ensures |ps[i]| <= CAP
    {
      LoggedWereQueued(s.log, i);
      var w := s.log[i].0;
      assert OfWriter(s.log, w) <= queues[w];
      var j :| 0 <= j < |OfWriter(s.log, w)| && OfWriter(s.log, w)[j] == ps[i];
      assert queues[w][j] == ps[i];
    }
    assert s.wire[..n] == Frames(ps)[..n];
    ReaderRecoversAPrefix(ps, n);
    var k := |Parse(s.wire[..n])|;
    assert Payloads(s.log[..k]) == ps[..k];
    forall w | w in queues
      ensures OfWriter(s.log[..k], w) <= queues[w]
    {
      OfWriterPrefix(s.log, k, w);
    }
    if n == |s.wire| && s.unsent == [] && k < |s.log| {
      assert s.wire + [] == s.wire;
      FramesGrow(ps, k + 1);
      assert false;
    }
  }

  lemma {:induction false} FramesGrow(ps: seq<Bytes>, k: nat)
    requires k <= |ps|
    ensures |Frames(ps[..k])| <= |Frames(ps)|
    decreases |ps| - k
  {
    if k == |ps| {
      assert ps[..k] == ps;
    } else {
      assert ps[..k + 1] == ps[..k] + [ps[k]];
      FramesSnoc(ps[..k], ps[k]);
      FramesGrow(ps, k + 1);
    }
  }

  // ---- the socket ----

  /** What is left of a stream. */
  predicate EndOf(t: Bytes, s: Bytes) { |t| <= |s| && t == s[|s| - |t|..] }

  lemma EndOfEnd(t: Bytes, s: Bytes, k: nat)
    requires k <= |s| && EndOf(t, s[k..])
    ensures EndOf(t, s)
  {
  }

  /** A buffer whose range from `at` holds the first `n` bytes of a stream. */
  function Filled(was: Bytes, s: Bytes, at: nat, n: nat): Bytes
    requires at + n <= |was| && n <= |s|
  {
    was[..at] + s[..n] + was[at + n..]
  }

  lemma FilledAtFirst(was: Bytes, s: Bytes, at: nat)
    requires at <= |was|
    ensures Filled(was, s, at, 0) == was && s[0..] == s
  {
  }

  lemma FilledFurther(was: Bytes, s: Bytes, at: nat, done: nat, k: nat, now: Bytes)
    requires at + done + k <= |was| && done + k <= |s| && now == Filled(was, s, at, done)
    ensures now[..at + done] + s[done..][..k] + now[at + done + k..] == Filled(was, s, at, done + k)
    ensures s[done..][k..] == s[done + k..]
  {
    DropTake(s, done, k);
    assert now[..at + done] == was[..at] + s[..done];
    assert now[at + done + k..] == was[at + done + k..];
    assert s[..done + k] == s[..done] + s[done..done + k];
  }

  /**
   One end of a connection. `sent` is what the system has accepted from it; `coming` is everything that
   will still arrive before the peer closes; `failing` lets a receive fail although more would arrive.
   */
  class TcpSocket {
    var open: bool
    var failing: bool
    var sent: Bytes
    var coming: Bytes

    constructor (coming: Bytes, failing: bool)
      ensures open && sent == [] && this.coming == coming && this.failing == failing
    {
      open, sent := true, [];
      this.coming, this.failing := coming, failing;
    }

    /** One system call: it fails (-1), does nothing (0), or accepts any part of the bytes. */
    method SendSome(p: Bytes) returns (k: int)
      modifies `sent
      ensures -1 <= k <= |p|
      ensures sent == old(sent) + p[..if k < 0 then 0 else k]
    {
      k :| -1 <= k <= |p|;
      sent := sent + p[..if k < 0 then 0 else k];
    }

    /** One system call: it fails (-1), reports the end (0), or fills in any number of bytes that have arrived. */
    method RecvSome(buf: array<byte>, at: nat, n: nat) returns (k: int)
      requires at + n <= buf.Length && n > 0
      modifies `coming, buf
      ensures -1 <= k <= n && (k <= 0 ==> failing || old(coming) == []) && k <= |old(coming)|
      ensures k <= 0 ==> coming == old(coming) && buf[..] == old(buf[..])
      ensures k > 0 ==> coming == old(coming)[k..]
      ensures k > 0 ==> buf[..] == old(buf[..])[..at] + old(coming)[..k] + old(buf[..])[at + k..]
    {
      var most := if n <= |coming| then n else |coming|;
      assert failing || coming == [] || 1 <= most;
      k :| -1 <= k <= most && (k <= 0 ==> failing || coming == []);
      if k > 0 {
        var chunk := coming[..k];
        forall i | 0 <= i < k {
          buf[at + i] := chunk[i];
        }
        coming := coming[k..];
      }
    }

    method SendAll(p: Bytes) returns (ok: bool)
      modifies `sent
      ensures ok ==> sent == old(sent) + p
      ensures !ok ==> exists k :: 0 <= k < |p| && sent == old(sent) + p[..k]
    {
      var done := 0;
      while done < |p|
        invariant 0 <= done <= |p| && sent == old(sent) + p[..done]
        decreases |p| - done
      {
        var k := SendSome(p[done..]);
        if k <= 0 { return false; }
        assert p[..done] + p[done..][..k] == p[..done + k];
        done := done + k;
      }
      assert p[..done] == p;
      ok := true;
    }

    method RecvExact(buf: array<byte>, at: nat, n: nat) returns (ok: bool)
      requires at + n <= buf.Length
      modifies `coming, buf
      ensures ok ==> n <= |old(coming)| && coming == old(coming)[n..]
      ensures ok ==> buf[..] == Filled(old(buf[..]), old(coming), at, n)
      ensures !failing ==> (ok <==> n <= |old(coming)|)
      ensures EndOf(coming, old(coming))
    {
      hide Filled;
      FilledAtFirst(buf[..], coming, at);
      var done := 0;
      while done < n
        invariant 0 <= done <= n && done <= |old(coming)| && coming == old(coming)[done..]
        invariant buf[..] == Filled(old(buf[..]), old(coming), at, done)
        decreases n - done
      {
        ghost var now := buf[..];
        var k := RecvSome(buf, at + done, n - done);
        if k <= 0 { return false; }
        FilledFurther(old(buf[..]), old(coming), at, done, k, now);
        done := done + k;
      }
      ok := true;
    }

    /** The checksum and length go out low byte first, in three sends under the write lock. */
    method SendFrame(payload: Bytes) returns (ok: bool)
      modifies `sent
      ensures ok ==> open && sent == old(sent) + Frame(payload)
      ensures !ok ==> exists k :: 0 <= k < |payload| + 12 && sent == old(sent) + Frame(payload)[..k]
      ensures !open ==> !ok && sent == old(sent)
    {
      hide Fnv, LE;
      ghost var f := Frame(payload);
      if !open {
        assert sent == old(sent) + f[..0];
        return false;
      }
      var len := |payload| % TWO_TO_THE_32;
      var hdr := Bytewise(len, 4);
      var chk := Fnv1a64(FNV_START, payload);
      ok := SendAll(hdr);
      if !ok {
        ghost var k :| 0 <= k < 4 && sent == old(sent) + hdr[..k];
        assert f[..k] == hdr[..k];
        return;
      }
      if payload != [] {
        ok := SendAll(payload);
        if !ok {
          ghost var k :| 0 <= k < |payload| && sent == old(sent) + hdr + payload[..k];
          assert f[..4 + k] == hdr + payload[..k];
          ConcatAssociates(old(sent), hdr, payload[..k]);
          return;
        }
      }
      assert sent == old(sent) + (hdr + payload);
      var ck := Bytewise(chk, 8);
      ok := SendAll(ck);
      if !ok {
        ghost var k :| 0 <= k < 8 && sent == old(sent) + (hdr + payload) + ck[..k];
        assert f[..4 + |payload| + k] == hdr + payload + ck[..k];
        ConcatAssociates(old(sent), hdr + payload, ck[..k]);
        return;
      }
      ConcatAssociates(old(sent), hdr + payload, ck);
    }

    /**
     Reads one frame: it succeeds only on what `TakeFrame` takes and then leaves what follows it, and on a
     connection that does not fail it succeeds on every such stream.
     */
    method RecvFrame() returns (ok: bool, payload: Bytes)
      modifies `coming
      ensures ok ==> open && TakeFrame(old(coming)) == Payload(payload, coming)
      ensures open && !failing ==> (ok <==> TakeFrame(old(coming)).Payload?)
      ensures EndOf(coming, old(coming))
    {
      hide Fnv, UnLE, EndOf, LE, TakeFrame;
      ghost var s := coming;
      payload := [];
      EndOfEnd(s, s, 0);
      TooShort(s);
      if !open { return false, payload; }
      var len;
      ok, len := RecvLength();
      if !ok { return; }
      TakingTheRest(s, len);
      EndOfEnd(coming, s, 4);
      if len > CAP { return false, payload; }
      ok, payload := RecvChecked(len);
      EndOfEnd(coming, s, 4);
    }

    method RecvLength() returns (ok: bool, n: nat)
      modifies `coming
      ensures ok ==> 4 <= |old(coming)| && n == UnLE(old(coming)[..4]) && coming == old(coming)[4..]
      ensures !failing ==> (ok <==> 4 <= |old(coming)|)
      ensures EndOf(coming, old(coming))
    {
      hide UnLE, EndOf;
      var hdr;
      ok, hdr := RecvBytes(4);
      n := Assemble(hdr);
    }

    /** A payload of known length and its checksum; the payload is filled in even when the checksum is wrong. */
    method RecvChecked(n: nat) returns (ok: bool, payload: Bytes)
      modifies `coming
      ensures var s := old(coming); ok ==>
                && n + 8 <= |s| && payload == s[..n] && coming == s[n..][8..]
                && UnLE(s[n..][..8]) == Fnv(FNV_START, s[..n])
      ensures var s := old(coming); !failing ==>
                (ok <==> n + 8 <= |s| && UnLE(s[n..][..8]) == Fnv(FNV_START, s[..n]))
      ensures EndOf(coming, old(coming))
    {
      hide Fnv, UnLE, EndOf;
      ghost var s := coming;
      ok, payload := RecvBytes(n);
      if !ok { return; }
      var ck;
      ok, ck := RecvBytes(8);
      EndOfEnd(coming, s, n);
      if !ok { return; }
      var stored := Assemble(ck);
      var computed := Fnv1a64(FNV_START, payload);
      ok := stored == computed;
    }

    /** A new buffer of `n` bytes, filled; reading nothing is no call at all. */
    method RecvBytes(n: nat) returns (ok: bool, bytes: Bytes)
      modifies `coming
      ensures ok ==> n <= |old(coming)| && bytes == old(coming)[..n] && coming == old(coming)[n..]
      ensures !failing ==> (ok <==> n <= |old(coming)|)
      ensures EndOf(coming, old(coming))
    {
      var buf := new byte[n];
      assert coming == old(coming)[0..];
      ok := true;
      if n > 0 { ok := RecvExact(buf, 0, n); }
      bytes := buf[..];
    }
  }

  method Bytewise(v: nat, w: nat) returns (b: Bytes)
    ensures b == LE(v, w)
  {
    b := [];
    var i := 0;
    while i < w
      invariant 0 <= i <= w && b == LE(v, w)[..i]
    {
      LEAt(v, w, i);
      b := b + [ShiftBytes(v, i) % 256];
      i := i + 1;
    }
  }

  method Assemble(b: Bytes) returns (v: nat)
    ensures v == UnLE(b)
  {
    v := 0;
    var i := 0;
    while i < |b|
      invariant 0 <= i <= |b| && v == UnLE(b[..i])
    {
      assert b[..i + 1] == b[..i] + [b[i]];
      UnLESnoc(b[..i], b[i]);
      v := v + b[i] * Pow256(i);
      i := i + 1;
    }
    assert b[..i] == b;
  }
}
