/** What a forwarded command carries, and what a worker can read from it (src/coordinator.cpp, src/protocol.cpp). */
module Commands {
  import opened Basics
  import opened Records
  import opened Codec
  import opened Envelope
  import opened AdapterCodec
  import opened Protocol
  import opened Workers
  import opened CoordinatorRuns
  import Layout
  import Uuids

  predicate CarriesFence(c: Command) { c.Load? || c.Activate? || c.Migrate? }

  /** The kind a worker answers, for each request. */
  function KindOf(c: Command): byte {
    match c
    case Load(_) => 0x40
    case Activate(_) => 0x42
    case Deactivate(_) => 0x44
    case Migrate(_) => 0x46
    case Invalidation(_, _) => 0x48
    case Eviction(_) => 0x44
  }

  /** The identity a command names first: its instance for an eviction, and its adapter otherwise. */
  function Named(c: Command): Uuid {
    match c
    case Deactivate(a) => a
    case Invalidation(a, _) => a
    case Eviction(inst) => inst
    case _ => c.fence.adapter
  }

  lemma FenceLength(f: AuthorityFence)
    ensures |Encode(FenceVal(f))| == 168
  {
    hide Encode, LE, Layout.Flat;
    Layout.FenceLayout(f);
    var ps := Layout.FencePieces(f);
    Layout.FlatConcat(ps[..6], ps[6..]);
    assert ps[..6] + ps[6..] == ps;
    FlatOfSix(ps[..6]);
    FlatOfSix(ps[6..12]);
    Layout.FlatConcat(ps[6..12], ps[12..]);
    assert ps[6..12] + ps[12..] == ps[6..];
    assert ps[12..] == [ps[12]];
    Layout.FlatOne(ps[12]);
  }

  lemma FlatOfSix(ps: seq<Bytes>)
    requires |ps| == 6
    ensures |Layout.Flat(ps)| == |ps[0]| + |ps[1]| + |ps[2]| + |ps[3]| + |ps[4]| + |ps[5]|
  {
    assert Layout.Flat(ps[5..]) == ps[5] + Layout.Flat(ps[6..]);
    assert Layout.Flat(ps[4..]) == ps[4] + Layout.Flat(ps[5..]);
    assert Layout.Flat(ps[3..]) == ps[3] + Layout.Flat(ps[4..]);
    assert Layout.Flat(ps[2..]) == ps[2] + Layout.Flat(ps[3..]);
    assert Layout.Flat(ps[1..]) == ps[1] + Layout.Flat(ps[2..]);
  }

  lemma CommandIsOk(t: Task)
    requires Short(t.worker)
    ensures MessageOk(Forwarded(t))
  {
    hide Encode, FenceVal;
    if CarriesFence(t.cmd) {
      FenceLength(t.cmd.fence);
    }
  }

  lemma PayloadIsWithin(m: Message)
    ensures |m.payload| <= |Encode(MessageVal(m))|
  {
    hide Encode;
    EncodedLengths(MessageVal(m));
    EncodedLengths(MessageTailVal(m));
    assert |Encode(TextVal(m.payload))| >= |m.payload| by { TextLength(m.payload); }
    LastIsWithin(U64Val(m.a), U64Val(m.b), U64Val(m.c), U64Val(m.reqId), FlagVal(m.ok), TextVal(m.payload));
    LastIsWithin(U8Val(m.kind), TextVal(m.text), TextVal(m.text2), TextVal(m.text3), TextVal(m.text4),
                 MessageTailVal(m));
  }

  lemma EncodedLengths(v: Val)
    requires v.Pair?
    ensures |Encode(v)| == |Encode(v.fst)| + |Encode(v.snd)|
  {
  }

  lemma TextLength(b: Bytes)
    ensures |Encode(TextVal(b))| == 4 + |b|
  {
  }

  lemma LastIsWithin(a: Val, b: Val, c: Val, d: Val, e: Val, z: Val)
    ensures |Encode(Pair(a, Pair(b, Pair(c, Pair(d, Pair(e, z))))))| >= |Encode(z)|
  {
    hide Encode;
    EncodedLengths(Pair(e, z));
    EncodedLengths(Pair(d, Pair(e, z)));
    EncodedLengths(Pair(c, Pair(d, Pair(e, z))));
    EncodedLengths(Pair(b, Pair(c, Pair(d, Pair(e, z)))));
    EncodedLengths(Pair(a, Pair(b, Pair(c, Pair(d, Pair(e, z))))));
  }

  /**
   The worker decodes the very message the coordinator forwards: of the kind of its request and under its id, naming
   its adapter or its instance, with a fence that decodes to the request's own where it has one.
   */
  lemma CommandCarriesItsRequest(t: Task)
    requires Short(t.worker)
    ensures var m := Forwarded(t); var wire := Seal(Encode(MessageVal(m)));
      && Unseal(MessageF(|wire|), wire) == Ok(MessageVal(m))
      && m.kind == KindOf(t.cmd) && Answerable(m.kind) && m.reqId == t.req
      && m.text == Uuids.Text(Named(t.cmd))
      && m.text2 == (if t.cmd.Load? then Uuids.Text(t.inst) else if t.cmd.Migrate? then t.worker else [])
      && (if CarriesFence(t.cmd) then Unseal(FenceF(), m.payload) == Ok(FenceVal(t.cmd.fence)) else m.payload == [])
  {
    hide Encode, FenceVal, MessageVal, FenceF, MessageF, Unseal, Seal, MessageOk, Fits;
    var m := Forwarded(t);
    var wire := Seal(Encode(MessageVal(m)));
    CommandIsOk(t);
    PayloadIsWithin(m);
    MessageFits(|wire|, m);
    RoundTripExactly(MessageF(|wire|), MessageVal(m));
    if CarriesFence(t.cmd) {
      EveryFenceFits(t.cmd.fence);
      RoundTripExactly(FenceF(), FenceVal(t.cmd.fence));
    }
  }

  /** Two forwarded commands are the same message only for requests a worker cannot tell apart. */
  lemma SameCommandSameRequest(t: Task, u: Task)
    requires Short(t.worker) && Short(u.worker) && Forwarded(t) == Forwarded(u)
    ensures t.req == u.req && KindOf(t.cmd) == KindOf(u.cmd) && Named(t.cmd) == Named(u.cmd)
    ensures CarriesFence(t.cmd) ==> CarriesFence(u.cmd) && t.cmd.fence == u.cmd.fence
    ensures t.cmd.Load? ==> t.inst == u.inst
  {
    hide Forwarded, FenceVal, Unseal, MessageVal, Encode, Seal, Uuids.Text;
    CommandCarriesItsRequest(t);
    CommandCarriesItsRequest(u);
    Uuids.TextInjective(Named(t.cmd), Named(u.cmd));
    if CarriesFence(t.cmd) {
      FencesDiffer(t.cmd.fence, u.cmd.fence);
      if t.cmd.Load? {
        Uuids.TextInjective(t.inst, u.inst);
      }
    }
  }

  lemma FencesDiffer(f: AuthorityFence, g: AuthorityFence)
    ensures FenceVal(f) == FenceVal(g) ==> f == g
  {
  }
}
