/** The fence and message codecs of src/protocol.cpp. */
module Protocol {
  import opened Basics
  import opened Codec
  import opened Envelope
  import opened Records
  import opened AdapterCodec

  const WK_ERROR: byte := 0x35
  const WK_LOAD: byte := 0x40
  const WK_LOAD_ACK: byte := 0x41
  const WK_ACTIVATE: byte := 0x42
  const WK_ACTIVATE_ACK: byte := 0x43
  const WK_DEACTIVATE: byte := 0x44
  const WK_DEACTIVATE_ACK: byte := 0x45
  const WK_MIGRATE: byte := 0x46
  const WK_MIGRATE_ACK: byte := 0x47
  const WK_INVALIDATE: byte := 0x48
  const WK_INVALIDATE_ACK: byte := 0x49
  const WK_SHUTDOWN: byte := 0x4F

  function FenceF(): Format {
    FPair(IdF(), FPair(IdF(), FPair(FNum(8), FPair(FNum(8), FPair(FNum(8), FPair(FNum(8), FPair(IdF(),
    FPair(FNum(8), FenceTailF()))))))))
  }
  function FenceTailF(): Format { FPair(IdF(), FPair(IdF(), FPair(IdF(), FPair(IdF(), IdF())))) }

  function FenceVal(f: AuthorityFence): Val {
    Pair(IdVal(f.adapter), Pair(IdVal(f.composition), Pair(U64Val(f.adapterGeneration),
    Pair(U64Val(f.compositionGeneration), Pair(U64Val(f.residencyGeneration), Pair(U64Val(f.artifactGeneration),
    Pair(IdVal(f.baseModelRevision), Pair(U64Val(f.epoch), FenceTailVal(f)))))))))
  }
  function FenceTailVal(f: AuthorityFence): Val {
    Pair(IdVal(f.worker), Pair(IdVal(f.boot), Pair(IdVal(f.attempt), Pair(IdVal(f.device), IdVal(f.node)))))
  }

  /** `limit` is the size of the whole sealed message, which caps the stated payload length. */
  function MessageF(limit: nat): Format {
    FPair(FNum(1), FPair(FText, FPair(FText, FPair(FText, FPair(FText, MessageTailF(limit))))))
  }
  function MessageTailF(limit: nat): Format {
    FPair(FNum(8), FPair(FNum(8), FPair(FNum(8), FPair(FNum(8), FPair(FFlag, FBlob(limit))))))
  }

  function MessageVal(m: Message): Val {
    Pair(U8Val(m.kind), Pair(TextVal(m.text), Pair(TextVal(m.text2), Pair(TextVal(m.text3),
    Pair(TextVal(m.text4), MessageTailVal(m))))))
  }
  function MessageTailVal(m: Message): Val {
    Pair(U64Val(m.a), Pair(U64Val(m.b), Pair(U64Val(m.c), Pair(U64Val(m.reqId),
    Pair(FlagVal(m.ok), TextVal(m.payload))))))
  }

  method WriteFenceTail(w: BinWriter, f: AuthorityFence)
    modifies w
    ensures Wrote(old(w.buf), FenceTailVal(f), w.buf)
  {
    hide Encode;
    WroteAppended(old(w.buf), FenceTailVal(f));
    w.Raw(f.worker);
    w.Raw(f.boot);
    w.Raw(f.attempt);
    w.Raw(f.device);
    w.Raw(f.node);
  }

  method EncodeFence(f: AuthorityFence) returns (bytes: Bytes)
    ensures bytes == Seal(Encode(FenceVal(f)))
  {
    hide Encode;
    var w := new BinWriter();
    w.Raw(f.adapter);
    w.Raw(f.composition);
    w.Number(f.adapterGeneration, 8);
    w.Number(f.compositionGeneration, 8);
    w.Number(f.residencyGeneration, 8);
    w.Number(f.artifactGeneration, 8);
    w.Raw(f.baseModelRevision);
    w.Number(f.epoch, 8);
    WriteFenceTail(w, f);
    assert w.buf == [] + Encode(FenceVal(f));
    assert w.buf == Encode(FenceVal(f));
    bytes := w.Close();
  }

  method ReadFenceTail(r: BinReader, f: AuthorityFence) returns (res: Result<AuthorityFence>)
    requires r.Valid()
    modifies r
    ensures r.Valid() && Reads(FenceTailF(), old(r.Rest()), res.Map(FenceTailVal), r.Rest())
    ensures res.Ok? ==> var g := res.value;
      g == f.(worker := g.worker, boot := g.boot, attempt := g.attempt, device := g.device, node := g.node)
  {
    hide Decode;
    Heads(FenceTailF(), r.Rest());
    var worker :- r.Id();
    var boot :- r.Id();
    var attempt :- r.Id();
    var device :- r.Id();
    var node :- r.Id();
    res := Ok(f.(worker := worker, boot := boot, attempt := attempt, device := device, node := node));
  }

  method ReadFence(r: BinReader) returns (res: Result<AuthorityFence>)
    requires r.Valid()
    modifies r
    ensures r.Valid() && Reads(FenceF(), old(r.Rest()), res.Map(FenceVal), r.Rest())
  {
    hide Decode, FenceTailF;
    Heads(FenceF(), r.Rest());
    var adapter :- r.Id();
    var composition :- r.Id();
    var adapterGeneration :- r.U64();
    var compositionGeneration :- r.U64();
    var residencyGeneration :- r.U64();
    var artifactGeneration :- r.U64();
    var revision :- r.Id();
    var epoch :- r.U64();
    res := ReadFenceTail(r, AuthorityFence(
      adapter, composition, adapterGeneration, compositionGeneration, residencyGeneration, artifactGeneration,
      revision, epoch, NIL, NIL, NIL, NIL, NIL));
  }

  method DecodeFence(bytes: Bytes) returns (res: Result<AuthorityFence>)
    ensures res.Map(FenceVal) == Unseal(FenceF(), bytes)
  {
    hide Decode, FenceF;
    var r :- BinReader.Create(bytes);
    var f :- ReadFence(r);
    var _ :- r.ExpectEnd();
    res := Ok(f);
  }

  lemma EveryFenceFits(f: AuthorityFence)
    ensures Fits(FenceF(), FenceVal(f))
  {
    hide Fits;
    FitsClauses();
    WidthsOfWords();
    assert Fits(FenceTailF(), FenceTailVal(f));
  }

  /** Every fence survives the wire unchanged. */
  method FenceRoundTrip(f: AuthorityFence) returns (res: Result<AuthorityFence>)
    ensures res == Ok(f)
  {
    var bytes := EncodeFence(f);
    res := DecodeFence(bytes);
    EveryFenceFits(f);
    RoundTripExactly(FenceF(), FenceVal(f));
    assert FenceVal(res.value) == FenceVal(f);
  }

  method WriteMessageTail(w: BinWriter, m: Message)
    modifies w
    ensures Wrote(old(w.buf), MessageTailVal(m), w.buf) && |w.buf| >= |m.payload|
  {
    hide Encode;
    WroteAppended(old(w.buf), MessageTailVal(m));
    w.Number(m.a, 8);
    w.Number(m.b, 8);
    w.Number(m.c, 8);
    w.Number(m.reqId, 8);
    w.Bool(m.ok);
    WriteBlob(w, m.payload);
  }

  /** The length and the bytes of a payload, written separately. */
  method WriteBlob(w: BinWriter, payload: Bytes)
    modifies w
    ensures Wrote(old(w.buf), TextVal(payload), w.buf) && |w.buf| >= |payload|
  {
    w.Number(|payload|, 4);
    w.Raw(payload);
    ConcatAssociates(old(w.buf), LE(|payload|, 4), payload);
    WroteAppended(old(w.buf), TextVal(payload));
  }

  method EncodeMessage(m: Message) returns (bytes: Bytes)
    ensures bytes == Seal(Encode(MessageVal(m))) && |bytes| >= |m.payload|
  {
    hide Encode;
    var w := new BinWriter();
    w.Number(m.kind, 1);
    w.Str(m.text);
    w.Str(m.text2);
    w.Str(m.text3);
    w.Str(m.text4);
    WriteMessageTail(w, m);
    assert w.buf == [] + Encode(MessageVal(m));
    assert w.buf == Encode(MessageVal(m));
    bytes := w.Close();
  }

  method ReadBlob(r: BinReader) returns (res: Result<Bytes>)
    requires r.Valid()
    modifies r
    ensures r.Valid() && Reads(FBlob(|r.data|), old(r.Rest()), res.Map(TextVal), r.Rest())
  {
    ghost var s := r.Rest();
    var n :- r.U32();
    assert s[4..] == r.Rest();
    if n > |r.data| { return Err(Malformed); }
    res := r.Raw(n);
    assert res.Ok? ==> s[4..4 + n] == s[4..][..n] && s[4 + n..] == s[4..][n..];
  }

  method ReadMessageTail(r: BinReader, m: Message) returns (res: Result<Message>)
    requires r.Valid()
    modifies r
    ensures r.Valid() && Reads(MessageTailF(|r.data|), old(r.Rest()), res.Map(MessageTailVal), r.Rest())
    ensures res.Ok? ==> var n := res.value;
      n == m.(a := n.a, b := n.b, c := n.c, reqId := n.reqId, ok := n.ok, payload := n.payload)
  {
    hide Decode;
    Heads(MessageTailF(|r.data|), r.Rest());
    var a :- r.U64();
    var b :- r.U64();
    var c :- r.U64();
    var reqId :- r.U64();
    var ok :- r.Bool();
    var payload :- ReadBlob(r);
    res := Ok(m.(a := a, b := b, c := c, reqId := reqId, ok := ok, payload := payload));
  }

  method ReadMessage(r: BinReader) returns (res: Result<Message>)
    requires r.Valid()
    modifies r
    ensures r.Valid() && Reads(MessageF(|r.data|), old(r.Rest()), res.Map(MessageVal), r.Rest())
  {
    hide Decode, MessageTailF;
    Heads(MessageF(|r.data|), r.Rest());
    var kind :- r.U8();
    var text :- r.Str();
    var text2 :- r.Str();
    var text3 :- r.Str();
    var text4 :- r.Str();
    res := ReadMessageTail(r, Message(kind, text, text2, text3, text4, 0, 0, 0, 0, false, []));
  }

  method DecodeMessage(bytes: Bytes) returns (res: Result<Message>)
    ensures res.Map(MessageVal) == Unseal(MessageF(|bytes|), bytes)
  {
    hide Decode, MessageF;
    var r :- BinReader.Create(bytes);
    var m :- ReadMessage(r);
    var _ :- r.ExpectEnd();
    res := Ok(m);
  }

  predicate MessageOk(m: Message) {
    Short(m.text) && Short(m.text2) && Short(m.text3) && Short(m.text4) && Short(m.payload)
  }

  lemma MessageFits(limit: nat, m: Message)
    ensures Fits(MessageF(limit), MessageVal(m)) <==> MessageOk(m) && |m.payload| <= limit
  {
    hide Fits;
    FitsClauses();
    WidthsOfWords();
  }

  /** A message survives the wire exactly when its texts and its payload have 32-bit lengths. */
  method MessageRoundTrip(m: Message) returns (res: Result<Message>)
    ensures res == Ok(m) <==> MessageOk(m)
  {
    var bytes := EncodeMessage(m);
    res := DecodeMessage(bytes);
    MessageFits(|bytes|, m);
    RoundTripExactly(MessageF(|bytes|), MessageVal(m));
    assert res.Ok? && MessageVal(res.value) == MessageVal(m) ==> res.value == m;
  }

  lemma LargerLimit(limit: nat, more: nat, v: Val)
    requires Fits(MessageF(limit), v) && limit <= more
    ensures Fits(MessageF(more), v)
  {
    hide Fits;
    FitsClauses();
  }

  /** Anything appended to a valid message payload is refused, although it raises the length limit. */
  lemma AppendedMessageIsRefused(p: Bytes, extra: Bytes)
    requires Unseal(MessageF(|p| + 8), Seal(p)).Ok? && extra != []
    ensures Unseal(MessageF(|p + extra| + 8), Seal(p + extra)) == Err(TrailingGarbage)
  {
    hide MessageF;
    OpenSeal(p);
    OpenSeal(p + extra);
    var f := MessageF(|p| + 8);
    var q := DecodeIsSound(f, p);
    assert q + [] == q;
    var v := Decode(f, p).v;
    LargerLimit(|p| + 8, |p + extra| + 8, v);
    DecodeIsComplete(MessageF(|p + extra| + 8), v, p, extra);
  }

  lemma TruncatedMessageIsRefused(p: Bytes, k: nat)
    requires Unseal(MessageF(|p| + 8), Seal(p)).Ok? && k < |p|
    ensures Unseal(MessageF(k + 8), Seal(p[..k])).Err?
  {
    hide MessageF;
    if Unseal(MessageF(k + 8), Seal(p[..k])).Ok? {
      assert p == p[..k] + p[k..];
      AppendedMessageIsRefused(p[..k], p[k..]);
      assert false;
    }
  }
}
