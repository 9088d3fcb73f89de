/** The snapshot codec of src/persistence.cpp. */
module SnapshotCodec {
  import opened Basics
  import opened Codec
  import opened Envelope
  import opened Records
  import opened AdapterCodec
  import opened Compositions

  const SNAPSHOT_FORMAT: u32 := 1

  predicate NonEmptyList(v: Val) { v.List? && v.items != [] }
  predicate CurrentFormat(v: Val) { v == U32Val(SNAPSHOT_FORMAT) }

  /** The memory total a composition states is the 64-bit sum over its members. */
  ghost predicate TotalAgrees(v: Val) {
    exists c :: v == CompositionVal(c) && c.totalMemoryBytes == TotalMemory(c.members)
  }

  /** The digest a composition states is the one its members and policy hash to. */
  ghost predicate DigestAgrees(v: Val) {
    exists c :: v == CompositionVal(c) && c.digest == Digest(c.members, c.policy)
  }

  function GenerationF(): Format { FGuard(FNum(8), NotZero, InvalidGenerationValue) }
  function MemberF(): Format {
    FPair(IdF(), FPair(IdF(), FPair(GenerationF(), FPair(FNum(8), FNum(1)))))
  }
  function MembersF(): Format { FGuard(FList(MAX_COUNT, MemberF(), false), NonEmptyList, InvalidComposition) }
  function CompositionRecordF(): Format {
    FPair(IdF(), FPair(MembersF(), FPair(GenerationF(), FPair(IdF(), FPair(IdF(), FPair(FText,
    FPair(FNum(8), FPair(FText, FPair(FText, FFlag)))))))))
  }
  ghost function CompositionF(): Format {
    FGuard(FGuard(CompositionRecordF(), TotalAgrees, InvalidComposition), DigestAgrees, InvalidComposition)
  }
  function WorkerCapabilityF(): Format { FPair(FText, FText) }
  function WorkerF(): Format {
    FPair(IdF(), FPair(IdF(), FPair(FText, FPair(IdF(), FPair(IdF(), FPair(FFlag, FPair(FNum(8),
    FPair(FList(MAX_COUNT, WorkerCapabilityF(), false), FPair(FNum(8), FList(MAX_COUNT, FRaw(16), false))))))))))
  }
  ghost function SnapshotF(): Format {
    FPair(FGuard(FNum(4), CurrentFormat, UnsupportedVersion), FPair(FNum(8), FPair(FNum(8), FPair(FNum(8),
    FPair(FList(MAX_COUNT, DescF(), true),
    FPair(FList(MAX_COUNT, CompositionF(), true), FList(MAX_COUNT, WorkerF(), true)))))))
  }

  function MemberVal(m: CompositionMember): Val {
    Pair(IdVal(m.adapterId), Pair(IdVal(m.revision), Pair(U64Val(m.generation),
    Pair(U64Val(m.memoryBytes), U8Val(m.kind)))))
  }
  function MembersVal(ms: seq<CompositionMember>): Val { List(MapSeq(MemberVal, ms)) }
  function CompositionVal(c: Composition): Val {
    Pair(IdVal(c.id), Pair(MembersVal(c.members), Pair(U64Val(c.generation), Pair(IdVal(c.baseModel),
    Pair(IdVal(c.baseModelRevision), Pair(TextVal(c.policy), Pair(U64Val(c.totalMemoryBytes),
    Pair(TextVal(c.digest), Pair(TextVal(c.validationSummary), FlagVal(c.isValid))))))))))
  }
  function WorkerCapabilityVal(c: WorkerCapability): Val { Pair(TextVal(c.name), TextVal(c.value)) }
  function WorkerCapabilitiesVal(xs: seq<WorkerCapability>): Val { List(MapSeq(WorkerCapabilityVal, xs)) }
  function IdsVal(xs: seq<Uuid>): Val { List(MapSeq(IdVal, xs)) }
  function WorkerVal(w: WorkerRecord): Val {
    Pair(IdVal(w.id), Pair(IdVal(w.boot), Pair(TextVal(w.address), Pair(IdVal(w.node), Pair(IdVal(w.device),
    Pair(FlagVal(w.connected), Pair(U64Val(w.epoch), Pair(WorkerCapabilitiesVal(w.capabilities),
    Pair(U64Val(w.deviceMemoryBytes), IdsVal(w.localAdapters))))))))))
  }
  function AdaptersVal(xs: seq<AdapterDescriptor>): Val { List(MapSeq(DescVal, xs)) }
  function CompositionsVal(xs: seq<Composition>): Val { List(MapSeq(CompositionVal, xs)) }
  function WorkersVal(xs: seq<WorkerRecord>): Val { List(MapSeq(WorkerVal, xs)) }
  function SnapshotVal(s: FabricSnapshot): Val {
    Pair(U32Val(SNAPSHOT_FORMAT), Pair(U64Val(s.epoch), Pair(U64Val(s.nextAdapterGeneration),
    Pair(U64Val(s.nextCompositionGeneration), Pair(AdaptersVal(s.adapters),
    Pair(CompositionsVal(s.compositions), WorkersVal(s.workers)))))))
  }

  // ---- writing ----

  method WriteMember(w: BinWriter, m: CompositionMember)
    modifies w
    ensures Wrote(old(w.buf), MemberVal(m), w.buf)
  {
    hide Encode;
    WroteAppended(old(w.buf), MemberVal(m));
    w.Raw(m.adapterId);
    w.Raw(m.revision);
    w.Number(m.generation, 8);
    w.Number(m.memoryBytes, 8);
    w.Number(m.kind, 1);
  }

  method WriteMembers(w: BinWriter, xs: seq<CompositionMember>)
    modifies w
    ensures Wrote(old(w.buf), MembersVal(xs), w.buf)
  {
    ghost var items := MapSeq(MemberVal, xs);
    ListStarts(w.buf, items);
    w.Number(|xs|, 4);
    var i := 0;
    while i < |xs|
      invariant 0 <= i <= |xs|
      invariant w.buf + EncodeAll(items[i..]) == old(w.buf) + Encode(List(items))
    {
      ListContinues(w.buf, items, i);
      WriteMember(w, xs[i]);
      i := i + 1;
    }
    WroteAppended(old(w.buf), MembersVal(xs));
  }

  method WriteComposition(w: BinWriter, c: Composition)
    modifies w
    ensures Wrote(old(w.buf), CompositionVal(c), w.buf)
  {
    hide Encode;
    WroteAppended(old(w.buf), CompositionVal(c));
    w.Raw(c.id);
    WriteMembers(w, c.members);
    w.Number(c.generation, 8);
    w.Raw(c.baseModel);
    w.Raw(c.baseModelRevision);
    w.Str(c.policy);
    w.Number(c.totalMemoryBytes, 8);
    w.Str(c.digest);
    w.Str(c.validationSummary);
    w.Bool(c.isValid);
  }

  method WriteWorkerCapability(w: BinWriter, c: WorkerCapability)
    modifies w
    ensures Wrote(old(w.buf), WorkerCapabilityVal(c), w.buf)
  {
    hide Encode;
    WroteAppended(old(w.buf), WorkerCapabilityVal(c));
    w.Str(c.name);
    w.Str(c.value);
  }

  method WriteWorkerCapabilities(w: BinWriter, xs: seq<WorkerCapability>)
    modifies w
    ensures Wrote(old(w.buf), WorkerCapabilitiesVal(xs), w.buf)
  {
    ghost var items := MapSeq(WorkerCapabilityVal, xs);
    ListStarts(w.buf, items);
    w.Number(|xs|, 4);
    var i := 0;
    while i < |xs|
      invariant 0 <= i <= |xs|
      invariant w.buf + EncodeAll(items[i..]) == old(w.buf) + Encode(List(items))
    {
      ListContinues(w.buf, items, i);
      WriteWorkerCapability(w, xs[i]);
      i := i + 1;
    }
    WroteAppended(old(w.buf), WorkerCapabilitiesVal(xs));
  }

  method WriteIds(w: BinWriter, xs: seq<Uuid>)
    modifies w
    ensures Wrote(old(w.buf), IdsVal(xs), w.buf)
  {
    ghost var items := MapSeq(IdVal, xs);
    ListStarts(w.buf, items);
    w.Number(|xs|, 4);
    var i := 0;
    while i < |xs|
      invariant 0 <= i <= |xs|
      invariant w.buf + EncodeAll(items[i..]) == old(w.buf) + Encode(List(items))
    {
      ListContinues(w.buf, items, i);
      w.Raw(xs[i]);
      i := i + 1;
    }
    WroteAppended(old(w.buf), IdsVal(xs));
  }

  method WriteWorker(w: BinWriter, k: WorkerRecord)
    modifies w
    ensures Wrote(old(w.buf), WorkerVal(k), w.buf)
  {
    hide Encode;
    WroteAppended(old(w.buf), WorkerVal(k));
    w.Raw(k.id);
    w.Raw(k.boot);
    w.Str(k.address);
    w.Raw(k.node);
    w.Raw(k.device);
    w.Bool(k.connected);
    w.Number(k.epoch, 8);
    WriteWorkerCapabilities(w, k.capabilities);
    w.Number(k.deviceMemoryBytes, 8);
    WriteIds(w, k.localAdapters);
  }

  method WriteAdapters(w: BinWriter, xs: seq<AdapterDescriptor>)
    modifies w
    ensures Wrote(old(w.buf), AdaptersVal(xs), w.buf)
  {
    ghost var items := MapSeq(DescVal, xs);
    ListStarts(w.buf, items);
    w.Number(|xs|, 4);
    var i := 0;
    while i < |xs|
      invariant 0 <= i <= |xs|
      invariant w.buf + EncodeAll(items[i..]) == old(w.buf) + Encode(List(items))
    {
      ListContinues(w.buf, items, i);
      WriteDesc(w, xs[i]);
      i := i + 1;
    }
    WroteAppended(old(w.buf), AdaptersVal(xs));
  }

  method WriteCompositions(w: BinWriter, xs: seq<Composition>)
    modifies w
    ensures Wrote(old(w.buf), CompositionsVal(xs), w.buf)
  {
    ghost var items := MapSeq(CompositionVal, xs);
    ListStarts(w.buf, items);
    w.Number(|xs|, 4);
    var i := 0;
    while i < |xs|
      invariant 0 <= i <= |xs|
      invariant w.buf + EncodeAll(items[i..]) == old(w.buf) + Encode(List(items))
    {
      ListContinues(w.buf, items, i);
      WriteComposition(w, xs[i]);
      i := i + 1;
    }
    WroteAppended(old(w.buf), CompositionsVal(xs));
  }

  method WriteWorkers(w: BinWriter, xs: seq<WorkerRecord>)
    modifies w
    ensures Wrote(old(w.buf), WorkersVal(xs), w.buf)
  {
    ghost var items := MapSeq(WorkerVal, xs);
    ListStarts(w.buf, items);
    w.Number(|xs|, 4);
    var i := 0;
    while i < |xs|
      invariant 0 <= i <= |xs|
      invariant w.buf + EncodeAll(items[i..]) == old(w.buf) + Encode(List(items))
    {
      ListContinues(w.buf, items, i);
      WriteWorker(w, xs[i]);
      i := i + 1;
    }
    WroteAppended(old(w.buf), WorkersVal(xs));
  }

  method SerializeSnapshot(s: FabricSnapshot) returns (bytes: Bytes)
    ensures bytes == Seal(Encode(SnapshotVal(s)))
  {
    hide Encode;
    var w := new BinWriter();
    w.Number(SNAPSHOT_FORMAT, 4);
    w.Number(s.epoch, 8);
    w.Number(s.nextAdapterGeneration, 8);
    w.Number(s.nextCompositionGeneration, 8);
    WriteAdapters(w, s.adapters);
    WriteCompositions(w, s.compositions);
    WriteWorkers(w, s.workers);
    assert w.buf == [] + Encode(SnapshotVal(s));
    assert w.buf == Encode(SnapshotVal(s));
    bytes := w.Close();
  }

  // ---- reading ----

  method ReadGeneration(r: BinReader) returns (res: Result<u64>)
    requires r.Valid()
    modifies r
    ensures r.Valid() && Reads(GenerationF(), old(r.Rest()), res.Map(U64Val), r.Rest())
  {
    var x :- r.U64();
    if !(x != 0) { return Err(InvalidGenerationValue); }
    res := Ok(x);
  }

  method ReadMember(r: BinReader) returns (res: Result<CompositionMember>)
    requires r.Valid()
    modifies r
    ensures r.Valid() && Reads(MemberF(), old(r.Rest()), res.Map(MemberVal), r.Rest())
  {
    hide Decode;
    Heads(MemberF(), r.Rest());
    var id :- r.Id();
    var revision :- r.Id();
    var generation :- ReadGeneration(r);
    var memory :- r.U64();
    var kind :- r.U8();
    res := Ok(CompositionMember(id, revision, generation, memory, kind));
  }

  lemma NoTotal()
    ensures TotalMemory([]) == 0
  {
  }

  lemma TotalSnoc(xs: seq<CompositionMember>, x: CompositionMember)
    ensures TotalMemory(xs + [x]) == (TotalMemory(xs) + x.memoryBytes) % TWO_TO_THE_64
  {
    assert (xs + [x])[..|xs|] == xs;
  }

  /** Reads the members, adding up their memory on the way. */
  method ReadMembers(r: BinReader) returns (res: Result<(seq<CompositionMember>, u64)>)
    requires r.Valid()
    modifies r
    ensures r.Valid()
    ensures Reads(MembersF(), old(r.Rest()), res.Map((p: (seq<CompositionMember>, u64)) => MembersVal(p.0)), r.Rest())
    ensures res.Ok? ==> res.value.1 == TotalMemory(res.value.0)
  {
    hide Decode, DecodeMany, MemberF, MemberVal, TotalMemory;
    NoTotal();
    ListHeads(MAX_COUNT, MemberF(), false, r.Rest());
    GuardedHeads(FList(MAX_COUNT, MemberF(), false), NonEmptyList, InvalidComposition, r.Rest());
    var n :- r.U32();
    if n > MAX_COUNT { return Err(Malformed); }
    ghost var all := DecodeMany(MemberF(), false, n, [], r.Rest());
    var xs: seq<CompositionMember>, total: u64, i := [], 0, 0;
    while i < n
      invariant r.Valid() && 0 <= i <= n && total == TotalMemory(xs)
      invariant all == DecodeMany(MemberF(), false, n - i, MapSeq(MemberVal, xs), r.Rest())
    {
      NextElement(MemberF(), false, n - i, MapSeq(MemberVal, xs), r.Rest());
      var x :- ReadMember(r);
      MapSeqSnoc(MemberVal, xs, x);
      TotalSnoc(xs, x);
      xs, total, i := xs + [x], (total + x.memoryBytes) % TWO_TO_THE_64, i + 1;
    }
    NextElement(MemberF(), false, 0, MapSeq(MemberVal, xs), r.Rest());
    if xs == [] { return Err(InvalidComposition); }
    res := Ok((xs, total));
  }

  /** Reads the fields of a composition, and the total its members add up to. */
  method ReadCompositionRecord(r: BinReader) returns (res: Result<(Composition, u64)>)
    requires r.Valid()
    modifies r
    ensures r.Valid()
    ensures Reads(CompositionRecordF(), old(r.Rest()), res.Map((p: (Composition, u64)) => CompositionVal(p.0)),
                  r.Rest())
    ensures res.Ok? ==> res.value.1 == TotalMemory(res.value.0.members)
  {
    hide Decode, MembersF, MembersVal, TotalMemory;
    Heads(CompositionRecordF(), r.Rest());
    var id :- r.Id();
    var members :- ReadMembers(r);
    var generation :- ReadGeneration(r);
    var base :- r.Id();
    var rev :- r.Id();
    var policy :- r.Str();
    var total :- r.U64();
    var digest :- r.Str();
    var summary :- r.Str();
    var valid :- r.Bool();
    res := Ok((Composition(id, members.0, generation, base, rev, policy, total, digest, summary, valid), members.1));
  }

  method ReadComposition(r: BinReader) returns (res: Result<Composition>)
    requires r.Valid()
    modifies r
    ensures r.Valid() && Reads(CompositionF(), old(r.Rest()), res.Map(CompositionVal), r.Rest())
  {
    hide Decode, CompositionRecordF;
    GuardedHeads(CompositionRecordF(), TotalAgrees, InvalidComposition, r.Rest());
    GuardedHeads(FGuard(CompositionRecordF(), TotalAgrees, InvalidComposition), DigestAgrees, InvalidComposition,
                 r.Rest());
    var p :- ReadCompositionRecord(r);
    var c, total := p.0, p.1;
    GuardsOfComposition(c);
    if c.totalMemoryBytes != total { return Err(InvalidComposition); }
    var digest := ComputeDigest(c.members, c.policy);
    if digest != c.digest { return Err(InvalidComposition); }
    res := Ok(c);
  }

  lemma GuardsOfComposition(c: Composition)
    ensures TotalAgrees(CompositionVal(c)) <==> c.totalMemoryBytes == TotalMemory(c.members)
    ensures DigestAgrees(CompositionVal(c)) <==> c.digest == Digest(c.members, c.policy)
  {
    forall d: Composition | CompositionVal(d) == CompositionVal(c)
      ensures d == c
    {
      MapSeqInjective(MemberVal, d.members, c.members);
    }
  }

  method ReadWorkerCapability(r: BinReader) returns (res: Result<WorkerCapability>)
    requires r.Valid()
    modifies r
    ensures r.Valid() && Reads(WorkerCapabilityF(), old(r.Rest()), res.Map(WorkerCapabilityVal), r.Rest())
  {
    hide Decode;
    Heads(WorkerCapabilityF(), r.Rest());
    var name :- r.Str();
    var value :- r.Str();
    res := Ok(WorkerCapability(name, value));
  }

  method ReadWorkerCapabilities(r: BinReader) returns (res: Result<seq<WorkerCapability>>)
    requires r.Valid()
    modifies r
    ensures r.Valid()
    ensures Reads(FList(MAX_COUNT, WorkerCapabilityF(), false), old(r.Rest()), res.Map(WorkerCapabilitiesVal), r.Rest())
  {
    hide Decode, DecodeMany, WorkerCapabilityF;
    ListHeads(MAX_COUNT, WorkerCapabilityF(), false, r.Rest());
    var n :- r.U32();
    if n > MAX_COUNT { return Err(Malformed); }
    ghost var all := DecodeMany(WorkerCapabilityF(), false, n, [], r.Rest());
    var xs: seq<WorkerCapability>, i := [], 0;
    while i < n
      invariant r.Valid() && 0 <= i <= n
      invariant all == DecodeMany(WorkerCapabilityF(), false, n - i, MapSeq(WorkerCapabilityVal, xs), r.Rest())
    {
      NextElement(WorkerCapabilityF(), false, n - i, MapSeq(WorkerCapabilityVal, xs), r.Rest());
      var x :- ReadWorkerCapability(r);
      MapSeqSnoc(WorkerCapabilityVal, xs, x);
      xs, i := xs + [x], i + 1;
    }
    NextElement(WorkerCapabilityF(), false, 0, MapSeq(WorkerCapabilityVal, xs), r.Rest());
    res := Ok(xs);
  }

  method ReadIds(r: BinReader) returns (res: Result<seq<Uuid>>)
    requires r.Valid()
    modifies r
    ensures r.Valid() && Reads(FList(MAX_COUNT, FRaw(16), false), old(r.Rest()), res.Map(IdsVal), r.Rest())
  {
    hide Decode, DecodeMany;
    ListHeads(MAX_COUNT, FRaw(16), false, r.Rest());
    var n :- r.U32();
    if n > MAX_COUNT { return Err(Malformed); }
    ghost var all := DecodeMany(FRaw(16), false, n, [], r.Rest());
    var xs: seq<Uuid>, i := [], 0;
    while i < n
      invariant r.Valid() && 0 <= i <= n
      invariant all == DecodeMany(FRaw(16), false, n - i, MapSeq(IdVal, xs), r.Rest())
    {
      NextElement(FRaw(16), false, n - i, MapSeq(IdVal, xs), r.Rest());
      var x :- r.Id();
      MapSeqSnoc(IdVal, xs, x);
      xs, i := xs + [x], i + 1;
    }
    NextElement(FRaw(16), false, 0, MapSeq(IdVal, xs), r.Rest());
    res := Ok(xs);
  }

  method ReadWorker(r: BinReader) returns (res: Result<WorkerRecord>)
    requires r.Valid()
    modifies r
    ensures r.Valid() && Reads(WorkerF(), old(r.Rest()), res.Map(WorkerVal), r.Rest())
  {
    hide Decode;
    Heads(WorkerF(), r.Rest());
    var id :- r.Id();
    var boot :- r.Id();
    var address :- r.Str();
    var node :- r.Id();
    var device :- r.Id();
    var connected :- r.Bool();
    var epoch :- r.U64();
    var capabilities :- ReadWorkerCapabilities(r);
    var memory :- r.U64();
    var local :- ReadIds(r);
    res := Ok(WorkerRecord(id, boot, address, node, device, connected, epoch, capabilities, memory, local));
  }

  /** `ids` holds exactly the keys of the elements seen so far. */
  ghost predicate Tracks(ids: set<Uuid>, seen: seq<Val>) {
    && (forall k :: 0 <= k < |seen| ==> Key(seen[k]).Raw? && Key(seen[k]).bytes in ids)
    && (forall u <- ids :: exists k :: 0 <= k < |seen| && Key(seen[k]) == IdVal(u))
  }

  lemma NothingTracked()
    ensures Tracks({}, [])
  {
  }

  lemma KeyTracked(ids: set<Uuid>, seen: seq<Val>, v: Val, id: Uuid)
    requires Tracks(ids, seen) && Key(v) == IdVal(id)
    ensures KeySeen(seen, v) <==> id in ids
    ensures Tracks(ids + {id}, seen + [v])
  {
    var all := seen + [v];
    assert Key(all[|seen|]) == IdVal(id);
    forall u | u in ids + {id}
      ensures exists k :: 0 <= k < |all| && Key(all[k]) == IdVal(u)
    {
      if u in ids {
        var k :| 0 <= k < |seen| && Key(seen[k]) == IdVal(u);
        assert Key(all[k]) == IdVal(u);
      }
    }
  }

  lemma AdaptersKey(x: AdapterDescriptor)
    ensures Key(DescVal(x)) == IdVal(x.id)
  {
  }

  method ReadAdapters(r: BinReader) returns (res: Result<seq<AdapterDescriptor>>)
    requires r.Valid()
    modifies r
    ensures r.Valid() && Reads(FList(MAX_COUNT, DescF(), true), old(r.Rest()), res.Map(AdaptersVal), r.Rest())
  {
    hide Decode, DecodeMany, DescF, DescVal, Tracks, KeySeen;
    ListHeads(MAX_COUNT, DescF(), true, r.Rest());
    var n :- r.U32();
    if n > MAX_COUNT { return Err(Malformed); }
    ghost var all := DecodeMany(DescF(), true, n, [], r.Rest());
    var xs: seq<AdapterDescriptor>, ids: set<Uuid>, i := [], {}, 0;
    NothingTracked();
    assert MapSeq(DescVal, xs) == [];
    while i < n
      invariant r.Valid() && 0 <= i <= n
      invariant Tracks(ids, MapSeq(DescVal, xs))
      invariant all == DecodeMany(DescF(), true, n - i, MapSeq(DescVal, xs), r.Rest())
    {
      NextElement(DescF(), true, n - i, MapSeq(DescVal, xs), r.Rest());
      var x :- ReadDesc(r);
      AdaptersKey(x);
      KeyTracked(ids, MapSeq(DescVal, xs), DescVal(x), x.id);
      if x.id in ids { return Err(Duplicate); }
      MapSeqSnoc(DescVal, xs, x);
      xs, ids, i := xs + [x], ids + {x.id}, i + 1;
    }
    NextElement(DescF(), true, 0, MapSeq(DescVal, xs), r.Rest());
    res := Ok(xs);
  }

  lemma CompositionsKey(x: Composition)
    ensures Key(CompositionVal(x)) == IdVal(x.id)
  {
  }

  method ReadCompositions(r: BinReader) returns (res: Result<seq<Composition>>)
    requires r.Valid()
    modifies r
    ensures r.Valid()
    ensures Reads(FList(MAX_COUNT, CompositionF(), true), old(r.Rest()), res.Map(CompositionsVal), r.Rest())
  {
    hide Decode, DecodeMany, CompositionF, CompositionVal, Tracks, KeySeen;
    ListHeads(MAX_COUNT, CompositionF(), true, r.Rest());
    var n :- r.U32();
    if n > MAX_COUNT { return Err(Malformed); }
    ghost var all := DecodeMany(CompositionF(), true, n, [], r.Rest());
    var xs: seq<Composition>, ids: set<Uuid>, i := [], {}, 0;
    NothingTracked();
    assert MapSeq(CompositionVal, xs) == [];
    while i < n
      invariant r.Valid() && 0 <= i <= n
      invariant Tracks(ids, MapSeq(CompositionVal, xs))
      invariant all == DecodeMany(CompositionF(), true, n - i, MapSeq(CompositionVal, xs), r.Rest())
    {
      NextElement(CompositionF(), true, n - i, MapSeq(CompositionVal, xs), r.Rest());
      var x :- ReadComposition(r);
      CompositionsKey(x);
      KeyTracked(ids, MapSeq(CompositionVal, xs), CompositionVal(x), x.id);
      if x.id in ids { return Err(Duplicate); }
      MapSeqSnoc(CompositionVal, xs, x);
      xs, ids, i := xs + [x], ids + {x.id}, i + 1;
    }
    NextElement(CompositionF(), true, 0, MapSeq(CompositionVal, xs), r.Rest());
    res := Ok(xs);
  }

  lemma WorkersKey(x: WorkerRecord)
    ensures Key(WorkerVal(x)) == IdVal(x.id)
  {
  }

  method ReadWorkers(r: BinReader) returns (res: Result<seq<WorkerRecord>>)
    requires r.Valid()
    modifies r
    ensures r.Valid() && Reads(FList(MAX_COUNT, WorkerF(), true), old(r.Rest()), res.Map(WorkersVal), r.Rest())
  {
    hide Decode, DecodeMany, WorkerF, WorkerVal, Tracks, KeySeen;
    ListHeads(MAX_COUNT, WorkerF(), true, r.Rest());
    var n :- r.U32();
    if n > MAX_COUNT { return Err(Malformed); }
    ghost var all := DecodeMany(WorkerF(), true, n, [], r.Rest());
    var xs: seq<WorkerRecord>, ids: set<Uuid>, i := [], {}, 0;
    NothingTracked();
    assert MapSeq(WorkerVal, xs) == [];
    while i < n
      invariant r.Valid() && 0 <= i <= n
      invariant Tracks(ids, MapSeq(WorkerVal, xs))
      invariant all == DecodeMany(WorkerF(), true, n - i, MapSeq(WorkerVal, xs), r.Rest())
    {
      NextElement(WorkerF(), true, n - i, MapSeq(WorkerVal, xs), r.Rest());
      var x :- ReadWorker(r);
      WorkersKey(x);
      KeyTracked(ids, MapSeq(WorkerVal, xs), WorkerVal(x), x.id);
      if x.id in ids { return Err(Duplicate); }
      MapSeqSnoc(WorkerVal, xs, x);
      xs, ids, i := xs + [x], ids + {x.id}, i + 1;
    }
    NextElement(WorkerF(), true, 0, MapSeq(WorkerVal, xs), r.Rest());
    res := Ok(xs);
  }

  method ReadFormat(r: BinReader) returns (res: Result<u32>)
    requires r.Valid()
    modifies r
    ensures r.Valid()
    ensures Reads(FGuard(FNum(4), CurrentFormat, UnsupportedVersion), old(r.Rest()), res.Map(U32Val), r.Rest())
    ensures res.Ok? ==> res.value == SNAPSHOT_FORMAT
  {
    var x :- r.U32();
    if !(x == SNAPSHOT_FORMAT) { return Err(UnsupportedVersion); }
    res := Ok(x);
  }

  method ReadSnapshot(r: BinReader) returns (res: Result<FabricSnapshot>)
    requires r.Valid()
    modifies r
    ensures r.Valid() && Reads(SnapshotF(), old(r.Rest()), res.Map(SnapshotVal), r.Rest())
  {
    hide Decode;
    Heads(SnapshotF(), r.Rest());
    var format :- ReadFormat(r);
    var epoch :- r.U64();
    var nextAdapter :- r.U64();
    var nextComposition :- r.U64();
    var adapters :- ReadAdapters(r);
    var compositions :- ReadCompositions(r);
    var workers :- ReadWorkers(r);
    res := Ok(FabricSnapshot(epoch, nextAdapter, nextComposition, adapters, compositions, workers));
  }

  method DeserializeSnapshot(bytes: Bytes) returns (res: Result<FabricSnapshot>)
    ensures res.Map(SnapshotVal) == Unseal(SnapshotF(), bytes)
  {
    hide Decode, SnapshotF;
    var r :- BinReader.Create(bytes);
    var s :- ReadSnapshot(r);
    var _ :- r.ExpectEnd();
    res := Ok(s);
  }

  // ---- what a snapshot must be to survive the codec ----

  predicate MemberOk(m: CompositionMember) { m.generation != 0 }

  ghost predicate CompositionOk(c: Composition) {
    && c.members != [] && |c.members| <= MAX_COUNT
    && (forall i :: 0 <= i < |c.members| ==> MemberOk(c.members[i]))
    && c.generation != 0 && Short(c.policy) && Short(c.validationSummary)
    && c.totalMemoryBytes == TotalMemory(c.members)
    && c.digest == Digest(c.members, c.policy)
  }

  predicate WorkerOk(w: WorkerRecord) {
    && Short(w.address)
    && |w.capabilities| <= MAX_COUNT
    && (forall i :: 0 <= i < |w.capabilities| ==> Short(w.capabilities[i].name) && Short(w.capabilities[i].value))
    && |w.localAdapters| <= MAX_COUNT
  }

  ghost predicate SnapshotOk(s: FabricSnapshot) {
    && |s.adapters| <= MAX_COUNT && |s.compositions| <= MAX_COUNT && |s.workers| <= MAX_COUNT
    && (forall i :: 0 <= i < |s.adapters| ==> AdapterOk(s.adapters[i]))
    && (forall i :: 0 <= i < |s.compositions| ==> CompositionOk(s.compositions[i]))
    && (forall i :: 0 <= i < |s.workers| ==> WorkerOk(s.workers[i]))
    && (forall i, j :: 0 <= i < j < |s.adapters| ==> s.adapters[i].id != s.adapters[j].id)
    && (forall i, j :: 0 <= i < j < |s.compositions| ==> s.compositions[i].id != s.compositions[j].id)
    && (forall i, j :: 0 <= i < j < |s.workers| ==> s.workers[i].id != s.workers[j].id)
  }

  lemma MembersFit(ms: seq<CompositionMember>)
    ensures Fits(MembersF(), MembersVal(ms)) <==>
            ms != [] && |ms| <= MAX_COUNT && forall i :: 0 <= i < |ms| ==> MemberOk(ms[i])
  {
    hide Fits;
    FitsClauses();
    WidthsOfWords();
    var items := MapSeq(MemberVal, ms);
    assert forall i :: 0 <= i < |ms| ==> (Fits(MemberF(), items[i]) <==> MemberOk(ms[i]));
  }

  lemma CompositionFits(c: Composition)
    ensures Fits(CompositionF(), CompositionVal(c)) <==> CompositionOk(c)
  {
    hide Fits;
    FitsClauses();
    WidthsOfWords();
    MembersFit(c.members);
    GuardsOfComposition(c);
    CompositionRecordFits(c);
  }

  lemma CompositionRecordFits(c: Composition)
    ensures Fits(CompositionRecordF(), CompositionVal(c)) <==>
            Fits(MembersF(), MembersVal(c.members)) && c.generation != 0 && Short(c.policy)
            && Short(c.digest) && Short(c.validationSummary)
  {
    hide Fits, MembersF;
    FitsClauses();
    WidthsOfWords();
  }

  lemma WorkerFits(w: WorkerRecord)
    ensures Fits(WorkerF(), WorkerVal(w)) <==> WorkerOk(w)
  {
    hide Fits;
    FitsClauses();
    WidthsOfWords();
    var caps, ids := w.capabilities, w.localAdapters;
    assert forall i :: 0 <= i < |caps| ==>
      (Fits(WorkerCapabilityF(), MapSeq(WorkerCapabilityVal, caps)[i]) <==>
       Short(caps[i].name) && Short(caps[i].value));
    assert Fits(FList(MAX_COUNT, WorkerCapabilityF(), false), WorkerCapabilitiesVal(caps)) <==>
      |caps| <= MAX_COUNT && forall i :: 0 <= i < |caps| ==> Short(caps[i].name) && Short(caps[i].value);
    assert Fits(FList(MAX_COUNT, FRaw(16), false), IdsVal(ids)) <==> |ids| <= MAX_COUNT;
  }

  lemma AdaptersFit(xs: seq<AdapterDescriptor>)
    ensures Fits(FList(MAX_COUNT, DescF(), true), AdaptersVal(xs)) <==>
      && |xs| <= MAX_COUNT && (forall i :: 0 <= i < |xs| ==> AdapterOk(xs[i]))
      && (forall i, j :: 0 <= i < j < |xs| ==> xs[i].id != xs[j].id)
  {
    hide Fits, DescF;
    FitsClauses();
    var items := MapSeq(DescVal, xs);
    forall i | 0 <= i < |xs|
      ensures Fits(DescF(), items[i]) <==> AdapterOk(xs[i])
      ensures Key(items[i]) == IdVal(xs[i].id)
    {
      AdapterFitsExactly(xs[i]);
    }
  }

  lemma CompositionsFit(xs: seq<Composition>)
    ensures Fits(FList(MAX_COUNT, CompositionF(), true), CompositionsVal(xs)) <==>
      && |xs| <= MAX_COUNT && (forall i :: 0 <= i < |xs| ==> CompositionOk(xs[i]))
      && (forall i, j :: 0 <= i < j < |xs| ==> xs[i].id != xs[j].id)
  {
    hide Fits, CompositionF, CompositionOk;
    FitsClauses();
    var items := MapSeq(CompositionVal, xs);
    forall i | 0 <= i < |xs|
      ensures Fits(CompositionF(), items[i]) <==> CompositionOk(xs[i])
      ensures Key(items[i]) == IdVal(xs[i].id)
    {
      CompositionFits(xs[i]);
    }
  }

  lemma WorkersFit(xs: seq<WorkerRecord>)
    ensures Fits(FList(MAX_COUNT, WorkerF(), true), WorkersVal(xs)) <==>
      && |xs| <= MAX_COUNT && (forall i :: 0 <= i < |xs| ==> WorkerOk(xs[i]))
      && (forall i, j :: 0 <= i < j < |xs| ==> xs[i].id != xs[j].id)
  {
    hide Fits, WorkerF, WorkerOk;
    FitsClauses();
    var items := MapSeq(WorkerVal, xs);
    forall i | 0 <= i < |xs|
      ensures Fits(WorkerF(), items[i]) <==> WorkerOk(xs[i])
      ensures Key(items[i]) == IdVal(xs[i].id)
    {
      WorkerFits(xs[i]);
    }
  }

  lemma SnapshotFitsExactly(s: FabricSnapshot)
    ensures Fits(SnapshotF(), SnapshotVal(s)) <==> SnapshotOk(s)
  {
    hide Fits, DescF, CompositionF, WorkerF, AdapterOk, CompositionOk, WorkerOk;
    FitsClauses();
    WidthsOfWords();
    AdaptersFit(s.adapters);
    CompositionsFit(s.compositions);
    WorkersFit(s.workers);
  }

  lemma SnapshotValInjective(s: FabricSnapshot, t: FabricSnapshot)
    requires SnapshotVal(s) == SnapshotVal(t)
    ensures s == t
  {
    forall d: AdapterDescriptor, e: AdapterDescriptor | DescVal(d) == DescVal(e)
      ensures d == e
    {
      DescValInjective(d, e);
    }
    forall c: Composition, d: Composition | CompositionVal(c) == CompositionVal(d)
      ensures c == d
    {
      MapSeqInjective(MemberVal, c.members, d.members);
    }
    forall v: WorkerRecord, w: WorkerRecord | WorkerVal(v) == WorkerVal(w)
      ensures v == w
    {
      MapSeqInjective(WorkerCapabilityVal, v.capabilities, w.capabilities);
      MapSeqInjective(IdVal, v.localAdapters, w.localAdapters);
    }
    MapSeqInjective(DescVal, s.adapters, t.adapters);
    MapSeqInjective(CompositionVal, s.compositions, t.compositions);
    MapSeqInjective(WorkerVal, s.workers, t.workers);
  }

  /** Serializing and deserializing gives the snapshot back exactly when it is well formed. */
  method SnapshotRoundTrip(s: FabricSnapshot) returns (res: Result<FabricSnapshot>)
    ensures res == Ok(s) <==> SnapshotOk(s)
  {
    var bytes := SerializeSnapshot(s);
    res := DeserializeSnapshot(bytes);
    RoundTripExactly(SnapshotF(), SnapshotVal(s));
    SnapshotFitsExactly(s);
    if res.Ok? && SnapshotVal(res.value) == SnapshotVal(s) {
      SnapshotValInjective(res.value, s);
    }
  }
}
