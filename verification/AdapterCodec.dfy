/** The adapter codec of src/persistence.cpp: formats, values, and the writer and reader themselves. */
module AdapterCodec {
  import opened Basics
  import opened Codec
  import opened Envelope
  import opened Records

  const MAX_COUNT: nat := 100000
  const MAX_SHAPE: nat := 64

  predicate KindOk(v: Val) { v.Num? && v.n in {0, 1, 2, 3, 255} }
  predicate DtypeOk(v: Val) { v.Num? && v.n <= 7 }
  predicate ValidationOk(v: Val) { v.Num? && v.n <= 3 }
  predicate NotZero(v: Val) { v.Num? && v.n != 0 }
  predicate FirstNotZero(v: Val) { v.Pair? && NotZero(v.fst) }

  function IdF(): Format { FRaw(16) }
  function ShapeF(): Format { FList(MAX_SHAPE, FNum(4), false) }
  function TargetF(): Format { FPair(FText, FPair(FNum(4), FPair(FNum(4), ShapeF()))) }
  function TargetsF(): Format { FList(MAX_COUNT, TargetF(), false) }
  function DependencyF(): Format { FPair(FText, FPair(FText, FText)) }
  function CapabilityF(): Format { FPair(FText, FPair(FText, FFlag)) }
  function ConstraintF(): Format { FPair(FText, FText) }
  function ProvenanceF(): Format { FPair(FText, FPair(FText, FPair(FText, FPair(FText, FText)))) }

  /** Revision to base model revision. */
  function HeadF(): Format {
    FPair(IdF(), FPair(IdF(), FPair(FText, FPair(FGuard(FNum(1), KindOk, InvalidEnum),
    FPair(FText, FPair(IdF(), IdF()))))))
  }

  /** Rank to format version. */
  function SizesF(): Format {
    FPair(FNum(4), FPair(FGuard(FNum(1), DtypeOk, InvalidEnum), FPair(FNum(8), FPair(FNum(8), FPair(FNum(8),
    FPair(FText, FGuard(FNum(4), NotZero, InvalidEnum)))))))
  }

  function ListsF(): Format {
    FPair(FList(MAX_COUNT, DependencyF(), false),
    FPair(FList(MAX_COUNT, CapabilityF(), false), FList(MAX_COUNT, ConstraintF(), false)))
  }

  function TailF(): Format {
    FPair(FGuard(FPair(FNum(8), FNum(8)), FirstNotZero, InvalidGenerationValue),
          FGuard(FNum(1), ValidationOk, InvalidEnum))
  }

  function DescF(): Format {
    FPair(IdF(), FPair(HeadF(), FPair(TargetsF(), FPair(SizesF(), FPair(ListsF(), FPair(ProvenanceF(), TailF()))))))
  }

  function ShapeVal(xs: seq<u32>): Val { List(MapSeq(U32Val, xs)) }
  function TargetVal(t: TargetModule): Val {
    Pair(TextVal(t.name), Pair(U32Val(t.inFeatures), Pair(U32Val(t.outFeatures), ShapeVal(t.shape))))
  }
  function TargetsVal(ts: seq<TargetModule>): Val { List(MapSeq(TargetVal, ts)) }
  function DependencyVal(d: Dependency): Val {
    Pair(TextVal(d.name), Pair(TextVal(d.version), TextVal(d.requirement)))
  }
  function CapabilityVal(c: RuntimeCapability): Val {
    Pair(TextVal(c.name), Pair(TextVal(c.value), FlagVal(c.required)))
  }
  function ConstraintVal(c: ExecutionConstraint): Val { Pair(TextVal(c.key), TextVal(c.value)) }
  function ProvenanceVal(p: Provenance): Val {
    Pair(TextVal(p.source), Pair(TextVal(p.author), Pair(TextVal(p.timestamp),
    Pair(TextVal(p.originDigest), TextVal(p.notes)))))
  }
  function DependenciesVal(xs: seq<Dependency>): Val { List(MapSeq(DependencyVal, xs)) }
  function CapabilitiesVal(xs: seq<RuntimeCapability>): Val { List(MapSeq(CapabilityVal, xs)) }
  function ConstraintsVal(xs: seq<ExecutionConstraint>): Val { List(MapSeq(ConstraintVal, xs)) }

  function HeadVal(d: AdapterDescriptor): Val {
    Pair(IdVal(d.revision), Pair(IdVal(d.artifact), Pair(TextVal(d.artifactDigest), Pair(U8Val(d.kind),
    Pair(TextVal(d.name), Pair(IdVal(d.baseModel), IdVal(d.baseModelRevision)))))))
  }
  function SizesVal(d: AdapterDescriptor): Val {
    Pair(U32Val(d.rank), Pair(U8Val(d.dtype), Pair(U64Val(d.paramCount), Pair(U64Val(d.paramBytes),
    Pair(U64Val(d.memoryBytes), Pair(TextVal(d.format), U32Val(d.formatVersion)))))))
  }
  function ListsVal(d: AdapterDescriptor): Val {
    Pair(DependenciesVal(d.dependencies), Pair(CapabilitiesVal(d.capabilities), ConstraintsVal(d.constraints)))
  }
  function TailVal(d: AdapterDescriptor): Val {
    Pair(Pair(U64Val(d.generation), U64Val(d.policyGeneration)), U8Val(d.validation))
  }
  function DescVal(d: AdapterDescriptor): Val {
    Pair(IdVal(d.id), Pair(HeadVal(d), Pair(TargetsVal(d.targets), Pair(SizesVal(d), Pair(ListsVal(d),
    Pair(ProvenanceVal(d.provenance), TailVal(d)))))))
  }

  // ---- writing ----

  method WriteShape(w: BinWriter, xs: seq<u32>)
    modifies w
    ensures Wrote(old(w.buf), ShapeVal(xs), w.buf)
  {
    ghost var items := MapSeq(U32Val, xs);
    ListStarts(w.buf, items);
    w.Number(|xs|, 4);
    var i := 0;
    while i < |xs|
      invariant 0 <= i <= |xs|
      invariant w.buf + EncodeAll(items[i..]) == old(w.buf) + Encode(List(items))
    {
      ListContinues(w.buf, items, i);
      w.Number(xs[i], 4);
      i := i + 1;
    }
    WroteAppended(old(w.buf), ShapeVal(xs));
  }

  method WriteTarget(w: BinWriter, t: TargetModule)
    modifies w
    ensures Wrote(old(w.buf), TargetVal(t), w.buf)
  {
    hide Encode;
    WroteAppended(old(w.buf), TargetVal(t));
    w.Str(t.name);
    w.Number(t.inFeatures, 4);
    w.Number(t.outFeatures, 4);
    WriteShape(w, t.shape);
  }

  method WriteTargets(w: BinWriter, xs: seq<TargetModule>)
    modifies w
    ensures Wrote(old(w.buf), TargetsVal(xs), w.buf)
  {
    ghost var items := MapSeq(TargetVal, xs);
    ListStarts(w.buf, items);
    w.Number(|xs|, 4);
    var i := 0;
    while i < |xs|
      invariant 0 <= i <= |xs|
      invariant w.buf + EncodeAll(items[i..]) == old(w.buf) + Encode(List(items))
    {
      ListContinues(w.buf, items, i);
      WriteTarget(w, xs[i]);
      i := i + 1;
    }
    WroteAppended(old(w.buf), TargetsVal(xs));
  }

  method WriteDependency(w: BinWriter, d: Dependency)
    modifies w
    ensures Wrote(old(w.buf), DependencyVal(d), w.buf)
  {
    hide Encode;
    WroteAppended(old(w.buf), DependencyVal(d));
    w.Str(d.name);
    w.Str(d.version);
    w.Str(d.requirement);
  }

  method WriteDependencies(w: BinWriter, xs: seq<Dependency>)
    modifies w
    ensures Wrote(old(w.buf), DependenciesVal(xs), w.buf)
  {
    ghost var items := MapSeq(DependencyVal, xs);
    ListStarts(w.buf, items);
    w.Number(|xs|, 4);
    var i := 0;
    while i < |xs|
      invariant 0 <= i <= |xs|
      invariant w.buf + EncodeAll(items[i..]) == old(w.buf) + Encode(List(items))
    {
      ListContinues(w.buf, items, i);
      WriteDependency(w, xs[i]);
      i := i + 1;
    }
    WroteAppended(old(w.buf), DependenciesVal(xs));
  }

  method WriteCapability(w: BinWriter, c: RuntimeCapability)
    modifies w
    ensures Wrote(old(w.buf), CapabilityVal(c), w.buf)
  {
    hide Encode;
    WroteAppended(old(w.buf), CapabilityVal(c));
    w.Str(c.name);
    w.Str(c.value);
    w.Bool(c.required);
  }

  method WriteCapabilities(w: BinWriter, xs: seq<RuntimeCapability>)
    modifies w
    ensures Wrote(old(w.buf), CapabilitiesVal(xs), w.buf)
  {
    ghost var items := MapSeq(CapabilityVal, xs);
    ListStarts(w.buf, items);
    w.Number(|xs|, 4);
    var i := 0;
    while i < |xs|
      invariant 0 <= i <= |xs|
      invariant w.buf + EncodeAll(items[i..]) == old(w.buf) + Encode(List(items))
    {
      ListContinues(w.buf, items, i);
      WriteCapability(w, xs[i]);
      i := i + 1;
    }
    WroteAppended(old(w.buf), CapabilitiesVal(xs));
  }

  method WriteConstraint(w: BinWriter, c: ExecutionConstraint)
    modifies w
    ensures Wrote(old(w.buf), ConstraintVal(c), w.buf)
  {
    hide Encode;
    WroteAppended(old(w.buf), ConstraintVal(c));
    w.Str(c.key);
    w.Str(c.value);
  }

  method WriteConstraints(w: BinWriter, xs: seq<ExecutionConstraint>)
    modifies w
    ensures Wrote(old(w.buf), ConstraintsVal(xs), w.buf)
  {
    ghost var items := MapSeq(ConstraintVal, xs);
    ListStarts(w.buf, items);
    w.Number(|xs|, 4);
    var i := 0;
    while i < |xs|
      invariant 0 <= i <= |xs|
      invariant w.buf + EncodeAll(items[i..]) == old(w.buf) + Encode(List(items))
    {
      ListContinues(w.buf, items, i);
      WriteConstraint(w, xs[i]);
      i := i + 1;
    }
    WroteAppended(old(w.buf), ConstraintsVal(xs));
  }

  method WriteProvenance(w: BinWriter, p: Provenance)
    modifies w
    ensures Wrote(old(w.buf), ProvenanceVal(p), w.buf)
  {
    hide Encode;
    WroteAppended(old(w.buf), ProvenanceVal(p));
    w.Str(p.source);
    w.Str(p.author);
    w.Str(p.timestamp);
    w.Str(p.originDigest);
    w.Str(p.notes);
  }

  method WriteHead(w: BinWriter, d: AdapterDescriptor)
    modifies w
    ensures Wrote(old(w.buf), HeadVal(d), w.buf)
  {
    hide Encode;
    WroteAppended(old(w.buf), HeadVal(d));
    w.Raw(d.revision);
    w.Raw(d.artifact);
    w.Str(d.artifactDigest);
    w.Number(d.kind, 1);
    w.Str(d.name);
    w.Raw(d.baseModel);
    w.Raw(d.baseModelRevision);
  }

  method WriteSizes(w: BinWriter, d: AdapterDescriptor)
    modifies w
    ensures Wrote(old(w.buf), SizesVal(d), w.buf)
  {
    hide Encode;
    WroteAppended(old(w.buf), SizesVal(d));
    w.Number(d.rank, 4);
    w.Number(d.dtype, 1);
    w.Number(d.paramCount, 8);
    w.Number(d.paramBytes, 8);
    w.Number(d.memoryBytes, 8);
    w.Str(d.format);
    w.Number(d.formatVersion, 4);
  }

  method WriteLists(w: BinWriter, d: AdapterDescriptor)
    modifies w
    ensures Wrote(old(w.buf), ListsVal(d), w.buf)
  {
    hide Encode;
    WroteAppended(old(w.buf), ListsVal(d));
    WriteDependencies(w, d.dependencies);
    WriteCapabilities(w, d.capabilities);
    WriteConstraints(w, d.constraints);
  }

  method WriteTail(w: BinWriter, d: AdapterDescriptor)
    modifies w
    ensures Wrote(old(w.buf), TailVal(d), w.buf)
  {
    ghost var b := w.buf;
    w.Number(d.generation, 8);
    w.Number(d.policyGeneration, 8);
    WroteAppended(b, Pair(U64Val(d.generation), U64Val(d.policyGeneration)));
    w.Number(d.validation, 1);
    WroteAppended(b, TailVal(d));
  }

  method WriteDesc(w: BinWriter, d: AdapterDescriptor)
    modifies w
    ensures Wrote(old(w.buf), DescVal(d), w.buf)
  {
    hide Encode;
    WroteAppended(old(w.buf), DescVal(d));
    w.Raw(d.id);
    WriteHead(w, d);
    WriteTargets(w, d.targets);
    WriteSizes(w, d);
    WriteLists(w, d);
    WriteProvenance(w, d.provenance);
    WriteTail(w, d);
  }

  // ---- reading ----

  method ReadShape(r: BinReader) returns (res: Result<seq<u32>>)
    requires r.Valid()
    modifies r
    ensures r.Valid() && Reads(ShapeF(), old(r.Rest()), res.Map(ShapeVal), r.Rest())
  {
    hide Decode, DecodeMany;
    ListHeads(MAX_SHAPE, FNum(4), false, r.Rest());
    var n :- r.U32();
    if n > MAX_SHAPE { return Err(Malformed); }
    ghost var all := DecodeMany(FNum(4), false, n, [], r.Rest());
    var xs: seq<u32>, i := [], 0;
    while i < n
      invariant r.Valid() && 0 <= i <= n
      invariant all == DecodeMany(FNum(4), false, n - i, MapSeq(U32Val, xs), r.Rest())
    {
      NextElement(FNum(4), false, n - i, MapSeq(U32Val, xs), r.Rest());
      var x :- r.U32();
      MapSeqSnoc(U32Val, xs, x);
      xs, i := xs + [x], i + 1;
    }
    NextElement(FNum(4), false, 0, MapSeq(U32Val, xs), r.Rest());
    res := Ok(xs);
  }

  method ReadTarget(r: BinReader) returns (res: Result<TargetModule>)
    requires r.Valid()
    modifies r
    ensures r.Valid() && Reads(TargetF(), old(r.Rest()), res.Map(TargetVal), r.Rest())
  {
    hide Decode;
    Heads(TargetF(), r.Rest());
    var name :- r.Str();
    var inF :- r.U32();
    var outF :- r.U32();
    var shape :- ReadShape(r);
    res := Ok(TargetModule(name, inF, outF, shape));
  }

  method ReadTargets(r: BinReader) returns (res: Result<seq<TargetModule>>)
    requires r.Valid()
    modifies r
    ensures r.Valid() && Reads(TargetsF(), old(r.Rest()), res.Map(TargetsVal), r.Rest())
  {
    hide Decode, DecodeMany, TargetF;
    ListHeads(MAX_COUNT, TargetF(), false, r.Rest());
    var n :- r.U32();
    if n > MAX_COUNT { return Err(Malformed); }
    ghost var all := DecodeMany(TargetF(), false, n, [], r.Rest());
    var xs: seq<TargetModule>, i := [], 0;
    while i < n
      invariant r.Valid() && 0 <= i <= n
      invariant all == DecodeMany(TargetF(), false, n - i, MapSeq(TargetVal, xs), r.Rest())
    {
      NextElement(TargetF(), false, n - i, MapSeq(TargetVal, xs), r.Rest());
      var x :- ReadTarget(r);
      MapSeqSnoc(TargetVal, xs, x);
      xs, i := xs + [x], i + 1;
    }
    NextElement(TargetF(), false, 0, MapSeq(TargetVal, xs), r.Rest());
    res := Ok(xs);
  }

  method ReadDependency(r: BinReader) returns (res: Result<Dependency>)
    requires r.Valid()
    modifies r
    ensures r.Valid() && Reads(DependencyF(), old(r.Rest()), res.Map(DependencyVal), r.Rest())
  {
    hide Decode;
    Heads(DependencyF(), r.Rest());
    var name :- r.Str();
    var version :- r.Str();
    var requirement :- r.Str();
    res := Ok(Dependency(name, version, requirement));
  }

  method ReadDependencies(r: BinReader) returns (res: Result<seq<Dependency>>)
    requires r.Valid()
    modifies r
    ensures r.Valid()
    ensures Reads(FList(MAX_COUNT, DependencyF(), false), old(r.Rest()), res.Map(DependenciesVal), r.Rest())
  {
    hide Decode, DecodeMany, DependencyF;
    ListHeads(MAX_COUNT, DependencyF(), false, r.Rest());
    var n :- r.U32();
    if n > MAX_COUNT { return Err(Malformed); }
    ghost var all := DecodeMany(DependencyF(), false, n, [], r.Rest());
    var xs: seq<Dependency>, i := [], 0;
    while i < n
      invariant r.Valid() && 0 <= i <= n
      invariant all == DecodeMany(DependencyF(), false, n - i, MapSeq(DependencyVal, xs), r.Rest())
    {
      NextElement(DependencyF(), false, n - i, MapSeq(DependencyVal, xs), r.Rest());
      var x :- ReadDependency(r);
      MapSeqSnoc(DependencyVal, xs, x);
      xs, i := xs + [x], i + 1;
    }
    NextElement(DependencyF(), false, 0, MapSeq(DependencyVal, xs), r.Rest());
    res := Ok(xs);
  }

  method ReadCapability(r: BinReader) returns (res: Result<RuntimeCapability>)
    requires r.Valid()
    modifies r
    ensures r.Valid() && Reads(CapabilityF(), old(r.Rest()), res.Map(CapabilityVal), r.Rest())
  {
    hide Decode;
    Heads(CapabilityF(), r.Rest());
    var name :- r.Str();
    var value :- r.Str();
    var required :- r.Bool();
    res := Ok(RuntimeCapability(name, value, required));
  }

  method ReadCapabilities(r: BinReader) returns (res: Result<seq<RuntimeCapability>>)
    requires r.Valid()
    modifies r
    ensures r.Valid()
    ensures Reads(FList(MAX_COUNT, CapabilityF(), false), old(r.Rest()), res.Map(CapabilitiesVal), r.Rest())
  {
    hide Decode, DecodeMany, CapabilityF;
    ListHeads(MAX_COUNT, CapabilityF(), false, r.Rest());
    var n :- r.U32();
    if n > MAX_COUNT { return Err(Malformed); }
    ghost var all := DecodeMany(CapabilityF(), false, n, [], r.Rest());
    var xs: seq<RuntimeCapability>, i := [], 0;
    while i < n
      invariant r.Valid() && 0 <= i <= n
      invariant all == DecodeMany(CapabilityF(), false, n - i, MapSeq(CapabilityVal, xs), r.Rest())
    {
      NextElement(CapabilityF(), false, n - i, MapSeq(CapabilityVal, xs), r.Rest());
      var x :- ReadCapability(r);
      MapSeqSnoc(CapabilityVal, xs, x);
      xs, i := xs + [x], i + 1;
    }
    NextElement(CapabilityF(), false, 0, MapSeq(CapabilityVal, xs), r.Rest());
    res := Ok(xs);
  }

  method ReadConstraint(r: BinReader) returns (res: Result<ExecutionConstraint>)
    requires r.Valid()
    modifies r
    ensures r.Valid() && Reads(ConstraintF(), old(r.Rest()), res.Map(ConstraintVal), r.Rest())
  {
    hide Decode;
    Heads(ConstraintF(), r.Rest());
    var key :- r.Str();
    var value :- r.Str();
    res := Ok(ExecutionConstraint(key, value));
  }

  method ReadConstraints(r: BinReader) returns (res: Result<seq<ExecutionConstraint>>)
    requires r.Valid()
    modifies r
    ensures r.Valid() && Reads(FList(MAX_COUNT, ConstraintF(), false), old(r.Rest()), res.Map(ConstraintsVal), r.Rest())
  {
    hide Decode, DecodeMany, ConstraintF;
    ListHeads(MAX_COUNT, ConstraintF(), false, r.Rest());
    var n :- r.U32();
    if n > MAX_COUNT { return Err(Malformed); }
    ghost var all := DecodeMany(ConstraintF(), false, n, [], r.Rest());
    var xs: seq<ExecutionConstraint>, i := [], 0;
    while i < n
      invariant r.Valid() && 0 <= i <= n
      invariant all == DecodeMany(ConstraintF(), false, n - i, MapSeq(ConstraintVal, xs), r.Rest())
    {
      NextElement(ConstraintF(), false, n - i, MapSeq(ConstraintVal, xs), r.Rest());
      var x :- ReadConstraint(r);
      MapSeqSnoc(ConstraintVal, xs, x);
      xs, i := xs + [x], i + 1;
    }
    NextElement(ConstraintF(), false, 0, MapSeq(ConstraintVal, xs), r.Rest());
    res := Ok(xs);
  }

  method ReadProvenance(r: BinReader) returns (res: Result<Provenance>)
    requires r.Valid()
    modifies r
    ensures r.Valid() && Reads(ProvenanceF(), old(r.Rest()), res.Map(ProvenanceVal), r.Rest())
  {
    hide Decode;
    Heads(ProvenanceF(), r.Rest());
    var source :- r.Str();
    var author :- r.Str();
    var timestamp :- r.Str();
    var origin :- r.Str();
    var notes :- r.Str();
    res := Ok(Provenance(source, author, timestamp, origin, notes));
  }

  method ReadKind(r: BinReader) returns (res: Result<byte>)
    requires r.Valid()
    modifies r
    ensures r.Valid() && Reads(FGuard(FNum(1), KindOk, InvalidEnum), old(r.Rest()), res.Map(U8Val), r.Rest())
  {
    var x :- r.U8();
    if !(x in {0, 1, 2, 3, 255}) { return Err(InvalidEnum); }
    res := Ok(x);
  }

  method ReadDtype(r: BinReader) returns (res: Result<byte>)
    requires r.Valid()
    modifies r
    ensures r.Valid() && Reads(FGuard(FNum(1), DtypeOk, InvalidEnum), old(r.Rest()), res.Map(U8Val), r.Rest())
  {
    var x :- r.U8();
    if !(x <= 7) { return Err(InvalidEnum); }
    res := Ok(x);
  }

  method ReadValidation(r: BinReader) returns (res: Result<byte>)
    requires r.Valid()
    modifies r
    ensures r.Valid() && Reads(FGuard(FNum(1), ValidationOk, InvalidEnum), old(r.Rest()), res.Map(U8Val), r.Rest())
  {
    var x :- r.U8();
    if !(x <= 3) { return Err(InvalidEnum); }
    res := Ok(x);
  }

  method ReadFormatVersion(r: BinReader) returns (res: Result<u32>)
    requires r.Valid()
    modifies r
    ensures r.Valid() && Reads(FGuard(FNum(4), NotZero, InvalidEnum), old(r.Rest()), res.Map(U32Val), r.Rest())
  {
    var x :- r.U32();
    if !(x != 0) { return Err(InvalidEnum); }
    res := Ok(x);
  }

  /** Fills the fields from revision to base model revision. */
  method ReadHead(r: BinReader, d: AdapterDescriptor) returns (res: Result<AdapterDescriptor>)
    requires r.Valid()
    modifies r
    ensures r.Valid() && Reads(HeadF(), old(r.Rest()), res.Map(HeadVal), r.Rest())
    ensures res.Ok? ==> var e := res.value;
      e == d.(revision := e.revision, artifact := e.artifact, artifactDigest := e.artifactDigest, kind := e.kind,
              name := e.name, baseModel := e.baseModel, baseModelRevision := e.baseModelRevision)
  {
    hide Decode;
    Heads(HeadF(), r.Rest());
    var revision :- r.Id();
    var artifact :- r.Id();
    var digest :- r.Str();
    var kind :- ReadKind(r);
    var name :- r.Str();
    var base :- r.Id();
    var rev :- r.Id();
    res := Ok(d.(revision := revision, artifact := artifact, artifactDigest := digest, kind := kind, name := name,
                 baseModel := base, baseModelRevision := rev));
  }

  /** Fills the fields from rank to format version. */
  method ReadSizes(r: BinReader, d: AdapterDescriptor) returns (res: Result<AdapterDescriptor>)
    requires r.Valid()
    modifies r
    ensures r.Valid() && Reads(SizesF(), old(r.Rest()), res.Map(SizesVal), r.Rest())
    ensures res.Ok? ==> var e := res.value;
      e == d.(rank := e.rank, dtype := e.dtype, paramCount := e.paramCount, paramBytes := e.paramBytes,
              memoryBytes := e.memoryBytes, format := e.format, formatVersion := e.formatVersion)
  {
    hide Decode;
    Heads(SizesF(), r.Rest());
    var rank :- r.U32();
    var dtype :- ReadDtype(r);
    var count :- r.U64();
    var bytes :- r.U64();
    var memory :- r.U64();
    var format :- r.Str();
    var version :- ReadFormatVersion(r);
    res := Ok(d.(rank := rank, dtype := dtype, paramCount := count, paramBytes := bytes, memoryBytes := memory,
                 format := format, formatVersion := version));
  }

  /** Fills dependencies, capabilities and constraints. */
  method ReadLists(r: BinReader, d: AdapterDescriptor) returns (res: Result<AdapterDescriptor>)
    requires r.Valid()
    modifies r
    ensures r.Valid() && Reads(ListsF(), old(r.Rest()), res.Map(ListsVal), r.Rest())
    ensures res.Ok? ==> var e := res.value;
      e == d.(dependencies := e.dependencies, capabilities := e.capabilities, constraints := e.constraints)
  {
    hide Decode;
    Heads(ListsF(), r.Rest());
    var deps :- ReadDependencies(r);
    var caps :- ReadCapabilities(r);
    var cons :- ReadConstraints(r);
    res := Ok(d.(dependencies := deps, capabilities := caps, constraints := cons));
  }

  /** The two generations are read before the first is checked. */
  method ReadGenerations(r: BinReader) returns (res: Result<(u64, u64)>)
    requires r.Valid()
    modifies r
    ensures r.Valid() && Reads(FGuard(FPair(FNum(8), FNum(8)), FirstNotZero, InvalidGenerationValue), old(r.Rest()),
                               res.Map((g: (u64, u64)) => Pair(U64Val(g.0), U64Val(g.1))), r.Rest())
  {
    var generation :- r.U64();
    var policy :- r.U64();
    if generation == 0 { return Err(InvalidGenerationValue); }
    res := Ok((generation, policy));
  }

  /** Fills the generations and the validation state. */
  method ReadTail(r: BinReader, d: AdapterDescriptor) returns (res: Result<AdapterDescriptor>)
    requires r.Valid()
    modifies r
    ensures r.Valid() && Reads(TailF(), old(r.Rest()), res.Map(TailVal), r.Rest())
    ensures res.Ok? ==> var e := res.value;
      e == d.(generation := e.generation, policyGeneration := e.policyGeneration, validation := e.validation)
  {
    hide Decode;
    Heads(TailF(), r.Rest());
    var generations :- ReadGenerations(r);
    var validation :- ReadValidation(r);
    res := Ok(d.(generation := generations.0, policyGeneration := generations.1, validation := validation));
  }

  const BLANK: AdapterDescriptor :=
    AdapterDescriptor(NIL, NIL, NIL, [], 0, [], NIL, NIL, [], 0, 0, 0, 0, 0, [], 1, [], [], [],
                      Provenance([], [], [], [], []), 0, 0, 0)

  method ReadDesc(r: BinReader) returns (res: Result<AdapterDescriptor>)
    requires r.Valid()
    modifies r
    ensures r.Valid() && Reads(DescF(), old(r.Rest()), res.Map(DescVal), r.Rest())
  {
    hide Decode;
    Heads(DescF(), r.Rest());
    var id :- r.Id();
    var d := BLANK.(id := id);
    d :- ReadHead(r, d);
    var targets :- ReadTargets(r);
    d := d.(targets := targets);
    d :- ReadSizes(r, d);
    d :- ReadLists(r, d);
    var provenance :- ReadProvenance(r);
    d := d.(provenance := provenance);
    d :- ReadTail(r, d);
    res := Ok(d);
  }

  method SerializeAdapter(d: AdapterDescriptor) returns (bytes: Bytes)
    ensures bytes == Seal(Encode(DescVal(d)))
  {
    var w := new BinWriter();
    WriteDesc(w, d);
    assert w.buf == Encode(DescVal(d));
    bytes := w.Close();
  }

  method DeserializeAdapter(bytes: Bytes) returns (res: Result<AdapterDescriptor>)
    ensures res.Map(DescVal) == Unseal(DescF(), bytes)
  {
    var r :- BinReader.Create(bytes);
    var d :- ReadDesc(r);
    var _ :- r.ExpectEnd();
    res := Ok(d);
  }

  // ---- what a descriptor must be to survive the codec ----

  predicate Short(s: Bytes) { |s| < TWO_TO_THE_32 }

  predicate TargetOk(t: TargetModule) { Short(t.name) && |t.shape| <= MAX_SHAPE }
  predicate DependencyOk(d: Dependency) { Short(d.name) && Short(d.version) && Short(d.requirement) }
  predicate CapabilityOk(c: RuntimeCapability) { Short(c.name) && Short(c.value) }
  predicate ConstraintOk(c: ExecutionConstraint) { Short(c.key) && Short(c.value) }
  predicate ProvenanceOk(p: Provenance) {
    Short(p.source) && Short(p.author) && Short(p.timestamp) && Short(p.originDigest) && Short(p.notes)
  }

  predicate AdapterOk(d: AdapterDescriptor) {
    && Short(d.artifactDigest) && d.kind in {0, 1, 2, 3, 255} && Short(d.name)
    && |d.targets| <= MAX_COUNT && (forall i :: 0 <= i < |d.targets| ==> TargetOk(d.targets[i]))
    && d.dtype <= 7 && Short(d.format) && d.formatVersion != 0
    && |d.dependencies| <= MAX_COUNT && (forall i :: 0 <= i < |d.dependencies| ==> DependencyOk(d.dependencies[i]))
    && |d.capabilities| <= MAX_COUNT && (forall i :: 0 <= i < |d.capabilities| ==> CapabilityOk(d.capabilities[i]))
    && |d.constraints| <= MAX_COUNT && (forall i :: 0 <= i < |d.constraints| ==> ConstraintOk(d.constraints[i]))
    && ProvenanceOk(d.provenance) && d.generation != 0 && d.validation <= 3
  }

  lemma TargetFits(t: TargetModule)
    ensures Fits(TargetF(), TargetVal(t)) <==> TargetOk(t)
  {
    hide Fits;
    FitsClauses();
    WidthsOfWords();
  }

  lemma TargetsFit(ts: seq<TargetModule>)
    ensures Fits(TargetsF(), TargetsVal(ts)) <==>
            |ts| <= MAX_COUNT && forall i :: 0 <= i < |ts| ==> TargetOk(ts[i])
  {
    hide Fits;
    FitsClauses();
    var items := MapSeq(TargetVal, ts);
    forall i | 0 <= i < |ts|
      ensures Fits(TargetF(), items[i]) <==> TargetOk(ts[i])
    {
      TargetFits(ts[i]);
    }
  }

  lemma ListsFit(d: AdapterDescriptor)
    ensures Fits(ListsF(), ListsVal(d)) <==>
      && |d.dependencies| <= MAX_COUNT && (forall i :: 0 <= i < |d.dependencies| ==> DependencyOk(d.dependencies[i]))
      && |d.capabilities| <= MAX_COUNT && (forall i :: 0 <= i < |d.capabilities| ==> CapabilityOk(d.capabilities[i]))
      && |d.constraints| <= MAX_COUNT && (forall i :: 0 <= i < |d.constraints| ==> ConstraintOk(d.constraints[i]))
  {
    hide Fits;
    FitsClauses();
    var deps, caps, cons := d.dependencies, d.capabilities, d.constraints;
    assert forall i :: 0 <= i < |deps| ==>
      (Fits(DependencyF(), MapSeq(DependencyVal, deps)[i]) <==> DependencyOk(deps[i]));
    assert forall i :: 0 <= i < |caps| ==>
      (Fits(CapabilityF(), MapSeq(CapabilityVal, caps)[i]) <==> CapabilityOk(caps[i]));
    assert forall i :: 0 <= i < |cons| ==>
      (Fits(ConstraintF(), MapSeq(ConstraintVal, cons)[i]) <==> ConstraintOk(cons[i]));
    assert Fits(FList(MAX_COUNT, DependencyF(), false), DependenciesVal(deps)) <==>
      |deps| <= MAX_COUNT && forall i :: 0 <= i < |deps| ==> DependencyOk(deps[i]);
    assert Fits(FList(MAX_COUNT, CapabilityF(), false), CapabilitiesVal(caps)) <==>
      |caps| <= MAX_COUNT && forall i :: 0 <= i < |caps| ==> CapabilityOk(caps[i]);
    assert Fits(FList(MAX_COUNT, ConstraintF(), false), ConstraintsVal(cons)) <==>
      |cons| <= MAX_COUNT && forall i :: 0 <= i < |cons| ==> ConstraintOk(cons[i]);
  }

  lemma RestFits(d: AdapterDescriptor)
    ensures Fits(HeadF(), HeadVal(d)) <==> Short(d.artifactDigest) && d.kind in {0, 1, 2, 3, 255} && Short(d.name)
    ensures Fits(SizesF(), SizesVal(d)) <==> d.dtype <= 7 && Short(d.format) && d.formatVersion != 0
    ensures Fits(ProvenanceF(), ProvenanceVal(d.provenance)) <==> ProvenanceOk(d.provenance)
    ensures Fits(TailF(), TailVal(d)) <==> d.generation != 0 && d.validation <= 3
  {
    hide Fits;
    FitsClauses();
    WidthsOfWords();
  }

  lemma AdapterFitsExactly(d: AdapterDescriptor)
    ensures Fits(DescF(), DescVal(d)) <==> AdapterOk(d)
  {
    hide Fits;
    FitsClauses();
    TargetsFit(d.targets);
    ListsFit(d);
    RestFits(d);
  }

  lemma MapSeqInjective<A(!new), B>(f: A -> B, xs: seq<A>, ys: seq<A>)
    requires forall x: A, y: A :: f(x) == f(y) ==> x == y
    requires MapSeq(f, xs) == MapSeq(f, ys)
    ensures xs == ys
  {
    assert |MapSeq(f, xs)| == |xs| && |MapSeq(f, ys)| == |ys|;
    forall i | 0 <= i < |xs|
      ensures xs[i] == ys[i]
    {
      assert MapSeq(f, xs)[i] == MapSeq(f, ys)[i];
    }
  }

  /** A value stands for one descriptor only. */
  lemma DescValInjective(d: AdapterDescriptor, e: AdapterDescriptor)
    requires DescVal(d) == DescVal(e)
    ensures d == e
  {
    forall t: TargetModule, u: TargetModule | TargetVal(t) == TargetVal(u)
      ensures t == u
    {
      MapSeqInjective(U32Val, t.shape, u.shape);
    }
    MapSeqInjective(TargetVal, d.targets, e.targets);
    MapSeqInjective(DependencyVal, d.dependencies, e.dependencies);
    MapSeqInjective(CapabilityVal, d.capabilities, e.capabilities);
    MapSeqInjective(ConstraintVal, d.constraints, e.constraints);
  }

  /** Serializing and deserializing gives the descriptor back exactly when it is well formed. */
  method AdapterRoundTrip(d: AdapterDescriptor) returns (res: Result<AdapterDescriptor>)
    ensures res == Ok(d) <==> AdapterOk(d)
  {
    var bytes := SerializeAdapter(d);
    res := DeserializeAdapter(bytes);
    RoundTripExactly(DescF(), DescVal(d));
    AdapterFitsExactly(d);
    if res.Ok? && DescVal(res.value) == DescVal(d) {
      DescValInjective(res.value, d);
    }
  }
}
