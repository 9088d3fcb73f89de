/**
 The byte layout of every record, as plain lists of pieces in the order they are written (src/persistence.cpp,
 src/protocol.cpp). The value-by-value codecs produce exactly these bytes.
 */
module Layout {
  import opened Basics
  import opened Codec
  import opened Envelope
  import opened Records
  import opened AdapterCodec
  import opened SnapshotCodec
  import opened Protocol

  function Flat(pieces: seq<Bytes>): Bytes {
    if pieces == [] then [] else pieces[0] + Flat(pieces[1..])
  }

  /** The pieces of all elements, one after another. */
  function Each<T>(pieces: T -> seq<Bytes>, xs: seq<T>): seq<Bytes> {
    if xs == [] then [] else pieces(xs[0]) + Each(pieces, xs[1..])
  }

  function Words(n: u32): Bytes { LE(n, 4) }
  function Long(n: u64): Bytes { LE(n, 8) }
  function Prefixed(b: Bytes): Bytes { LE(|b|, 4) + b }
  function Boolean(on: bool): Bytes { [if on then 1 else 0] }
  function Count<T>(xs: seq<T>): Bytes { LE(|xs|, 4) }

  function NumberPieces(n: u32): seq<Bytes> { [Words(n)] }
  function IdPieces(u: Uuid): seq<Bytes> { [u] }

  function TargetPieces(t: TargetModule): seq<Bytes> {
    [Prefixed(t.name), Words(t.inFeatures), Words(t.outFeatures), Count(t.shape)] + Each(NumberPieces, t.shape)
  }
  function DependencyPieces(d: Dependency): seq<Bytes> {
    [Prefixed(d.name), Prefixed(d.version), Prefixed(d.requirement)]
  }
  function CapabilityPieces(c: RuntimeCapability): seq<Bytes> {
    [Prefixed(c.name), Prefixed(c.value), Boolean(c.required)]
  }
  function ConstraintPieces(c: ExecutionConstraint): seq<Bytes> { [Prefixed(c.key), Prefixed(c.value)] }

  function HeadPieces(d: AdapterDescriptor): seq<Bytes> {
    [d.revision, d.artifact, Prefixed(d.artifactDigest), [d.kind], Prefixed(d.name), d.baseModel, d.baseModelRevision]
  }
  function SizesPieces(d: AdapterDescriptor): seq<Bytes> {
    [Words(d.rank), [d.dtype], Long(d.paramCount), Long(d.paramBytes), Long(d.memoryBytes), Prefixed(d.format),
     Words(d.formatVersion)]
  }
  function ProvenancePieces(p: Provenance): seq<Bytes> {
    [Prefixed(p.source), Prefixed(p.author), Prefixed(p.timestamp), Prefixed(p.originDigest), Prefixed(p.notes)]
  }

  function DescPieces(d: AdapterDescriptor): seq<Bytes> {
    [d.id] + HeadPieces(d) + [Count(d.targets)] + Each(TargetPieces, d.targets) + SizesPieces(d)
    + [Count(d.dependencies)] + Each(DependencyPieces, d.dependencies)
    + [Count(d.capabilities)] + Each(CapabilityPieces, d.capabilities)
    + [Count(d.constraints)] + Each(ConstraintPieces, d.constraints)
    + ProvenancePieces(d.provenance) + [Long(d.generation), Long(d.policyGeneration), [d.validation]]
  }

  function MemberPieces(m: CompositionMember): seq<Bytes> {
    [m.adapterId, m.revision, Long(m.generation), Long(m.memoryBytes), [m.kind]]
  }
  function CompositionEndPieces(c: Composition): seq<Bytes> {
    [Long(c.generation), c.baseModel, c.baseModelRevision, Prefixed(c.policy), Long(c.totalMemoryBytes),
     Prefixed(c.digest), Prefixed(c.validationSummary), Boolean(c.isValid)]
  }
  function CompositionPieces(c: Composition): seq<Bytes> {
    [c.id] + [Count(c.members)] + Each(MemberPieces, c.members) + CompositionEndPieces(c)
  }

  function WorkerCapabilityPieces(c: WorkerCapability): seq<Bytes> { [Prefixed(c.name), Prefixed(c.value)] }
  function WorkerHeadPieces(w: WorkerRecord): seq<Bytes> {
    [w.id, w.boot, Prefixed(w.address), w.node, w.device, Boolean(w.connected), Long(w.epoch)]
  }
  function WorkerListsPieces(w: WorkerRecord): seq<Bytes> {
    [Count(w.capabilities)] + Each(WorkerCapabilityPieces, w.capabilities)
    + [Long(w.deviceMemoryBytes)] + [Count(w.localAdapters)] + Each(IdPieces, w.localAdapters)
  }
  function WorkerPieces(w: WorkerRecord): seq<Bytes> { WorkerHeadPieces(w) + WorkerListsPieces(w) }

  function SnapshotPieces(s: FabricSnapshot): seq<Bytes> {
    [Words(1), Long(s.epoch), Long(s.nextAdapterGeneration), Long(s.nextCompositionGeneration)]
    + [Count(s.adapters)] + Each(DescPieces, s.adapters)
    + [Count(s.compositions)] + Each(CompositionPieces, s.compositions)
    + [Count(s.workers)] + Each(WorkerPieces, s.workers)
  }

  function FencePieces(f: AuthorityFence): seq<Bytes> {
    [f.adapter, f.composition, Long(f.adapterGeneration), Long(f.compositionGeneration), Long(f.residencyGeneration),
     Long(f.artifactGeneration), f.baseModelRevision, Long(f.epoch), f.worker, f.boot, f.attempt, f.device, f.node]
  }

  function MessagePieces(m: Message): seq<Bytes> {
    [[m.kind], Prefixed(m.text), Prefixed(m.text2), Prefixed(m.text3), Prefixed(m.text4),
     Long(m.a), Long(m.b), Long(m.c), Long(m.reqId), Boolean(m.ok), Count(m.payload), m.payload]
  }

  // ---- laying out ----

  lemma {:induction false} FlatConcat(ps: seq<Bytes>, qs: seq<Bytes>)
    ensures Flat(ps + qs) == Flat(ps) + Flat(qs)
  {
    if ps == [] {
      assert ps + qs == qs;
    } else {
      assert (ps + qs)[1..] == ps[1..] + qs;
      FlatConcat(ps[1..], qs);
      ConcatAssociates(ps[0], Flat(ps[1..]), Flat(qs));
    }
  }

  lemma FlatOne(p: Bytes)
    ensures Flat([p]) == p
  {
    assert [p][1..] == [];
    assert Flat([p]) == p + Flat([]);
  }

  /** The pieces of a value, leaf by leaf. */
  function Pieces(v: Val): seq<Bytes>
    decreases v
  {
    match v
    case Num(w, n) => [LE(n, w)]
    case Raw(b) => [b]
    case Text(b) => [Prefixed(b)]
    case Flag(on) => [Boolean(on)]
    case Pair(a, b) => Pieces(a) + Pieces(b)
    case List(items) => [Count(items)] + PiecesOfAll(items)
  }

  function PiecesOfAll(items: seq<Val>): seq<Bytes>
    decreases items
  {
    if items == [] then [] else Pieces(items[0]) + PiecesOfAll(items[1..])
  }

  lemma PiecesClauses()
    ensures forall w, n {:trigger Pieces(Num(w, n))} :: Pieces(Num(w, n)) == [LE(n, w)]
    ensures forall b {:trigger Pieces(Val.Raw(b))} :: Pieces(Val.Raw(b)) == [b]
    ensures forall b {:trigger Pieces(Text(b))} :: Pieces(Text(b)) == [Prefixed(b)]
    ensures forall on {:trigger Pieces(Flag(on))} :: Pieces(Flag(on)) == [Boolean(on)]
    ensures forall v, w {:trigger Pieces(Pair(v, w))} :: Pieces(Pair(v, w)) == Pieces(v) + Pieces(w)
    ensures forall items {:trigger Pieces(List(items))} :: Pieces(List(items)) == [Count(items)] + PiecesOfAll(items)
    ensures forall n: byte {:trigger Num(1, n)} :: LE(n, 1) == [n]
  {
    forall n: byte
      ensures LE(n, 1) == [n]
    {
      assert LE(n / 256, 0) == [];
    }
  }

  /** What the writer writes for a value is its pieces, one after another. */
  lemma {:induction false} EncodedAsPieces(v: Val)
    ensures Encode(v) == Flat(Pieces(v))
    decreases v
  {
    match v {
      case Pair(a, b) =>
        EncodedAsPieces(a);
        EncodedAsPieces(b);
        FlatConcat(Pieces(a), Pieces(b));
      case List(items) =>
        AllEncodedAsPieces(items);
        FlatConcat([Count(items)], PiecesOfAll(items));
        FlatOne(Count(items));
      case _ => FlatOne(Encode(v));
    }
  }

  lemma {:induction false} AllEncodedAsPieces(items: seq<Val>)
    ensures EncodeAll(items) == Flat(PiecesOfAll(items))
    decreases items
  {
    if items != [] {
      EncodedAsPieces(items[0]);
      AllEncodedAsPieces(items[1..]);
      FlatConcat(Pieces(items[0]), PiecesOfAll(items[1..]));
    }
  }

  lemma {:induction false} EachInOrder<T>(val: T -> Val, pieces: T -> seq<Bytes>, xs: seq<T>)
    requires forall i :: 0 <= i < |xs| ==> Pieces(val(xs[i])) == pieces(xs[i])
    ensures Pieces(List(MapSeq(val, xs))) == [Count(xs)] + Each(pieces, xs)
    ensures PiecesOfAll(MapSeq(val, xs)) == Each(pieces, xs)
  {
    if xs != [] {
      EachInOrder(val, pieces, xs[1..]);
      assert MapSeq(val, xs)[1..] == MapSeq(val, xs[1..]);
    } else {
      assert MapSeq(val, xs) == [];
    }
  }

  /** The fence: thirteen fields in their order. */
  lemma FenceLayout(f: AuthorityFence)
    ensures Encode(FenceVal(f)) == Flat(FencePieces(f))
  {
    hide Pieces, LE, Flat, Encode;
    PiecesClauses();
    EncodedAsPieces(FenceVal(f));
    assert Pieces(FenceVal(f)) == FencePieces(f);
  }

  lemma MessageTailPieces(m: Message)
    ensures Pieces(MessageTailVal(m)) ==
            [Long(m.a), Long(m.b), Long(m.c), Long(m.reqId), Boolean(m.ok), Prefixed(m.payload)]
  {
    hide Pieces, LE;
    PiecesClauses();
  }

  /** The message: kind, texts, numbers, request id, flag, and the counted payload. */
  lemma MessageLayout(m: Message)
    ensures Encode(MessageVal(m)) == Flat(MessagePieces(m))
  {
    hide Pieces, LE, Flat, Encode, MessageTailVal;
    PiecesClauses();
    EncodedAsPieces(MessageVal(m));
    MessageTailPieces(m);
    var texts := [[m.kind], Prefixed(m.text), Prefixed(m.text2), Prefixed(m.text3), Prefixed(m.text4)];
    var numbers := [Long(m.a), Long(m.b), Long(m.c), Long(m.reqId), Boolean(m.ok)];
    assert Pieces(MessageTailVal(m)) == numbers + [Prefixed(m.payload)];
    assert Pieces(MessageVal(m)) == texts + Pieces(MessageTailVal(m));
    var before := texts + numbers;
    assert Pieces(MessageVal(m)) == before + [Prefixed(m.payload)];
    assert MessagePieces(m) == before + [Count(m.payload), m.payload];
    FlatConcat(before, [Prefixed(m.payload)]);
    FlatConcat(before, [Count(m.payload), m.payload]);
    PrefixIsACount(m.payload);
  }

  lemma PrefixIsACount(b: Bytes)
    ensures Flat([Prefixed(b)]) == Flat([Count(b), b])
  {
    FlatOne(Prefixed(b));
    FlatOne(b);
    assert [Count(b), b][1..] == [b];
  }

  lemma TargetLayout(t: TargetModule)
    ensures Pieces(TargetVal(t)) == TargetPieces(t)
  {
    hide Pieces, LE;
    PiecesClauses();
    EachInOrder(U32Val, NumberPieces, t.shape);
  }

  lemma TargetsLayout(ts: seq<TargetModule>)
    ensures Pieces(TargetsVal(ts)) == [Count(ts)] + Each(TargetPieces, ts)
  {
    hide Pieces, LE, TargetVal, TargetPieces;
    forall t
      ensures Pieces(TargetVal(t)) == TargetPieces(t)
    {
      TargetLayout(t);
    }
    EachInOrder(TargetVal, TargetPieces, ts);
  }

  lemma ListsLayout(d: AdapterDescriptor)
    ensures Pieces(ListsVal(d)) ==
            [Count(d.dependencies)] + Each(DependencyPieces, d.dependencies)
            + [Count(d.capabilities)] + Each(CapabilityPieces, d.capabilities)
            + [Count(d.constraints)] + Each(ConstraintPieces, d.constraints)
  {
    hide Pieces, LE;
    PiecesClauses();
    EachInOrder(DependencyVal, DependencyPieces, d.dependencies);
    EachInOrder(CapabilityVal, CapabilityPieces, d.capabilities);
    EachInOrder(ConstraintVal, ConstraintPieces, d.constraints);
  }

  lemma HeadLayout(d: AdapterDescriptor)
    ensures Pieces(HeadVal(d)) == HeadPieces(d)
  {
    hide Pieces, LE;
    PiecesClauses();
  }

  lemma SizesLayout(d: AdapterDescriptor)
    ensures Pieces(SizesVal(d)) == SizesPieces(d)
  {
    hide Pieces, LE;
    PiecesClauses();
  }

  lemma EndLayout(d: AdapterDescriptor)
    ensures Pieces(ProvenanceVal(d.provenance)) == ProvenancePieces(d.provenance)
    ensures Pieces(TailVal(d)) == [Long(d.generation), Long(d.policyGeneration), [d.validation]]
  {
    hide Pieces, LE;
    PiecesClauses();
  }

  lemma DescPiecesInOrder(d: AdapterDescriptor)
    ensures Pieces(DescVal(d)) == DescPieces(d)
  {
    hide Pieces, LE, TargetsVal, ListsVal, HeadVal, SizesVal, ProvenanceVal, TailVal, TargetPieces, DependencyPieces,
      CapabilityPieces, ConstraintPieces, Each, HeadPieces, SizesPieces, ProvenancePieces, Words, Long, Prefixed;
    PiecesClauses();
    TargetsLayout(d.targets);
    ListsLayout(d);
    HeadLayout(d);
    SizesLayout(d);
    EndLayout(d);
  }

  /** The descriptor: every field and every list in the order of `write_desc`. */
  lemma DescLayout(d: AdapterDescriptor)
    ensures Encode(DescVal(d)) == Flat(DescPieces(d))
  {
    EncodedAsPieces(DescVal(d));
    DescPiecesInOrder(d);
  }

  lemma MembersLayout(ms: seq<CompositionMember>)
    ensures Pieces(MembersVal(ms)) == [Count(ms)] + Each(MemberPieces, ms)
  {
    hide Pieces, LE;
    PiecesClauses();
    forall m
      ensures Pieces(MemberVal(m)) == MemberPieces(m)
    {
      MemberLayout(m);
    }
    EachInOrder(MemberVal, MemberPieces, ms);
  }

  lemma MemberLayout(m: CompositionMember)
    ensures Pieces(MemberVal(m)) == MemberPieces(m)
  {
    hide Pieces, LE;
    PiecesClauses();
  }

  lemma CompositionPiecesInOrder(c: Composition)
    ensures Pieces(CompositionVal(c)) == CompositionPieces(c)
  {
    hide Pieces, LE, MembersVal, Each;
    PiecesClauses();
    MembersLayout(c.members);
    var end := CompositionEndPieces(c);
    var endVal := CompositionVal(c).snd.snd;
    assert Pieces(endVal) == end;
    assert Pieces(CompositionVal(c)) == [c.id] + (Pieces(MembersVal(c.members)) + Pieces(endVal));
  }

  lemma WorkerListsLayout(w: WorkerRecord)
    ensures Pieces(WorkerCapabilitiesVal(w.capabilities)) ==
            [Count(w.capabilities)] + Each(WorkerCapabilityPieces, w.capabilities)
    ensures Pieces(IdsVal(w.localAdapters)) == [Count(w.localAdapters)] + Each(IdPieces, w.localAdapters)
  {
    hide Pieces, LE;
    PiecesClauses();
    EachInOrder(WorkerCapabilityVal, WorkerCapabilityPieces, w.capabilities);
    EachInOrder(IdVal, IdPieces, w.localAdapters);
  }

  lemma WorkerPiecesInOrder(w: WorkerRecord)
    ensures Pieces(WorkerVal(w)) == WorkerPieces(w)
  {
    hide Pieces, LE, WorkerCapabilitiesVal, IdsVal, Each;
    PiecesClauses();
    WorkerListsLayout(w);
    var listsVal := WorkerVal(w).snd.snd.snd.snd.snd.snd.snd;
    assert Pieces(listsVal) == WorkerListsPieces(w);
    assert Pieces(WorkerVal(w)) == WorkerHeadPieces(w) + Pieces(listsVal);
  }

  lemma AdaptersLayout(xs: seq<AdapterDescriptor>)
    ensures Pieces(AdaptersVal(xs)) == [Count(xs)] + Each(DescPieces, xs)
  {
    hide Pieces, LE, DescVal, DescPieces;
    forall d
      ensures Pieces(DescVal(d)) == DescPieces(d)
    {
      DescPiecesInOrder(d);
    }
    EachInOrder(DescVal, DescPieces, xs);
  }

  lemma CompositionsLayout(xs: seq<Composition>)
    ensures Pieces(CompositionsVal(xs)) == [Count(xs)] + Each(CompositionPieces, xs)
  {
    hide Pieces, LE, CompositionVal, CompositionPieces;
    forall c
      ensures Pieces(CompositionVal(c)) == CompositionPieces(c)
    {
      CompositionPiecesInOrder(c);
    }
    EachInOrder(CompositionVal, CompositionPieces, xs);
  }

  lemma WorkersLayout(xs: seq<WorkerRecord>)
    ensures Pieces(WorkersVal(xs)) == [Count(xs)] + Each(WorkerPieces, xs)
  {
    hide Pieces, LE, WorkerVal, WorkerPieces;
    forall w
      ensures Pieces(WorkerVal(w)) == WorkerPieces(w)
    {
      WorkerPiecesInOrder(w);
    }
    EachInOrder(WorkerVal, WorkerPieces, xs);
  }

  /** The snapshot: format 1, epoch, counters, and the three registries with their counts. */
  lemma SnapshotLayout(s: FabricSnapshot)
    ensures Encode(SnapshotVal(s)) == Flat(SnapshotPieces(s))
  {
    hide Pieces, LE, Encode, Flat, AdaptersVal, CompositionsVal, WorkersVal, Each, DescPieces, CompositionPieces,
      WorkerPieces;
    PiecesClauses();
    AdaptersLayout(s.adapters);
    CompositionsLayout(s.compositions);
    WorkersLayout(s.workers);
    EncodedAsPieces(SnapshotVal(s));
    assert Pieces(SnapshotVal(s)) == SnapshotPieces(s);
  }
}
