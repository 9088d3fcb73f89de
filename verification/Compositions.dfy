/** Composition building and the canonical text behind a composition digest (src/composition.cpp). */
module Compositions {
  import opened Basics
  import opened Checksum
  import opened Records
  import Uuids

  const BAR: byte := 124
  const SEMICOLON: byte := 59
  const AT: byte := 64

  function Ascii(s: string): (b: Bytes)
    ensures |b| == |s|
  {
    seq(|s|, i requires 0 <= i < |s| => s[i] as int % 256)
  }

  /** `std::to_string` of an unsigned number. */
  function Decimal(n: nat): Bytes {
    if n < 10 then [48 + n] else Decimal(n / 10) + [48 + n % 10]
  }

  function HexEncode(b: Bytes): (t: Bytes)
    ensures |t| == 2 * |b|
  {
    if b == [] then [] else [Uuids.HexDigit(b[0] / 16), Uuids.HexDigit(b[0] % 16)] + HexEncode(b[1..])
  }

  /** A field, its terminator, and whatever follows. */
  function Field(text: Bytes, end: byte, rest: Bytes): Bytes {
    text + [end] + rest
  }

  function MemberThen(m: CompositionMember, rest: Bytes): Bytes {
    Field(Uuids.Text(m.adapterId), BAR,
    Field(Uuids.Text(m.revision), BAR,
    Field(Decimal(m.generation), BAR,
    Field(Decimal(m.memoryBytes), BAR,
    Field(Decimal(m.kind), SEMICOLON, rest)))))
  }

  function Canonical(members: seq<CompositionMember>, policy: Bytes): Bytes {
    if members == [] then [AT] + policy else MemberThen(members[0], Canonical(members[1..], policy))
  }

  function Digest(members: seq<CompositionMember>, policy: Bytes): (d: Bytes)
    ensures |d| == 16
  {
    HexEncode(LE(Fnv(FNV_START, Canonical(members, policy)), 8))
  }

  method AppendField(buf: Bytes, text: Bytes, end: byte) returns (out: Bytes)
    ensures forall rest {:trigger Field(text, end, rest)} :: buf + Field(text, end, rest) == out + rest
  {
    out := buf + text;
    out := out + [end];
    forall rest
      ensures buf + Field(text, end, rest) == out + rest
    {
      ConcatAssociates(buf, text, [end]);
      ConcatAssociates(buf, text + [end], rest);
    }
  }

  method ComputeDigest(members: seq<CompositionMember>, policy: Bytes) returns (digest: Bytes)
    ensures digest == Digest(members, policy)
  {
    var canonical: Bytes := [];
    var i := 0;
    while i < |members|
      invariant 0 <= i <= |members|
      invariant canonical + Canonical(members[i..], policy) == Canonical(members, policy)
    {
      var m := members[i];
      assert members[i..][1..] == members[i + 1..];
      canonical := AppendField(canonical, Uuids.Text(m.adapterId), BAR);
      canonical := AppendField(canonical, Uuids.Text(m.revision), BAR);
      canonical := AppendField(canonical, Decimal(m.generation), BAR);
      canonical := AppendField(canonical, Decimal(m.memoryBytes), BAR);
      canonical := AppendField(canonical, Decimal(m.kind), SEMICOLON);
      i := i + 1;
    }
    ConcatAssociates(canonical, [AT], policy);
    canonical := canonical + [AT] + policy;
    var h := Fnv1a64(FNV_START, canonical);
    digest := HexEncode(LE(h, 8));
  }

  lemma {:induction false} DecimalDigits(n: nat)
    ensures Decimal(n) != [] && forall c :: c in Decimal(n) ==> 48 <= c <= 57
  {
    if n >= 10 {
      DecimalDigits(n / 10);
    }
  }

  lemma {:induction false} DecimalInjective(m: nat, n: nat)
    requires Decimal(m) == Decimal(n)
    ensures m == n
  {
    var d, e := Decimal(m), Decimal(n);
    if m >= 10 && n >= 10 {
      assert d[..|d| - 1] == Decimal(m / 10) && e[..|e| - 1] == Decimal(n / 10);
      assert d[|d| - 1] == 48 + m % 10 && e[|e| - 1] == 48 + n % 10;
      DecimalInjective(m / 10, n / 10);
    } else if m >= 10 {
      DecimalDigits(m / 10);
    } else if n >= 10 {
      DecimalDigits(n / 10);
    }
  }

  lemma FirstTerminator(text: Bytes, end: byte, rest: Bytes)
    requires end !in text
    ensures var f := Field(text, end, rest);
      && f[|text|] == end && f[..|text|] == text && f[|text| + 1..] == rest
      && forall i :: 0 <= i < |text| ==> f[i] != end
  {
    var f := Field(text, end, rest);
    forall i | 0 <= i < |text|
      ensures f[i] != end
    {
      assert f[i] == text[i] && text[i] in text;
    }
  }

  lemma FieldInjective(s: Bytes, t: Bytes, end: byte, x: Bytes, y: Bytes)
    requires Field(s, end, x) == Field(t, end, y)
    requires end !in s && end !in t
    ensures s == t && x == y
  {
    FirstTerminator(s, end, x);
    FirstTerminator(t, end, y);
    assert |s| == |t|;
  }

  lemma UuidFieldInjective(u: Uuid, v: Uuid, x: Bytes, y: Bytes)
    requires Field(Uuids.Text(u), BAR, x) == Field(Uuids.Text(v), BAR, y)
    ensures u == v && x == y
  {
    FieldInjective(Uuids.Text(u), Uuids.Text(v), BAR, x, y);
    Uuids.TextInjective(u, v);
  }

  lemma DecimalFieldInjective(m: nat, n: nat, end: byte, x: Bytes, y: Bytes)
    requires end == BAR || end == SEMICOLON
    requires Field(Decimal(m), end, x) == Field(Decimal(n), end, y)
    ensures m == n && x == y
  {
    DecimalDigits(m);
    DecimalDigits(n);
    FieldInjective(Decimal(m), Decimal(n), end, x, y);
    DecimalInjective(m, n);
  }

  lemma MemberThenInjective(m: CompositionMember, n: CompositionMember, x: Bytes, y: Bytes)
    requires MemberThen(m, x) == MemberThen(n, y)
    ensures m == n && x == y
  {
    var x5, y5 := Field(Decimal(m.kind), SEMICOLON, x), Field(Decimal(n.kind), SEMICOLON, y);
    var x4, y4 := Field(Decimal(m.memoryBytes), BAR, x5), Field(Decimal(n.memoryBytes), BAR, y5);
    var x3, y3 := Field(Decimal(m.generation), BAR, x4), Field(Decimal(n.generation), BAR, y4);
    UuidFieldInjective(m.adapterId, n.adapterId,
                       Field(Uuids.Text(m.revision), BAR, x3), Field(Uuids.Text(n.revision), BAR, y3));
    UuidFieldInjective(m.revision, n.revision, x3, y3);
    DecimalFieldInjective(m.generation, n.generation, BAR, x4, y4);
    DecimalFieldInjective(m.memoryBytes, n.memoryBytes, BAR, x5, y5);
    DecimalFieldInjective(m.kind, n.kind, SEMICOLON, x, y);
  }

  lemma MemberStartsWithADigit(m: CompositionMember, rest: Bytes)
    ensures MemberThen(m, rest) != [] && MemberThen(m, rest)[0] != AT
  {
    assert MemberThen(m, rest)[0] == Uuids.TextAt(m.adapterId, 0);
  }

  /** The hashed text determines the ordered members, with every field of them, and the policy. */
  lemma {:induction false} CanonicalInjective(
      ms: seq<CompositionMember>, ns: seq<CompositionMember>, policy: Bytes, policy': Bytes)
    requires Canonical(ms, policy) == Canonical(ns, policy')
    ensures ms == ns && policy == policy'
    decreases |ms|
  {
    if ms != [] && ns != [] {
      MemberThenInjective(ms[0], ns[0], Canonical(ms[1..], policy), Canonical(ns[1..], policy'));
      CanonicalInjective(ms[1..], ns[1..], policy, policy');
      assert ms == [ms[0]] + ms[1..] && ns == [ns[0]] + ns[1..];
    } else if ms != [] {
      MemberStartsWithADigit(ms[0], Canonical(ms[1..], policy));
    } else if ns != [] {
      MemberStartsWithADigit(ns[0], Canonical(ns[1..], policy'));
    } else {
      assert ([AT] + policy)[1..] == policy && ([AT] + policy')[1..] == policy';
    }
  }

  /** The 64-bit running total of member memory. */
  function TotalMemory(members: seq<CompositionMember>): u64 {
    if members == [] then 0
    else (TotalMemory(members[..|members| - 1]) + members[|members| - 1].memoryBytes) % TWO_TO_THE_64
  }

  function MemberOf(d: AdapterDescriptor): CompositionMember {
    CompositionMember(d.id, d.revision, d.generation, d.memoryBytes, d.kind)
  }

  /** The members a builder can hold: distinct adapters of one base model revision, none without a generation. */
  predicate Admitted(ds: seq<AdapterDescriptor>, base: Uuid, rev: Uuid) {
    && (forall i, j :: 0 <= i < j < |ds| ==> ds[i].id != ds[j].id)
    && (forall i :: 0 <= i < |ds| ==>
          ds[i].generation != 0 && ds[i].baseModel == base && ds[i].baseModelRevision == rev)
  }

  /** No two targets, within one member or across members, name the same module. */
  predicate TargetsDistinct(ds: seq<AdapterDescriptor>) {
    && (forall i, k, l :: 0 <= i < |ds| && 0 <= k < l < |ds[i].targets| ==>
          ds[i].targets[k].name != ds[i].targets[l].name)
    && (forall i, j, k, l :: 0 <= i < j < |ds| && 0 <= k < |ds[i].targets| && 0 <= l < |ds[j].targets| ==>
          ds[i].targets[k].name != ds[j].targets[l].name)
  }

  function Summary(members: seq<CompositionMember>, digest: Bytes): Bytes {
    Ascii("members=") + Decimal(|members|) + Ascii(", digest=") + digest
  }

  function Compose(id: Uuid, gen: u64, base: Uuid, rev: Uuid, policy: Bytes, ms: seq<CompositionMember>): Composition {
    Composition(id, ms, gen, base, rev, policy, TotalMemory(ms), Digest(ms, policy),
                Summary(ms, Digest(ms, policy)), true)
  }

  /** The inner loop of `build`: records the target modules of one member unless one is already taken. */
  method AddModules(seen: set<Bytes>, targets: seq<TargetModule>) returns (clash: bool, all: set<Bytes>)
    ensures clash <==> !FreshNames(seen, targets)
    ensures !clash ==> all == seen + Names(targets)
  {
    all := seen;
    var k := 0;
    while k < |targets|
      invariant 0 <= k <= |targets|
      invariant all == seen + Names(targets[..k])
      invariant FreshNames(seen, targets[..k])
    {
      ghost var sofar := targets[..k];
      assert targets[..k + 1] == sofar + [targets[k]];
      if targets[k].name in all {
        if targets[k].name !in seen {
          ghost var l :| 0 <= l < k && sofar[l].name == targets[k].name;
          assert targets[l].name == targets[k].name;
        }
        return true, all;
      }
      all := all + {targets[k].name};
      k := k + 1;
    }
    assert targets[..k] == targets;
    clash := false;
  }

  class CompositionBuilder {
    const base: Uuid
    const rev: Uuid
    const policy: Bytes
    const gen: u64
    var descriptors: seq<AdapterDescriptor>
    var members: seq<CompositionMember>

    ghost predicate Valid()
      reads this
    {
      && members == MapSeq(MemberOf, descriptors)
      && Admitted(descriptors, base, rev)
    }

    constructor (base: Uuid, rev: Uuid, policy: Bytes, gen: u64)
      ensures Valid() && descriptors == []
      ensures this.base == base && this.rev == rev && this.policy == policy && this.gen == gen
    {
      this.base, this.rev, this.policy, this.gen := base, rev, policy, gen;
      descriptors, members := [], [];
    }

    method Add(d: AdapterDescriptor) returns (res: Result<()>)
      requires Valid()
      modifies this
      ensures Valid()
      ensures res.Ok? <==> Admitted(old(descriptors) + [d], base, rev)
      ensures descriptors == if res.Ok? then old(descriptors) + [d] else old(descriptors)
      ensures res.Err? ==> res.code == InvalidComposition
    {
      ghost var extended := descriptors + [d];
      var i := 0;
      while i < |members|
        invariant 0 <= i <= |members| && descriptors == old(descriptors) && Valid()
        invariant forall j :: 0 <= j < i ==> descriptors[j].id != d.id
      {
        if members[i].adapterId == d.id {
          assert extended[i].id == extended[|descriptors|].id;
          return Err(InvalidComposition);
        }
        i := i + 1;
      }
      assert extended[|descriptors|] == d;
      if d.generation == 0 { return Err(InvalidComposition); }
      if d.baseModel != base { return Err(InvalidComposition); }
      if d.baseModelRevision != rev { return Err(InvalidComposition); }
      MapSeqSnoc(MemberOf, descriptors, d);
      members := members + [MemberOf(d)];
      descriptors := descriptors + [d];
      res := Ok(());
    }

    /**
     `newId` stands for the identity `build` generates. The checks of `add` that `build`
     repeats cannot fail on a valid builder, so only the target check is left to fail.
     */
    method Build(newId: Uuid) returns (res: Result<Composition>)
      requires Valid()
      ensures res.Ok? <==> descriptors != [] && TargetsDistinct(descriptors)
      ensures res.Ok? ==> res.value == Compose(newId, gen, base, rev, policy, members)
      ensures res.Err? ==> res.code == InvalidComposition
    {
      hide TargetsDistinct, FreshNames, Modules, Names, Digest, Summary;
      if members == [] { return Err(InvalidComposition); }
      NothingClashes();
      var seenIds: set<Uuid>, seenModules: set<Bytes> := {}, {};
      var total := 0;
      var i := 0;
      while i < |members|
        invariant 0 <= i <= |members|
        invariant total == TotalMemory(members[..i])
        invariant seenIds == set j | 0 <= j < i :: members[j].adapterId
        invariant seenModules == Modules(descriptors[..i])
        invariant TargetsDistinct(descriptors[..i])
      {
        var m, d := members[i], descriptors[i];
        assert m.adapterId !in seenIds;
        seenIds := seenIds + {m.adapterId};
        assert members[..i + 1][..i] == members[..i];
        total := (total + m.memoryBytes) % TWO_TO_THE_64;
        var clash, seen := AddModules(seenModules, d.targets);
        if clash {
          ModuleClash(descriptors, i);
          return Err(InvalidComposition);
        }
        seenModules := seen;
        assert descriptors[..i + 1] == descriptors[..i] + [d];
        NoClash(descriptors[..i], d);
        i := i + 1;
      }
      assert members[..i] == members && descriptors[..i] == descriptors;
      var digest := ComputeDigest(members, policy);
      res := Ok(Composition(newId, members, gen, base, rev, policy, total, digest, Summary(members, digest), true));
    }
  }

  ghost function Names(ts: seq<TargetModule>): set<Bytes> {
    set i | 0 <= i < |ts| :: ts[i].name
  }

  ghost function Modules(ds: seq<AdapterDescriptor>): set<Bytes> {
    set i, k | 0 <= i < |ds| && 0 <= k < |ds[i].targets| :: ds[i].targets[k].name
  }

  /** The targets are named apart from each other and from the names already seen. */
  ghost predicate FreshNames(seen: set<Bytes>, ts: seq<TargetModule>) {
    && (forall k :: 0 <= k < |ts| ==> ts[k].name !in seen)
    && (forall k, l :: 0 <= k < l < |ts| ==> ts[k].name != ts[l].name)
  }

  lemma NothingClashes()
    ensures TargetsDistinct([]) && Modules([]) == {}
  {
  }

  lemma ModuleClash(ds: seq<AdapterDescriptor>, i: nat)
    requires i < |ds| && !FreshNames(Modules(ds[..i]), ds[i].targets)
    ensures !TargetsDistinct(ds)
  {
    if k :| 0 <= k < |ds[i].targets| && ds[i].targets[k].name in Modules(ds[..i]) {
      var j, l :| 0 <= j < i && 0 <= l < |ds[..i][j].targets| && ds[..i][j].targets[l].name == ds[i].targets[k].name;
      assert ds[j].targets[l].name == ds[i].targets[k].name;
    }
  }

  lemma NoClash(ds: seq<AdapterDescriptor>, d: AdapterDescriptor)
    requires TargetsDistinct(ds) && FreshNames(Modules(ds), d.targets)
    ensures TargetsDistinct(ds + [d])
    ensures Modules(ds + [d]) == Modules(ds) + Names(d.targets)
  {
    var e := ds + [d];
    forall i, j, k, l | 0 <= i < j < |e| && 0 <= k < |e[i].targets| && 0 <= l < |e[j].targets|
      ensures e[i].targets[k].name != e[j].targets[l].name
    {
      assert e[i] == ds[i];
      if j == |ds| {
        assert ds[i].targets[k].name in Modules(ds);
      }
    }
    forall name
      ensures name in Modules(e) <==> name in Modules(ds) + Names(d.targets)
    {
      if name in Modules(ds) {
        var i, k :| 0 <= i < |ds| && 0 <= k < |ds[i].targets| && ds[i].targets[k].name == name;
        assert e[i].targets[k].name == name;
      }
      if name in Names(d.targets) {
        var k :| 0 <= k < |d.targets| && d.targets[k].name == name;
        assert e[|ds|].targets[k].name == name;
      }
    }
  }
}
