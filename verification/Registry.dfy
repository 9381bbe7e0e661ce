/** The model registry: byte spans from the file layout, expert slice geometry and the fail-closed
    structural checks, in 64-bit arithmetic. */
module Registry {
  import opened Bytes
  import opened GgufFormat
  import opened GgufReader

  const U64: nat := 0x1_0000_0000_0000_0000

  /** 64-bit unsigned wrap-around. */
  function Wrap(v: int): (r: nat)
    ensures r < U64 && (0 <= v < U64 ==> r == v)
  {
    v % U64
  }

  /** Conversion of an unsigned number to a 32-bit signed one. */
  function AsInt32(v: nat): int {
    var w := v % 0x1_0000_0000;
    if w >= 0x8000_0000 then w - 0x1_0000_0000 else w
  }

  datatype Kind = Routed | Shared | Other

  /** Classification by tensor name. */
  type Classifier = seq<byte> -> Kind

  datatype Info = Info(t: Tensor, kind: Kind, abs: nat, bytes: nat, perExpert: nat)

  /** Routed tensors, and how their slices lie with respect to pages. */
  datatype Counts = Counts(routed: nat, misaligned: nat, allAligned: nat, uniform: nat, scattered: nat)

  datatype Manifest = Manifest(fileSize: nat, dataOffset: nat, ioAlignment: nat, nExperts: int, tensors: seq<Info>,
                               counts: Counts)

  // ---------------------------------------------------------------- sorting by offset

  ghost predicate NotAfter(ts: seq<Tensor>, i: nat, k: nat)
    requires i < k < |ts|
  {
    ts[i].relOffset <= ts[k].relOffset
  }

  ghost predicate Ascending(ts: seq<Tensor>) {
    forall i, k :: 0 <= i < k < |ts| ==> NotAfter(ts, i, k)
  }

  function InsertByOffset(ts: seq<Tensor>, t: Tensor): seq<Tensor> {
    if ts == [] || ts[|ts| - 1].relOffset <= t.relOffset then ts + [t]
    else InsertByOffset(ts[..|ts| - 1], t) + [ts[|ts| - 1]]
  }

  /** The library sort. The order of equal offsets is the library's choice; it does not matter here,
      since equal offsets are rejected. */
  function SortByOffset(ts: seq<Tensor>): seq<Tensor> {
    if ts == [] then [] else InsertByOffset(SortByOffset(ts[..|ts| - 1]), ts[|ts| - 1])
  }

  lemma {:induction false} AscendingPrefix(ts: seq<Tensor>, n: nat)
    requires Ascending(ts) && n <= |ts|
    ensures Ascending(ts[..n])
  {
    forall i, k | 0 <= i < k < n ensures NotAfter(ts[..n], i, k) { assert NotAfter(ts, i, k); }
  }

  lemma {:induction false} AscendingSnoc(ts: seq<Tensor>, t: Tensor)
    requires Ascending(ts) && forall i :: 0 <= i < |ts| ==> ts[i].relOffset <= t.relOffset
    ensures Ascending(ts + [t])
  {
    forall i, k | 0 <= i < k < |ts| + 1 ensures NotAfter(ts + [t], i, k) { assert k < |ts| ==> NotAfter(ts, i, k); }
  }

  lemma {:induction false} InsertAscending(ts: seq<Tensor>, t: Tensor)
    requires Ascending(ts)
    ensures Ascending(InsertByOffset(ts, t)) && multiset(InsertByOffset(ts, t)) == multiset(ts) + multiset{t}
  {
    if ts != [] && ts[|ts| - 1].relOffset > t.relOffset {
      var n := |ts| - 1;
      var r := InsertByOffset(ts[..n], t);
      AscendingPrefix(ts, n);
      InsertAscending(ts[..n], t);
      assert ts == ts[..n] + [ts[n]];
      forall i | 0 <= i < |r| ensures r[i].relOffset <= ts[n].relOffset {
        assert r[i] in multiset(ts[..n]) + multiset{t};
        if r[i] != t {
          assert r[i] in ts[..n];
          var k :| 0 <= k < n && ts[k] == r[i];
          assert NotAfter(ts, k, n);
        }
      }
      AscendingSnoc(r, ts[n]);
    } else {
      forall i | 0 <= i < |ts| ensures ts[i].relOffset <= t.relOffset {
        assert i < |ts| - 1 ==> NotAfter(ts, i, |ts| - 1);
      }
      AscendingSnoc(ts, t);
    }
  }

  lemma {:induction false} SortedAscending(ts: seq<Tensor>)
    ensures Ascending(SortByOffset(ts)) && multiset(SortByOffset(ts)) == multiset(ts) && |SortByOffset(ts)| == |ts|
  {
    if ts != [] {
      var n := |ts| - 1;
      SortedAscending(ts[..n]);
      InsertAscending(SortByOffset(ts[..n]), ts[n]);
      assert ts == ts[..n] + [ts[n]];
    }
    assert |multiset(SortByOffset(ts))| == |multiset(ts)|;
  }

  /** A directory in ascending order is left alone. */
  lemma {:induction false} SortIdentity(ts: seq<Tensor>)
    requires Ascending(ts)
    ensures SortByOffset(ts) == ts
  {
    if ts != [] {
      var n := |ts| - 1;
      AscendingPrefix(ts, n);
      SortIdentity(ts[..n]);
      assert n > 0 ==> NotAfter(ts, n - 1, n);
      assert ts == ts[..n] + [ts[n]];
    }
  }

  // ---------------------------------------------------------------- what is derived

  /** First axis whose extent is the expert count, or -1. */
  function ExpertAxis(dims: seq<nat>, nExperts: int, d: nat): int
    requires d <= |dims|
    decreases |dims| - d
  {
    if d == |dims| then -1 else if AsInt32(dims[d]) == nExperts then d else ExpertAxis(dims, nExperts, d + 1)
  }

  function InfoOf(sorted: seq<Tensor>, i: nat, dataOffset: nat, fileSize: nat, nExperts: int, kind: Classifier): Info
    requires i < |sorted|
  {
    var t := sorted[i];
    var abs := Wrap(dataOffset + t.relOffset);
    var bytes := if i + 1 < |sorted| then Wrap(sorted[i + 1].relOffset - t.relOffset) else Wrap(fileSize - abs);
    Info(t, kind(t.name), abs, bytes, if kind(t.name) == Routed && nExperts > 0 then bytes / nExperts else 0)
  }

  function Infos(sorted: seq<Tensor>, n: nat, dataOffset: nat, fileSize: nat, nExperts: int, kind: Classifier): (r: seq<Info>)
    requires n <= |sorted|
    ensures |r| == n
    ensures forall i :: 0 <= i < n ==> r[i] == InfoOf(sorted, i, dataOffset, fileSize, nExperts, kind)
  {
    seq(n, i requires 0 <= i < n => InfoOf(sorted, i, dataOffset, fileSize, nExperts, kind))
  }

  /** A routed tensor needs experts, an expert axis and a nonempty span. */
  predicate InfoOk(x: Info, nExperts: int) {
    x.kind == Routed ==> nExperts > 0 && ExpertAxis(x.t.dims, nExperts, 0) >= 0 && x.bytes != 0
  }

  predicate SpanOk(x: Info, dataOffset: nat, fileSize: nat) {
    x.abs >= dataOffset && Wrap(x.abs + x.bytes) <= fileSize
  }

  function Count(xs: seq<Info>, p: Info -> bool): nat {
    if xs == [] then 0 else Count(xs[..|xs| - 1], p) + (if p(xs[|xs| - 1]) then 1 else 0)
  }

  lemma {:induction false} CountSame(xs: seq<Info>, ys: seq<Info>, p: Info -> bool, q: Info -> bool)
    requires |xs| == |ys| && forall i :: 0 <= i < |xs| ==> (p(xs[i]) <==> q(ys[i]))
    ensures Count(xs, p) == Count(ys, q)
  {
    if xs != [] { CountSame(xs[..|xs| - 1], ys[..|ys| - 1], p, q); }
  }

  predicate IsRouted(x: Info) { x.kind == Routed }
  predicate IsMisaligned(x: Info) { x.kind == Routed && !Aligned(x.abs) }
  predicate IsAllAligned(x: Info) { x.kind == Routed && Aligned(x.perExpert) && Aligned(x.abs) }
  predicate IsUniform(x: Info) { x.kind == Routed && Aligned(x.perExpert) && !Aligned(x.abs) }
  predicate IsScattered(x: Info) { x.kind == Routed && !Aligned(x.perExpert) }

  /** Expert configuration: whether the architecture declares experts, and how many. */
  function ExpertConfig(tab: Tables): Option<(bool, int)> {
    if Name(Ascii("general.architecture")) !in tab.s then None
    else
      var arch := tab.s[Name(Ascii("general.architecture"))];
      var count, used := Name(arch + Ascii(".expert_count")), Name(arch + Ascii(".expert_used_count"));
      if Name(arch + Ascii(".block_count")) !in tab.u then None
      else if count !in tab.u && count !in tab.i && count !in tab.f && count !in tab.s then Some((false, 0))
      else if count !in tab.u || AsInt32(tab.u[count]) <= 0 || used !in tab.u then None
      else Some((true, AsInt32(tab.u[count])))
  }

  ghost predicate Differ(xs: seq<Info>, i: nat, k: nat)
    requires i < k < |xs|
  {
    xs[i].abs != xs[k].abs
  }

  ghost predicate DistinctOffsets(xs: seq<Info>) {
    forall i, k :: 0 <= i < k < |xs| ==> Differ(xs, i, k)
  }

  ghost predicate Accepts(xs: seq<Info>, dataOffset: nat, fileSize: nat, hasExperts: bool, nExperts: int) {
    && (forall i :: 0 <= i < |xs| ==> InfoOk(xs[i], nExperts))
    && (forall i :: 0 <= i < |xs| ==> SpanOk(xs[i], dataOffset, fileSize))
    && DistinctOffsets(xs)
    && (hasExperts ==> Count(xs, IsRouted) > 0)
  }

  function CountsOf(xs: seq<Info>): Counts {
    Counts(Count(xs, IsRouted), Count(xs, IsMisaligned), Count(xs, IsAllAligned), Count(xs, IsUniform), Count(xs, IsScattered))
  }

  /** The manifest of a file with metadata `meta` ending at `metaEnd`, if the registry accepts it. */
  ghost function BuildOf(meta: Meta, metaEnd: nat, fileSize: nat, kind: Classifier): Option<Manifest> {
    var tab := TablesOf(meta.kvs, 24);
    ManifestOf(tab, meta.tensors, AlignUp(metaEnd, AlignmentOf(tab)), fileSize, kind)
  }

  ghost function ManifestOf(tab: Tables, dir: seq<Tensor>, dataOffset: nat, fileSize: nat, kind: Classifier): Option<Manifest> {
    var config := ExpertConfig(tab);
    if config.None? then None
    else
      var sorted := SortByOffset(dir);
      var xs := Infos(sorted, |sorted|, dataOffset, fileSize, config.value.1, kind);
      if Accepts(xs, dataOffset, fileSize, config.value.0, config.value.1)
      then Some(Manifest(fileSize, dataOffset, AlignmentOf(tab), config.value.1, xs, CountsOf(xs)))
      else None
  }

  // ---------------------------------------------------------------- the builder

  method FindExpertAxis(dims: seq<nat>, nExperts: int) returns (axis: int)
    ensures axis == ExpertAxis(dims, nExperts, 0)
  {
    var d := 0;
    while d < |dims|
      invariant d <= |dims| && ExpertAxis(dims, nExperts, d) == ExpertAxis(dims, nExperts, 0)
    {
      if AsInt32(dims[d]) == nExperts { return d; }
      d := d + 1;
    }
    return -1;
  }

  /** Span and expert geometry of one tensor; fails for a routed tensor without either. */
  method DeriveOne(sorted: seq<Tensor>, i: nat, dataOffset: nat, fileSize: nat, nExperts: int, kind: Classifier)
    returns (ok: bool, x: Info)
    requires i < |sorted|
    ensures x == InfoOf(sorted, i, dataOffset, fileSize, nExperts, kind) || !ok
    ensures ok <==> InfoOk(InfoOf(sorted, i, dataOffset, fileSize, nExperts, kind), nExperts)
  {
    var t := sorted[i];
    var abs := Wrap(dataOffset + t.relOffset);
    var bytes := if i + 1 < |sorted| then Wrap(sorted[i + 1].relOffset - t.relOffset) else Wrap(fileSize - abs);
    ok, x := Geometry(t, kind(t.name), abs, bytes, nExperts);
  }

  /** Expert axis and stride of a tensor whose span is known. */
  method Geometry(t: Tensor, k: Kind, abs: nat, bytes: nat, nExperts: int) returns (ok: bool, x: Info)
    ensures ok ==> x == Info(t, k, abs, bytes, if k == Routed && nExperts > 0 then bytes / nExperts else 0)
    ensures ok <==> (k == Routed ==> nExperts > 0 && ExpertAxis(t.dims, nExperts, 0) >= 0 && bytes != 0)
  {
    x := Info(t, k, abs, bytes, 0);
    if k == Routed {
      if nExperts <= 0 { return false, x; }
      var axis := FindExpertAxis(t.dims, nExperts);
      if axis < 0 || bytes == 0 { return false, x; }
      x := x.(perExpert := bytes / nExperts);
    }
    ok := true;
  }

  method Tally(c: Counts, x: Info, ghost xs: seq<Info>) returns (c': Counts)
    requires c == CountsOf(xs)
    ensures c' == CountsOf(xs + [x])
  {
    assert (xs + [x])[..|xs|] == xs;
    c' := c;
    if x.kind == Routed {
      c' := c'.(routed := c'.routed + 1);
      if !Aligned(x.abs) { c' := c'.(misaligned := c'.misaligned + 1); }
      if Aligned(x.perExpert) {
        if Aligned(x.abs) { c' := c'.(allAligned := c'.allAligned + 1); } else { c' := c'.(uniform := c'.uniform + 1); }
      } else {
        c' := c'.(scattered := c'.scattered + 1);
      }
    }
  }

  /** Derives the spans in offset order and counts alignment classes, stopping at the first routed
      tensor that has no expert geometry. */
  method DeriveSpans(sorted: seq<Tensor>, dataOffset: nat, fileSize: nat, nExperts: int, kind: Classifier)
    returns (ok: bool, xs: seq<Info>, counts: Counts)
    ensures ok <==> forall i :: 0 <= i < |sorted| ==> InfoOk(InfoOf(sorted, i, dataOffset, fileSize, nExperts, kind), nExperts)
    ensures ok ==> xs == Infos(sorted, |sorted|, dataOffset, fileSize, nExperts, kind) && counts == CountsOf(xs)
  {
    xs, counts := [], Counts(0, 0, 0, 0, 0);
    for i := 0 to |sorted|
      invariant xs == Infos(sorted, i, dataOffset, fileSize, nExperts, kind) && counts == CountsOf(xs)
      invariant forall j :: 0 <= j < i ==> InfoOk(InfoOf(sorted, j, dataOffset, fileSize, nExperts, kind), nExperts)
    {
      var x;
      ok, x := DeriveOne(sorted, i, dataOffset, fileSize, nExperts, kind);
      if !ok { return; }
      counts := Tally(counts, x, xs);
      xs := xs + [x];
    }
    ok := true;
  }

  /** Bounds and duplicate checks over the finished manifest. */
  method CheckSpans(xs: seq<Info>, dataOffset: nat, fileSize: nat) returns (ok: bool)
    ensures ok <==> (forall i :: 0 <= i < |xs| ==> SpanOk(xs[i], dataOffset, fileSize)) && DistinctOffsets(xs)
  {
    var seen: set<nat> := {};
    for i := 0 to |xs|
      invariant forall v :: v in seen <==> exists j :: 0 <= j < i && xs[j].abs == v
      invariant forall j :: 0 <= j < i ==> SpanOk(xs[j], dataOffset, fileSize)
      invariant forall j, k :: 0 <= j < k < i ==> Differ(xs, j, k)
    {
      if xs[i].abs < dataOffset || Wrap(xs[i].abs + xs[i].bytes) > fileSize { return false; }
      if xs[i].abs in seen {
        ghost var j :| 0 <= j < i && xs[j].abs == xs[i].abs;
        assert !Differ(xs, j, i);
        return false;
      }
      seen := seen + {xs[i].abs};
    }
    ok := true;
  }

  /** The file parses, and the registry's checks hold of what it parses to. */
  ghost predicate Buildable(file: seq<byte>, kind: Classifier) {
    var p := ParseMeta(file);
    && p.Some? && PowerOfTwo(AlignmentOf(TablesOf(p.value.0.kvs, 24)))
    && BuildOf(p.value.0, p.value.1, |file|, kind).Some?
  }

  /** The manifest of a file without tensors whose last value reaches behind its end. */
  ghost function OutsideManifest(file: seq<byte>, kind: Classifier): Option<Manifest> {
    var p := OutsideKvs(file);
    if !Aligns(p) then None
    else
      var tab := TablesOf(p.value.0, 24);
      ManifestOf(tab, [], AlignUp(p.value.1, AlignmentOf(tab)), |file|, kind)
  }

  /** Such a file is accepted exactly if it declares an architecture with its layers and no experts. */
  lemma {:induction false} OutsideIff(file: seq<byte>, kind: Classifier)
    ensures OutsideManifest(file, kind).Some? <==>
      Aligns(OutsideKvs(file)) && ExpertConfig(TablesOf(OutsideKvs(file).value.0, 24)) == Some((false, 0))
    ensures var m := OutsideManifest(file, kind); m.Some? ==> m.value.tensors == [] && m.value.dataOffset > |file|
  {
    if Aligns(OutsideKvs(file)) {
      var (kvs, end) := OutsideKvs(file).value;
      var tab := TablesOf(kvs, 24);
      AlignUpAbove(end, AlignmentOf(tab));
      assert SortByOffset([]) == [];
      assert Count([], IsRouted) == 0;
    }
  }

  /** Reads the metadata of a file and derives its manifest. */
  method Build(file: seq<byte>, kind: Classifier) returns (ok: bool, m: Manifest)
    ensures ok <==> Buildable(file, kind) || OutsideManifest(file, kind).Some?
    ensures Buildable(file, kind) ==>
      BuildOf(ParseMeta(file).value.0, ParseMeta(file).value.1, |file|, kind) == Some(m)
    ensures ok && !Buildable(file, kind) ==> OutsideManifest(file, kind) == Some(m)
    ensures ok ==>
      var metaEnd := if Buildable(file, kind) then ParseMeta(file).value.1 else OutsideKvs(file).value.1;
      m.ioAlignment > 0 && m.dataOffset % m.ioAlignment == 0 && metaEnd <= m.dataOffset < metaEnd + m.ioAlignment
  {
    m := Manifest(0, 0, 32, 0, [], Counts(0, 0, 0, 0, 0));
    var r := new Reader(file);
    ok := r.Open();
    if !ok { return; }
    var dir := Directory(r.tensors);
    if r.metaEnd <= |file| { DirectoryOfRaw(r.meta.tensors, r.kvEnd); }
    ok, m := Assemble(r.tables, dir, r.dataOffset, r.alignment, |file|, kind);
  }

  /** Spans, geometry and checks for an opened file. */
  method Assemble(tab: Tables, dir: seq<Tensor>, dataOffset: nat, alignment: nat, fileSize: nat, kind: Classifier)
    returns (ok: bool, m: Manifest)
    requires alignment == AlignmentOf(tab)
    ensures ok <==> ManifestOf(tab, dir, dataOffset, fileSize, kind).Some?
    ensures ok ==> ManifestOf(tab, dir, dataOffset, fileSize, kind) == Some(m)
    ensures ok ==> m.dataOffset == dataOffset && m.ioAlignment == alignment && |m.tensors| == |dir|
  {
    m := Manifest(0, 0, 32, 0, [], Counts(0, 0, 0, 0, 0));
    var config := ExpertConfig(tab);
    if config.None? { return false, m; }
    var (hasExperts, nExperts) := config.value;
    SortedAscending(dir);
    var sorted := SortByOffset(dir);
    var xs, counts;
    ok, xs, counts := DeriveSpans(sorted, dataOffset, fileSize, nExperts, kind);
    if !ok { return; }
    ok := CheckSpans(xs, dataOffset, fileSize);
    if !ok { return; }
    if hasExperts && counts.routed == 0 { return false, m; }
    m := Manifest(fileSize, dataOffset, alignment, nExperts, xs, counts);
  }

  function Directory(raw: seq<RawTensor>): seq<Tensor> {
    seq(|raw|, i requires 0 <= i < |raw| => raw[i].t)
  }

  lemma {:induction false} DirectoryOfRaw(ts: seq<Tensor>, start: nat)
    ensures Directory(RawTensors(ts, start)) == ts
  {
    if ts != [] {
      var n := |ts| - 1;
      DirectoryOfRaw(ts[..n], start);
      assert ts == ts[..n] + [ts[n]];
      assert Directory(RawTensors(ts, start)) == Directory(RawTensors(ts[..n], start)) + [ts[n]];
    }
  }

  // ---------------------------------------------------------------- what a manifest says

  /** `v` and `w` agree modulo 2^64. */
  ghost predicate Congruent(v: int, w: int) {
    (v - w) % 0x1_0000_0000_0000_0000 == 0
  }

  /** The span of tensor `i` runs from its offset in the data section to the next tensor or, for the last one,
      to the end of the file, in 64-bit arithmetic. */
  lemma {:induction false} SpanMeans(sorted: seq<Tensor>, i: nat, dataOffset: nat, fileSize: nat, nExperts: int, kind: Classifier)
    requires i < |sorted|
    ensures var x := InfoOf(sorted, i, dataOffset, fileSize, nExperts, kind);
      && x.t == sorted[i] && x.kind == kind(sorted[i].name)
      && x.abs < U64 && Congruent(x.abs, dataOffset + sorted[i].relOffset)
      && x.bytes < U64
      && Congruent(x.abs + x.bytes, if i + 1 < |sorted| then dataOffset + sorted[i + 1].relOffset else fileSize)
  {
    var x := InfoOf(sorted, i, dataOffset, fileSize, nExperts, kind);
    WrapIs(dataOffset + sorted[i].relOffset);
    if i + 1 < |sorted| {
      WrapIs(sorted[i + 1].relOffset - sorted[i].relOffset);
      SumCongruent(x.abs, dataOffset + sorted[i].relOffset, x.bytes, sorted[i + 1].relOffset - sorted[i].relOffset);
    } else {
      WrapIs(fileSize - x.abs);
      SumCongruent(x.abs, x.abs, x.bytes, fileSize - x.abs);
    }
  }

  lemma {:induction false} WrapIs(v: int)
    ensures Wrap(v) < U64 && Congruent(Wrap(v), v)
  {
  }

  lemma {:induction false} SumCongruent(a: int, a': int, b: int, b': int)
    requires Congruent(a, a') && Congruent(b, b')
    ensures Congruent(a + b, a' + b')
  {
  }

  /** The low 32 bits of `v`, read as a signed number. */
  lemma {:induction false} AsInt32Is(v: nat)
    ensures -0x8000_0000 <= AsInt32(v) < 0x8000_0000 && (v - AsInt32(v)) % 0x1_0000_0000 == 0
  {
  }

  lemma {:induction false} ExpertAxisIff(dims: seq<nat>, nExperts: int, d: nat)
    requires d <= |dims|
    ensures ExpertAxis(dims, nExperts, d) >= 0 <==> exists k :: d <= k < |dims| && AsInt32(dims[k]) == nExperts
    decreases |dims| - d
  {
    if d < |dims| { ExpertAxisIff(dims, nExperts, d + 1); }
  }
  /** The architecture declares experts: some value stands under its expert count. */
  ghost predicate DeclaresExperts(tab: Tables, arch: seq<byte>) {
    var count := Name(arch + Ascii(".expert_count"));
    count in tab.u || count in tab.i || count in tab.f || count in tab.s
  }

  /** What the pairs must hold. */
  ghost predicate PairsOk(tab: Tables) {
    && Name(Ascii("general.architecture")) in tab.s
    && var arch := tab.s[Name(Ascii("general.architecture"))];
       && Name(arch + Ascii(".block_count")) in tab.u
       && (DeclaresExperts(tab, arch) ==>
             && Name(arch + Ascii(".expert_count")) in tab.u && AsInt32(tab.u[Name(arch + Ascii(".expert_count"))]) > 0
             && Name(arch + Ascii(".expert_used_count")) in tab.u)
  }

  /** The expert count, or 0 for an architecture without experts. */
  ghost function ExpertsOf(tab: Tables): int
    requires PairsOk(tab)
  {
    var arch := tab.s[Name(Ascii("general.architecture"))];
    if DeclaresExperts(tab, arch) then AsInt32(tab.u[Name(arch + Ascii(".expert_count"))]) else 0
  }

  /** A tensor that may stand in the directory: if it is routed, one of its extents is the expert count. */
  ghost predicate EntryOk(t: Tensor, nExperts: int, kind: Classifier) {
    kind(t.name) == Routed ==> nExperts > 0 && exists d :: 0 <= d < |t.dims| && AsInt32(t.dims[d]) == nExperts
  }

  lemma {:induction false} ConfigIff(tab: Tables)
    ensures ExpertConfig(tab).Some? <==> PairsOk(tab)
    ensures PairsOk(tab) ==> ExpertConfig(tab).value == (ExpertsOf(tab) > 0, ExpertsOf(tab))
  {
  }

  ghost predicate EntriesOk(ts: seq<Tensor>, nExperts: int, kind: Classifier) {
    forall t :: t in ts ==> EntryOk(t, nExperts, kind)
  }

  ghost predicate HasRouted(ts: seq<Tensor>, kind: Classifier) {
    exists t :: t in ts && kind(t.name) == Routed
  }

  /** Spans start in the data section and end, in 64-bit arithmetic, inside the file; routed ones are not empty. */
  ghost predicate SpansFit(xs: seq<Info>, dataOffset: nat, fileSize: nat) {
    forall x :: x in xs ==> dataOffset <= x.abs && Wrap(x.abs + x.bytes) <= fileSize && (x.kind == Routed ==> x.bytes > 0)
  }

  /** A file is accepted exactly if its pairs are complete, every routed tensor has an expert axis, experts that
      are declared are there, and the spans are in bounds, apart and, for routed tensors, not empty. */
  lemma {:induction false} BuildIff(meta: Meta, metaEnd: nat, fileSize: nat, kind: Classifier)
    ensures var tab, ts := TablesOf(meta.kvs, 24), meta.tensors;
      BuildOf(meta, metaEnd, fileSize, kind).Some? <==>
        && PairsOk(tab)
        && var n, dataOffset, sorted := ExpertsOf(tab), AlignUp(metaEnd, AlignmentOf(tab)), SortByOffset(ts);
           var xs := Infos(sorted, |sorted|, dataOffset, fileSize, n, kind);
           && EntriesOk(ts, n, kind) && (n > 0 ==> HasRouted(ts, kind))
           && SpansFit(xs, dataOffset, fileSize) && DistinctOffsets(xs)
  {
    var tab, ts := TablesOf(meta.kvs, 24), meta.tensors;
    ConfigIff(tab);
    if PairsOk(tab) {
      var n, dataOffset, sorted := ExpertsOf(tab), AlignUp(metaEnd, AlignmentOf(tab)), SortByOffset(ts);
      AcceptsIff(sorted, Infos(sorted, |sorted|, dataOffset, fileSize, n, kind), dataOffset, fileSize, n, kind);
      SortedAscending(ts);
      assert forall t :: t in sorted <==> t in multiset(ts);
    }
  }

  /** The entries of a manifest are the tensors, with their kinds. */
  ghost predicate Describe(xs: seq<Info>, ts: seq<Tensor>, kind: Classifier) {
    |xs| == |ts| && forall i :: 0 <= i < |xs| ==> xs[i].t == ts[i] && xs[i].kind == kind(ts[i].name)
  }

  lemma {:induction false} AcceptsIff(ts: seq<Tensor>, xs: seq<Info>, dataOffset: nat, fileSize: nat, n: int, kind: Classifier)
    requires Describe(xs, ts, kind)
    ensures Accepts(xs, dataOffset, fileSize, n > 0, n) <==>
      && EntriesOk(ts, n, kind) && (n > 0 ==> HasRouted(ts, kind))
      && SpansFit(xs, dataOffset, fileSize) && DistinctOffsets(xs)
  {
    forall i | 0 <= i < |xs|
      ensures InfoOk(xs[i], n) <==> EntryOk(ts[i], n, kind) && (xs[i].kind == Routed ==> xs[i].bytes > 0)
    {
      ExpertAxisIff(ts[i].dims, n, 0);
    }
    RoutedIff(ts, xs, kind);
  }

  lemma {:induction false} RoutedIff(ts: seq<Tensor>, xs: seq<Info>, kind: Classifier)
    requires Describe(xs, ts, kind)
    ensures Count(xs, IsRouted) > 0 <==> HasRouted(ts, kind)
  {
    CountPositive(xs, IsRouted);
    if t :| t in ts && kind(t.name) == Routed {
      var i :| 0 <= i < |ts| && ts[i] == t;
      assert IsRouted(xs[i]);
    }
  }

  lemma {:induction false} CountPositive(xs: seq<Info>, p: Info -> bool)
    ensures Count(xs, p) > 0 <==> exists i :: 0 <= i < |xs| && p(xs[i])
  {
    if xs != [] {
      var n := |xs| - 1;
      CountPositive(xs[..n], p);
      if i :| 0 <= i < |xs| && p(xs[i]) { assert i < n ==> p(xs[..n][i]); }
    }
  }

  /** What every accepted file has: the keys it must have, and an expert axis in every routed tensor. */
  lemma {:induction false} BuildRequires(meta: Meta, metaEnd: nat, fileSize: nat, kind: Classifier)
    requires BuildOf(meta, metaEnd, fileSize, kind).Some?
    ensures Name(Ascii("general.architecture")) in TablesOf(meta.kvs, 24).s
    ensures var tab, n := TablesOf(meta.kvs, 24), BuildOf(meta, metaEnd, fileSize, kind).value.nExperts;
      var arch := tab.s[Name(Ascii("general.architecture"))];
      var count := Name(arch + Ascii(".expert_count"));
      && Name(arch + Ascii(".block_count")) in tab.u
      && (if count in tab.u || count in tab.i || count in tab.f || count in tab.s then
            && count in tab.u && AsInt32(tab.u[count]) == n > 0 && Name(arch + Ascii(".expert_used_count")) in tab.u
            && exists t :: t in meta.tensors && kind(t.name) == Routed
          else n == 0)
    ensures forall t :: t in meta.tensors && kind(t.name) == Routed ==>
      var n := BuildOf(meta, metaEnd, fileSize, kind).value.nExperts;
      n > 0 && exists d :: 0 <= d < |t.dims| && AsInt32(t.dims[d]) == n
  {
    var tab := TablesOf(meta.kvs, 24);
    ConfigIff(tab);
    BuildIff(meta, metaEnd, fileSize, kind);
    forall t | t in meta.tensors ensures EntryOk(t, ExpertsOf(tab), kind) { }
  }

  /** Entry `i` of a manifest: tensor and kind, its span in 64-bit arithmetic, up to the next tensor or the end
      of the file, and, if it is routed, that span divided by the expert count. */
  ghost predicate EntryMeans(m: Manifest, ts: seq<Tensor>, i: nat, kind: Classifier)
    requires i < |ts| == |m.tensors|
  {
    var x := m.tensors[i];
    && x.t == ts[i] && x.kind == kind(ts[i].name)
    && x.abs < 0x1_0000_0000_0000_0000 && Congruent(x.abs, m.dataOffset + ts[i].relOffset)
    && x.bytes < 0x1_0000_0000_0000_0000
    && Congruent(x.abs + x.bytes, if i + 1 < |ts| then m.dataOffset + ts[i + 1].relOffset else m.fileSize)
    && (x.kind == Routed ==> x.bytes > 0 && Quotient(x.bytes, m.nExperts, x.perExpert))
  }

  /** The manifest of an accepted file lists every tensor once, by ascending offset. */
  lemma {:induction false} ManifestMeans(meta: Meta, metaEnd: nat, fileSize: nat, kind: Classifier, m: Manifest, ts: seq<Tensor>)
    requires BuildOf(meta, metaEnd, fileSize, kind) == Some(m) && ts == SortByOffset(meta.tensors)
    ensures m.fileSize == fileSize && |m.tensors| == |meta.tensors| == |ts| && multiset(ts) == multiset(meta.tensors)
    ensures forall i, k :: 0 <= i < k < |ts| ==> NotAfter(ts, i, k)
    ensures forall i :: 0 <= i < |ts| ==> EntryMeans(m, ts, i, kind)
    ensures m.counts == CountsOf(m.tensors)
  {
    SortedAscending(meta.tensors);
    forall i | 0 <= i < |ts| ensures EntryMeans(m, ts, i, kind) { EntryDerived(m, ts, i, fileSize, kind); }
  }

  lemma {:induction false} EntryDerived(m: Manifest, ts: seq<Tensor>, i: nat, fileSize: nat, kind: Classifier)
    requires i < |ts| == |m.tensors| && m.tensors[i] == InfoOf(ts, i, m.dataOffset, fileSize, m.nExperts, kind)
    requires InfoOk(m.tensors[i], m.nExperts) && m.fileSize == fileSize
    ensures EntryMeans(m, ts, i, kind)
  {
    SpanMeans(ts, i, m.dataOffset, fileSize, m.nExperts, kind);
    if m.tensors[i].kind == Routed { QuotientOf(m.tensors[i].bytes, m.nExperts); }
  }

  /** `q` is `b` divided by `n`, rounded down. */
  ghost predicate Quotient(b: nat, n: int, q: nat) {
    n > 0 && q * n <= b < q * n + n
  }

  lemma {:induction false} QuotientOf(b: nat, n: int)
    requires n > 0
    ensures b / n >= 0 && Quotient(b, n, b / n)
  {
    assert b == (b / n) * n + b % n;
  }

  /** The five counters count the routed tensors and their four classes of alignment. */
  lemma {:induction false} CountsMean(xs: seq<Info>)
    ensures var c := CountsOf(xs);
      && c.routed == |set i | 0 <= i < |xs| && xs[i].kind == Routed|
      && c.misaligned == |set i | 0 <= i < |xs| && xs[i].kind == Routed && xs[i].abs % 4096 != 0|
      && c.allAligned == |set i | 0 <= i < |xs| && xs[i].kind == Routed && xs[i].perExpert % 4096 == 0 && xs[i].abs % 4096 == 0|
      && c.uniform == |set i | 0 <= i < |xs| && xs[i].kind == Routed && xs[i].perExpert % 4096 == 0 && xs[i].abs % 4096 != 0|
      && c.scattered == |set i | 0 <= i < |xs| && xs[i].kind == Routed && xs[i].perExpert % 4096 != 0|
  {
    CountIs(xs, IsRouted);
    CountIs(xs, IsMisaligned);
    CountIs(xs, IsAllAligned);
    CountIs(xs, IsUniform);
    CountIs(xs, IsScattered);
    assert (set i | 0 <= i < |xs| && xs[i].kind == Routed) == Where(xs, IsRouted);
    assert (set i | 0 <= i < |xs| && xs[i].kind == Routed && xs[i].abs % 4096 != 0) == Where(xs, IsMisaligned);
    assert (set i | 0 <= i < |xs| && xs[i].kind == Routed && xs[i].perExpert % 4096 == 0 && xs[i].abs % 4096 == 0)
        == Where(xs, IsAllAligned);
    assert (set i | 0 <= i < |xs| && xs[i].kind == Routed && xs[i].perExpert % 4096 == 0 && xs[i].abs % 4096 != 0)
        == Where(xs, IsUniform);
    assert (set i | 0 <= i < |xs| && xs[i].kind == Routed && xs[i].perExpert % 4096 != 0) == Where(xs, IsScattered);
  }

  ghost function Where(xs: seq<Info>, p: Info -> bool): set<int> {
    set i | 0 <= i < |xs| && p(xs[i])
  }

  lemma {:induction false} CountIs(xs: seq<Info>, p: Info -> bool)
    ensures Count(xs, p) == |Where(xs, p)|
  {
    if xs != [] {
      var n := |xs| - 1;
      CountIs(xs[..n], p);
      assert Where(xs, p) == Where(xs[..n], p) + (if p(xs[n]) then {n} else {});
    }
  }

  // ---------------------------------------------------------------- geometry

  /** Span `i` ends where the next one starts. */
  ghost predicate Meets(xs: seq<Info>, i: nat)
    requires i + 1 < |xs|
  {
    xs[i].abs + xs[i].bytes == xs[i + 1].abs && xs[i].bytes > 0
  }

  /** Consecutive spans meet exactly, the first starts in the data section and the last ends the file. */
  ghost predicate Tiles(xs: seq<Info>, dataOffset: nat, fileSize: nat) {
    xs != [] ==>
      && dataOffset <= xs[0].abs
      && (forall i :: 0 <= i < |xs| - 1 ==> Meets(xs, i))
      && xs[|xs| - 1].abs + xs[|xs| - 1].bytes == fileSize
  }

  /** Inputs for which nothing but the tensor offsets can wrap. */
  ghost predicate InRange(sorted: seq<Tensor>, dataOffset: nat, fileSize: nat) {
    Ascending(sorted) && dataOffset < U64 && fileSize < U64 && forall i :: 0 <= i < |sorted| ==> sorted[i].relOffset < U64
  }

  /** The start check also rejects every offset that wrapped. */
  lemma {:induction false} NoWrap(t: Tensor, dataOffset: nat)
    requires t.relOffset < U64 && dataOffset < U64 && Wrap(dataOffset + t.relOffset) >= dataOffset
    ensures Wrap(dataOffset + t.relOffset) == dataOffset + t.relOffset
  {
  }

  /** Two neighbours that pass the checks meet exactly, and the second starts inside the file. */
  lemma {:induction false} NeighboursMeet(a: Tensor, b: Tensor, dataOffset: nat, fileSize: nat, bytes: nat)
    requires a.relOffset <= b.relOffset < U64 && dataOffset < U64 && fileSize < U64
    requires Wrap(dataOffset + a.relOffset) >= dataOffset && Wrap(dataOffset + b.relOffset) >= dataOffset
    requires bytes == Wrap(b.relOffset - a.relOffset) && Wrap(Wrap(dataOffset + a.relOffset) + bytes) <= fileSize
    ensures Wrap(dataOffset + a.relOffset) + bytes == Wrap(dataOffset + b.relOffset) <= fileSize
  {
    NoWrap(a, dataOffset);
    NoWrap(b, dataOffset);
  }

  lemma {:induction false} SpanMeetsNext(sorted: seq<Tensor>, dataOffset: nat, fileSize: nat, nExperts: int, kind: Classifier, i: nat)
    requires InRange(sorted, dataOffset, fileSize) && i + 1 < |sorted|
    requires var xs := Infos(sorted, |sorted|, dataOffset, fileSize, nExperts, kind);
      SpanOk(xs[i], dataOffset, fileSize) && SpanOk(xs[i + 1], dataOffset, fileSize) && xs[i].abs != xs[i + 1].abs
    ensures var xs := Infos(sorted, |sorted|, dataOffset, fileSize, nExperts, kind);
      xs[i].abs + xs[i].bytes == xs[i + 1].abs <= fileSize && xs[i].bytes > 0
  {
    assert NotAfter(sorted, i, i + 1);
    NeighboursMeet(sorted[i], sorted[i + 1], dataOffset, fileSize, Wrap(sorted[i + 1].relOffset - sorted[i].relOffset));
  }

  /** The last span runs to the end of the file exactly if the last tensor starts inside it. */
  lemma {:induction false} LastSpan(abs: nat, fileSize: nat)
    requires abs < U64 && fileSize < U64
    ensures abs + Wrap(fileSize - abs) == fileSize <==> abs <= fileSize
  {
  }

  /** An accepted manifest tiles the file from its first tensor on, for every file with two or more
      tensors. With a single tensor the bounds check is satisfied by wrap-around whatever its offset
      is, so there the manifest tiles exactly if that tensor starts inside the file. */
  lemma {:induction false} AcceptedTilesIff(sorted: seq<Tensor>, dataOffset: nat, fileSize: nat, hasExperts: bool, nExperts: int, kind: Classifier)
    requires InRange(sorted, dataOffset, fileSize)
    requires var xs := Infos(sorted, |sorted|, dataOffset, fileSize, nExperts, kind);
      Accepts(xs, dataOffset, fileSize, hasExperts, nExperts)
    ensures var xs := Infos(sorted, |sorted|, dataOffset, fileSize, nExperts, kind);
      Tiles(xs, dataOffset, fileSize) <==> !(|sorted| == 1 && xs[0].abs > fileSize)
  {
    var n := |sorted|;
    var xs := Infos(sorted, n, dataOffset, fileSize, nExperts, kind);
    forall i | 0 <= i < |xs| - 1 ensures Meets(xs, i) {
      assert SpanOk(xs[i], dataOffset, fileSize) && SpanOk(xs[i + 1], dataOffset, fileSize) && Differ(xs, i, i + 1);
      SpanMeetsNext(sorted, dataOffset, fileSize, nExperts, kind, i);
    }
    if n > 0 {
      assert SpanOk(xs[0], dataOffset, fileSize);
      LastSpan(xs[n - 1].abs, fileSize);
      if n > 1 {
        assert SpanOk(xs[n - 2], dataOffset, fileSize) && SpanOk(xs[n - 1], dataOffset, fileSize) && Differ(xs, n - 2, n - 1);
        SpanMeetsNext(sorted, dataOffset, fileSize, nExperts, kind, n - 2);
      }
    }
  }

  /** The hole is real: a single tensor is accepted at any offset of the data section. */
  lemma {:induction false} SingleTensorAlwaysInBounds(t: Tensor, dataOffset: nat, fileSize: nat, kind: Classifier)
    requires dataOffset + t.relOffset < U64 && fileSize < U64 && kind(t.name) != Routed
    ensures Accepts(Infos([t], 1, dataOffset, fileSize, 0, kind), dataOffset, fileSize, false, 0)
  {
  }

  /** In a tiling, spans lie in the data section, end inside the file and do not overlap. */
  lemma {:induction false} TilesDisjoint(xs: seq<Info>, dataOffset: nat, fileSize: nat, i: nat, j: nat)
    requires Tiles(xs, dataOffset, fileSize) && i <= j < |xs|
    ensures dataOffset <= xs[i].abs <= xs[j].abs && xs[j].abs + xs[j].bytes <= fileSize
    ensures i < j ==> xs[i].abs + xs[i].bytes <= xs[j].abs
    decreases |xs| - i, j - i
  {
    TilesAscending(xs, dataOffset, fileSize, 0, i);
    TilesAscending(xs, dataOffset, fileSize, j, |xs| - 1);
    if i < j {
      assert Meets(xs, i);
      TilesAscending(xs, dataOffset, fileSize, i + 1, j);
    }
  }

  lemma {:induction false} TilesAscending(xs: seq<Info>, dataOffset: nat, fileSize: nat, i: nat, j: nat)
    requires Tiles(xs, dataOffset, fileSize) && i <= j < |xs|
    ensures xs[i].abs <= xs[j].abs && xs[i].abs + xs[i].bytes <= xs[j].abs + xs[j].bytes
    decreases j - i
  {
    if i < j {
      assert Meets(xs, i);
      TilesAscending(xs, dataOffset, fileSize, i + 1, j);
    }
  }

  lemma {:induction false} CountAll(xs: seq<Info>, p: Info -> bool, q: Info -> bool, i: nat)
    requires (forall x :: x in xs && p(x) ==> q(x)) && i < |xs|
    ensures Count(xs, p) <= Count(xs, q)
    ensures Count(xs, p) == Count(xs, q) && q(xs[i]) ==> p(xs[i])
  {
    var n := |xs| - 1;
    if n > 0 {
      CountAll(xs[..n], p, q, if i < n then i else 0);
    }
    assert xs[n] in xs;
  }

  /** When every routed tensor is counted as aligned, each expert slice of each routed tensor starts
      and ends on page borders inside the file, so a direct read of it cannot be rejected. */
  lemma {:induction false} SliceReadsLegal(m: Manifest, i: nat, e: nat)
    requires Tiles(m.tensors, m.dataOffset, m.fileSize) && m.counts == CountsOf(m.tensors)
    requires m.counts.allAligned == m.counts.routed
    requires i < |m.tensors| && m.tensors[i].kind == Routed && m.nExperts > 0 && e < m.nExperts
    requires m.tensors[i].perExpert == m.tensors[i].bytes / m.nExperts
    ensures var x := m.tensors[i]; var off := x.abs + e * x.perExpert;
      Aligned(off) && Aligned(x.perExpert) && m.dataOffset <= off && off + x.perExpert <= m.fileSize
  {
    var x := m.tensors[i];
    CountAll(m.tensors, IsAllAligned, IsRouted, i);
    TilesDisjoint(m.tensors, m.dataOffset, m.fileSize, i, i);
    AlignedOffset(x.abs, e, x.perExpert);
    MulStep(e, m.nExperts, x.perExpert);
    DivBelow(x.bytes, m.nExperts);
  }

  lemma {:induction false} AlignedOffset(a: nat, e: nat, p: nat)
    requires Aligned(a) && Aligned(p)
    ensures e * p >= 0 && Aligned(a + e * p)
  {
    AlignedMultiple(e, p);
    AlignedSum(a, e * p);
  }

  lemma {:induction false} DivBelow(b: nat, n: nat)
    requires n > 0
    ensures n * (b / n) <= b
  {
  }
}
