/** Two files of a model without experts: one declares no tensors and ends inside its last value, yet it is
    opened and registered; the other has one empty tensor, can be prepared once and not twice. */
module DenseFiles {
  import opened Bytes
  import opened GgufFormat
  import opened GgufRoundTrip
  import opened GgufReader
  import opened MetaPatch
  import opened Registry
  import opened Repack
  import opened Prepare
  import opened PreparedFile
  import opened PreparedAgain
  import opened PreparedSlices
  import opened ShiftedFile

  /** The two keys that declare an architecture without experts. */
  ghost predicate DeclaresDense(kvs: seq<Kv>, arch: seq<byte>) {
    && |kvs| == 2 && kvs[0] == Kv(Ascii("general.architecture"), STRING_TYPE, Text(arch))
    && kvs[1] == CountKv(arch + Ascii(".block_count"), 1)
  }

  lemma {:induction false} DenseTables(kvs: seq<Kv>, arch: seq<byte>) returns (tab: Tables)
    requires DeclaresDense(kvs, arch)
    ensures tab == TablesOf(kvs, 24) && tab.i == map[] && tab.f == map[]
    ensures tab.s == map[Name(Ascii("general.architecture")) := arch]
    ensures tab.u == map[Name(arch + Ascii(".block_count")) := 1]
  {
    var a := kvs[..1];
    assert a[..0] == [];
    var p := LastRecorded(a, 24, NO_TABLES);
    p := LastRecorded(kvs, 24, TablesOf(a, 24));
    tab := TablesOf(kvs, 24);
    Widths();
    FromToLE(1, 4);
  }

  lemma {:induction false} CountKeyIsNew(arch: seq<byte>)
    ensures arch + Ascii(".expert_count") != arch + Ascii(".block_count")
    ensures arch + Ascii(".expert_count") != Ascii("general.architecture")
  {
    var key, blocks, name := arch + Ascii(".expert_count"), arch + Ascii(".block_count"), Ascii("general.architecture");
    assert |key| != |blocks|;
    assert key[|key| - 1] == Ascii(".expert_count")[12] == 't' as int;
    assert name[|name| - 1] == 'e' as int;
  }

  lemma {:induction false} DenseConfig(kvs: seq<Kv>, arch: seq<byte>)
    requires DeclaresDense(kvs, arch)
    ensures ExpertConfig(TablesOf(kvs, 24)) == Some((false, 0)) && AlignmentOf(TablesOf(kvs, 24)) == 32 && PowerOfTwo(32)
  {
    var tab := DenseTables(kvs, arch);
    CountKeyIsNew(arch);
    KeysDiffer(arch);
    DefaultIsPower(32);
  }

  lemma {:induction false} DenseUnaligned(kvs: seq<Kv>, arch: seq<byte>)
    requires DeclaresDense(kvs, arch)
    ensures AlignIndex(kvs) == -1
  {
    KeysDiffer(arch);
    var a := kvs[..1];
    assert a[..0] == [];
    assert AlignIndex(a) == -1;
  }

  function DenseKvs(arch: seq<byte>): seq<Kv> {
    [Kv(Ascii("general.architecture"), STRING_TYPE, Text(arch)), CountKv(arch + Ascii(".block_count"), 1)]
  }

  lemma {:induction false} DenseKvsOk(arch: seq<byte>)
    requires |arch| <= 10
    ensures DeclaresDense(DenseKvs(arch), arch) && AllOk(KvOk, DenseKvs(arch)) && |EncKvs(DenseKvs(arch))| <= 200
  {
    var kvs := DenseKvs(arch);
    Widths();
    AllOkIff(KvOk, kvs);
    SmallList(EncKv, kvs, 100);
  }

  // ---------------------------------------------------------------- a value that ends behind the file

  /** The last pair: an array that announces one byte. */
  function Announced(key: seq<byte>): seq<byte> {
    EncStr(key) + ToLE(ARRAY_TYPE, 4) + (ToLE(0, 4) + ToLE(1, 8))
  }

  function EmptyArray(key: seq<byte>): Kv {
    Kv(key, ARRAY_TYPE, Array(0, []))
  }

  /** No tensors, the pairs `kvs`, and an announced byte that is not there. */
  function Cut(kvs: seq<Kv>, key: seq<byte>): seq<byte> {
    EncHeader(Meta(3, kvs + [EmptyArray(key)], [])) + EncKvs(kvs) + Announced(key)
  }

  lemma {:induction false} AnnouncedRunsOut(f: seq<byte>, pos: nat, key: seq<byte>)
    requires |key| <= MAX_NAME && At(f, pos, Announced(key)) && |f| == pos + |Announced(key)|
    ensures RunOut(f, pos) == Some(|f| + 1)
  {
    var k := pos + |EncStr(key)|;
    AnnouncedParts(f, pos, key, EncStr(key), ToLE(ARRAY_TYPE, 4), ToLE(0, 4), ToLE(1, 8), k, k + 4, k + 8);
  }

  lemma {:induction false} AnnouncedRead(f: seq<byte>, pos: nat, key: seq<byte>, k: nat, p: nat, q: nat)
    requires |key| <= MAX_NAME && At(f, pos, EncStr(key)) && k == pos + |EncStr(key)| && p == k + 4 && q == p + 4 && |f| == q + 8
    requires At(f, k, ToLE(ARRAY_TYPE, 4)) && At(f, p, ToLE(0, 4)) && At(f, q, ToLE(1, 8))
    ensures RunOut(f, pos) == Some(|f| + 1)
  {
    Widths();
    assert ParseStr(f, pos) == Some((key, k)) by { StrComplete(f, pos, key); }
    assert ParseNum(f, k, 4) == Some(ARRAY_TYPE) by { NumComplete(f, k, ARRAY_TYPE, 4); }
    assert ParseNum(f, p, 4) == Some(0) by { NumComplete(f, p, 0, 4); }
    assert ParseNum(f, q, 8) == Some(1) by { NumComplete(f, q, 1, 8); }
    AnnouncedSkipped(f, pos, key, k, p, q);
  }

  lemma {:induction false} AnnouncedSkipped(f: seq<byte>, pos: nat, key: seq<byte>, k: nat, p: nat, q: nat)
    requires ParseStr(f, pos) == Some((key, k)) && ParseNum(f, k, 4) == Some(ARRAY_TYPE) && p == k + 4 && q == p + 4
    requires ParseNum(f, p, 4) == Some(0) && ParseNum(f, q, 8) == Some(1) && |f| == q + 8
    ensures RunOut(f, pos) == Some(|f| + 1)
  {
    OneByteMore(f, p, q);
  }

  lemma {:induction false} AnnouncedParts(f: seq<byte>, pos: nat, key: seq<byte>, a: seq<byte>, b: seq<byte>, c: seq<byte>, d: seq<byte>,
                                          k: nat, p: nat, q: nat)
    requires |key| <= MAX_NAME && k == pos + |a| && p == k + 4 && q == p + 4 && |f| == pos + |Announced(key)|
    requires a == EncStr(key) && b == ToLE(ARRAY_TYPE, 4) && c == ToLE(0, 4) && d == ToLE(1, 8) && At(f, pos, Announced(key))
    ensures RunOut(f, pos) == Some(|f| + 1)
  {
    var s := Announced(key);
    assert s == a + b + (c + d) && |s| == |a| + 16;
    AtConcat(f, pos, a + b, c + d);
    AtConcat(f, pos, a, b);
    AtConcat(f, p, c, d);
    AnnouncedRead(f, pos, key, k, p, q);
  }

  lemma {:induction false} OneByteMore(f: seq<byte>, pos: nat, q: nat)
    requires q == pos + 4 && ParseNum(f, pos, 4) == Some(0) && ParseNum(f, q, 8) == Some(1)
    ensures SkipEnd(f, pos, ARRAY_TYPE) == Some(q + 9)
  {
    assert SkipEnd(f, q + 8, 0) == Some(q + 9);
    assert SkipEnds(f, q + 9, 0, 0) == Some(q + 9);
  }

  /** Every such file is opened outside its end, with the pairs that precede the cut. */
  lemma {:induction false} CutOpens(kvs: seq<Kv>, key: seq<byte>)
    requires AllOk(KvOk, kvs) && |kvs| + 1 < Pow256(8) && |key| <= MAX_NAME
    ensures OutsideKvs(Cut(kvs, key)) == Some((kvs, |Cut(kvs, key)| + 1))
  {
    var m := Meta(3, kvs + [EmptyArray(key)], []);
    assert MetaOk(m) by { CutMetaOk(kvs, key); }
    CutAssembled(Cut(kvs, key), m, kvs, key, EncHeader(m), EncKvs(kvs), Announced(key));
  }

  lemma {:induction false} CutAssembled(f: seq<byte>, m: Meta, kvs: seq<Kv>, key: seq<byte>, head: seq<byte>, middle: seq<byte>,
                                        tail: seq<byte>)
    requires AllOk(KvOk, kvs) && |key| <= MAX_NAME && MetaOk(m) && m.version == 3 && |m.kvs| == |kvs| + 1 && m.tensors == []
    requires head == EncHeader(m) && middle == EncKvs(kvs) && tail == Announced(key) && f == head + middle + tail
    ensures OutsideKvs(f) == Some((kvs, |f| + 1))
  {
    CutHeader(f, m, head, middle, tail);
    CutBody(f, kvs, key, head, tail, |m.kvs|);
  }

  lemma {:induction false} CutHeader(f: seq<byte>, m: Meta, head: seq<byte>, middle: seq<byte>, tail: seq<byte>)
    requires f == head + middle + tail && head == EncHeader(m) && MetaOk(m)
    ensures |head| == 24 && ParseNum(f, 0, 4) == Some(MAGIC) && ParseNum(f, 4, 4) == Some(m.version)
    ensures ParseNum(f, 8, 8) == Some(|m.tensors|) && ParseNum(f, 16, 8) == Some(|m.kvs|)
  {
    HeaderParts(f, m);
    ThreeParts(f, head, middle, tail, 24 + |middle|);
    HeaderComplete(f, m);
  }

  lemma {:induction false} CutBody(f: seq<byte>, kvs: seq<Kv>, key: seq<byte>, head: seq<byte>, tail: seq<byte>, count: nat)
    requires AllOk(KvOk, kvs) && |key| <= MAX_NAME && tail == Announced(key) && |head| == 24 && f == head + EncKvs(kvs) + tail
    requires ParseNum(f, 0, 4) == Some(MAGIC) && ParseNum(f, 4, 4) == Some(3) && ParseNum(f, 8, 8) == Some(0)
    requires ParseNum(f, 16, 8) == Some(count) && count == |kvs| + 1
    ensures OutsideKvs(f) == Some((kvs, |f| + 1))
  {
    var middle := EncKvs(kvs);
    var end := 24 + |middle|;
    ThreeParts(f, head, middle, tail, end);
    assert ParseList(ParseKv, f, 24, |kvs|) == Some((kvs, end)) by { KvsAt(f, 24, kvs, end); }
    assert RunOut(f, end) == Some(|f| + 1) by { AnnouncedRunsOut(f, end, key); }
    CutFound(f, kvs, end, count);
  }

  lemma {:induction false} ThreeParts(f: seq<byte>, head: seq<byte>, middle: seq<byte>, tail: seq<byte>, end: nat)
    requires f == head + middle + tail && |head| == 24 && end == 24 + |middle|
    ensures At(f, 0, head) && At(f, 24, middle) && At(f, end, tail) && |f| == end + |tail|
  {
    WholeAt(f);
    AtConcat(f, 0, head + middle, tail);
    AtConcat(f, 0, head, middle);
  }

  lemma {:induction false} WholeAt(f: seq<byte>)
    ensures At(f, 0, f)
  {
    AtSlice(f, 0, f);
  }

  lemma {:induction false} CutMetaOk(kvs: seq<Kv>, key: seq<byte>)
    requires AllOk(KvOk, kvs) && |kvs| + 1 < Pow256(8) && |key| <= MAX_NAME
    ensures MetaOk(Meta(3, kvs + [EmptyArray(key)], []))
  {
    Widths();
    AllOkIff(KvOk, kvs);
    AllOkIff(KvOk, kvs + [EmptyArray(key)]);
  }

  lemma {:induction false} CutFound(f: seq<byte>, kvs: seq<Kv>, end: nat, count: nat)
    requires ParseNum(f, 0, 4) == Some(MAGIC) && ParseNum(f, 4, 4) == Some(3) && ParseNum(f, 8, 8) == Some(0)
    requires ParseNum(f, 16, 8) == Some(count) && count == |kvs| + 1
    requires ParseList(ParseKv, f, 24, |kvs|) == Some((kvs, end)) && RunOut(f, end) == Some(|f| + 1)
    ensures OutsideKvs(f) == Some((kvs, |f| + 1))
  {
  }

  lemma {:induction false} CutRegistered(f: seq<byte>, kind: Classifier, kvs: seq<Kv>, arch: seq<byte>, end: nat)
    requires DeclaresDense(kvs, arch) && OutsideKvs(f) == Some((kvs, end))
    ensures Aligns(OutsideKvs(f)) && ParseMeta(f).None?
    ensures var m := OutsideManifest(f, kind); m.Some? && m.value.tensors == [] && m.value.dataOffset > |f|
  {
    DenseConfig(kvs, arch);
    OutsideIff(f, kind);
    OutsideNotParsed(f);
  }

  /** A run into it: the file is opened and registered although its metadata does not parse. */
  method OpenCut(kind: Classifier) returns (ok: bool, built: bool, m: Manifest, ghost file: seq<byte>)
    ensures ParseMeta(file).None? && ok && built && m.tensors == [] && m.dataOffset > |file|
  {
    var arch, key := Ascii("m"), Ascii("a");
    var kvs := DenseKvs(arch);
    var f := Cut(kvs, key);
    assert OutsideKvs(f) == Some((kvs, |f| + 1)) && DeclaresDense(kvs, arch) by {
      Widths();
      DenseKvsOk(arch);
      CutOpens(kvs, key);
    }
    CutRegistered(f, kind, kvs, arch, |f| + 1);
    ok, built, m := OpenAndBuild(f, kind);
    file := f;
  }

  method OpenAndBuild(f: seq<byte>, kind: Classifier) returns (ok: bool, built: bool, m: Manifest)
    requires Aligns(OutsideKvs(f)) && ParseMeta(f).None? && OutsideManifest(f, kind).Some?
    ensures ok && built && OutsideManifest(f, kind) == Some(m)
  {
    var r := new Reader(f);
    ok := r.Open();
    built, m := Build(f, kind);
  }

  // ---------------------------------------------------------------- a lone empty tensor

  lemma {:induction false} LoneBuilt(meta: Meta, end: nat, size: nat, kind: Classifier, arch: seq<byte>, name: seq<byte>)
    returns (m: Manifest)
    requires DeclaresDense(meta.kvs, arch) && meta.tensors == [Tensor(name, [], 0, 0)] && kind(name) == Other
    requires end < 0x10_0000 && size == AlignUp(end, 32)
    ensures BuildOf(meta, end, size, kind) == Some(m) && m.dataOffset == size && end <= size
    ensures |m.tensors| == 1 && m.tensors[0].bytes == 0 && m.tensors[0].kind == Other && Tiles(m.tensors, size, size)
  {
    DenseConfig(meta.kvs, arch);
    var ts := meta.tensors;
    assert Ascending(ts);
    SortIdentity(ts);
    var xs := Infos(ts, 1, size, size, 0, kind);
    assert size < 0x20_0000 && end <= size;
    assert xs[0] == Info(ts[0], Other, size, 0, 0);
    m := BuildOf(meta, end, size, kind).value;
  }

  lemma {:induction false} LoneMetaOk(meta: Meta, arch: seq<byte>, name: seq<byte>)
    requires |arch| <= 10 && |name| <= 10 && meta == Meta(3, DenseKvs(arch), [Tensor(name, [], 0, 0)])
    ensures MetaOk(meta) && DeclaresDense(meta.kvs, arch) && 0 < |EncMeta(meta)| < 1000
  {
    Widths();
    DenseKvsOk(arch);
    AllOkIff(TensorOk, meta.tensors);
    AllOkIff(U64Ok, []);
    MetaParts([], meta);
    SmallList(EncTensor, meta.tensors, 100);
  }

  /** It is registered and ready, and the page padding leaves a gap before its only tensor. */
  lemma {:induction false} LoneReady(meta: Meta, file: seq<byte>, kind: Classifier, end: nat, arch: seq<byte>, name: seq<byte>)
    returns (j: Job)
    requires MetaOk(meta) && DeclaresDense(meta.kvs, arch) && meta.tensors == [Tensor(name, [], 0, 0)] && kind(name) == Other
    requires end == |EncMeta(meta)| < 1000 && EncMeta(meta) <= file && |file| == AlignUp(end, 32)
    ensures JobOf(file, kind) == Some(j) && Ready(file, kind, j) && Matching(j) && j.meta == meta
    ensures |j.m.tensors| == 1 && j.m.tensors[0].bytes == 0
  {
    var m := LoneBuilt(meta, end, |file|, kind, arch, name);
    j := Job(meta, end, m);
    assert ParseMeta(file) == Some((meta, end)) by { HeadParses(file, meta); }
    assert PowerOfTwo(AlignmentOf(TablesOf(meta.kvs, 24))) by { DenseConfig(meta.kvs, arch); }
    JobFrom(file, kind, meta, end, m);
    assert Patchable(meta.kvs) by { DenseUnaligned(meta.kvs, arch); }
    assert Ascending(meta.tensors);
  }

  lemma {:induction false} LoneGap(file: seq<byte>, kind: Classifier, j: Job)
    requires Ready(file, kind, j) && Matching(j) && |j.m.tensors| == 1 && j.m.tensors[0].bytes == 0
    requires |EncMeta(j.meta)| < 1000 && |file| <= 4096
    ensures !EndsInside(j) && |file| <= NewSize(j) == 4096
  {
    var end, base, spans := HeadLen(j), Base(j), Spans(j.m.tensors);
    assert 0 < end < 4096 by { SmallMeta(j, NewMeta(j), Rels(spans)); }
    OnePage(end);
    LoneEnds(file, j, end);
    assert base == Padded(end) && base + Rel(spans, 1) == NewSize(j) by { BasePlain(file, j); }
    NothingLaid(spans, 0);
  }

  lemma {:induction false} LoneEnds(file: seq<byte>, j: Job, end: nat)
    requires Laid(file, j) && Matching(j) && |j.m.tensors| == 1 && j.m.tensors[0].bytes == 0
    requires end == HeadLen(j) && !Aligned(end)
    ensures !EndsInside(j)
  {
    EndsInsideIff(file, j);
  }

  lemma {:induction false} SmallMeta(j: Job, m: Meta, rel: seq<nat>)
    requires |rel| == |j.meta.tensors| && m == Rewritten(j.meta, rel) && MetaOk(j.meta) && Patchable(j.meta.kvs)
    requires |EncMeta(j.meta)| < 1000
    ensures 0 < |EncMeta(m)| < 4096
  {
    RewrittenSize(j.meta, rel);
    MetaParts([], m);
  }

  lemma {:induction false} OnePage(v: nat)
    requires 0 < v < 4096
    ensures Padded(v) == 4096 && !Aligned(v)
  {
  }

  /** Preparing it succeeds, and preparing the result fails while copying. */
  lemma {:induction false} LoneOutcomes(file: seq<byte>, kind: Classifier, j: Job)
    requires JobOf(file, kind) == Some(j) && Ready(file, kind, j) && Matching(j) && |j.m.tensors| == 1
    requires !EndsInside(j) && |file| <= NewSize(j) == 4096
    ensures Readable(file, Pieces(j))
    ensures Expected(file, kind, 4096, true) == Prepared
    ensures Expected(Output(file, j), kind, 4096, true) == CopyFailed
  {
    assert Readable(file, Pieces(j)) by { PiecesChain(file, j); }
    assert Valid(Output(file, j), kind, j.m) by { LoneValid(file, kind, j); }
    FirstOutcome(file, kind, 4096, j);
    LoneFails(file, kind, 4096, j);
  }

  lemma {:induction false} FirstOutcome(file: seq<byte>, kind: Classifier, available: nat, j: Job)
    requires JobOf(file, kind) == Some(j) && Matching(j) && Ascending(j.meta.tensors) && Readable(file, Pieces(j))
    requires |file| <= NewSize(j) <= available && Valid(Output(file, j), kind, j.m)
    ensures Expected(file, kind, available, true) == Prepared
  {
  }

  lemma {:induction false} LoneValid(file: seq<byte>, kind: Classifier, j: Job)
    requires Ready(file, kind, j) && Matching(j) && |j.m.tensors| == 1 && !EndsInside(j) && Readable(file, Pieces(j))
    ensures Valid(Output(file, j), kind, j.m)
  {
    var ys := NewInfos(file, kind, j);
    assert ys[0].kind != Routed by { LoneInfo(file, kind, j); }
    assert PageStrides(ys);
    VerdictIff(file, kind, j);
  }

  /** Such a file exists: the one exception to preparing twice. */
  lemma {:induction false} LoneExists() returns (file: seq<byte>, kind: Classifier, j: Job)
    ensures JobOf(file, kind) == Some(j) && Matching(j) && Readable(file, Pieces(j))
    ensures Expected(file, kind, 4096, true) == Prepared
    ensures Expected(Output(file, j), kind, 4096, true) == CopyFailed
  {
    var arch, name := Ascii("m"), Ascii("w");
    var meta := Meta(3, DenseKvs(arch), [Tensor(name, [], 0, 0)]);
    LoneMetaOk(meta, arch, name);
    kind := _ => Other;
    var head, end := EncMeta(meta), |EncMeta(meta)|;
    AlignUpAbove(end, 32);
    file := head + Zeros(AlignUp(end, 32) - end);
    j := LoneReady(meta, file, kind, end, arch, name);
    LoneGap(file, kind, j);
    LoneOutcomes(file, kind, j);
  }
}
