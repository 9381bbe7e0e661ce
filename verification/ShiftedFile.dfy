/** A model file with two experts of 4080 bytes each: it is accepted, prepared and validated, and its
    second expert ends up 16 bytes late. */
module ShiftedFile {
  import opened Bytes
  import opened GgufFormat
  import opened GgufRoundTrip
  import opened GgufReader
  import opened MetaPatch
  import opened Registry
  import opened Repack
  import opened Prepare
  import opened PreparedFile
  import opened PreparedSlices

  function CountKv(key: seq<byte>, v: nat): Kv {
    Kv(key, UINT32_TYPE, Scalar(ToLE(v, 4)))
  }

  /** The four keys that declare `experts` experts of an architecture. */
  ghost predicate Declares(kvs: seq<Kv>, arch: seq<byte>, experts: nat) {
    && |kvs| == 4 && kvs[0] == Kv(Ascii("general.architecture"), STRING_TYPE, Text(arch))
    && kvs[1] == CountKv(arch + Ascii(".block_count"), 1)
    && kvs[2] == CountKv(arch + Ascii(".expert_count"), experts)
    && kvs[3] == CountKv(arch + Ascii(".expert_used_count"), 1)
  }

  lemma {:induction false} KeysDiffer(arch: seq<byte>)
    ensures arch + Ascii(".expert_count") != arch + Ascii(".expert_used_count")
    ensures arch + Ascii(".block_count") != ALIGNMENT_KEY.text && arch + Ascii(".expert_count") != ALIGNMENT_KEY.text
    ensures arch + Ascii(".expert_used_count") != ALIGNMENT_KEY.text
  {
    OtherKey(arch, Ascii(".block_count"));
    OtherKey(arch, Ascii(".expert_count"));
    OtherKey(arch, Ascii(".expert_used_count"));
    assert |arch + Ascii(".expert_count")| != |arch + Ascii(".expert_used_count")|;
  }

  /** What the reader's tables hold after those keys. */
  lemma {:induction false} DeclaredTables(kvs: seq<Kv>, arch: seq<byte>, experts: nat) returns (tab: Tables)
    requires Declares(kvs, arch, experts) && 0 < experts < 0x8000_0000
    ensures tab == TablesOf(kvs, 24) && tab.s == map[Name(Ascii("general.architecture")) := arch]
    ensures tab.u == map[][Name(kvs[1].key) := 1][Name(kvs[2].key) := experts][Name(kvs[3].key) := 1]
  {
    var a, b, c := kvs[..1], kvs[..2], kvs[..3];
    assert a[..0] == [] && b[..1] == a && c[..2] == b && kvs[..3] == c;
    var t0 := TablesOf([], 24);
    var p := LastRecorded(a, 24, t0);
    var t1 := TablesOf(a, 24);
    p := LastRecorded(b, 24, t1);
    var t2 := TablesOf(b, 24);
    p := LastRecorded(c, 24, t2);
    var t3 := TablesOf(c, 24);
    p := LastRecorded(kvs, 24, t3);
    tab := TablesOf(kvs, 24);
    Widths();
    FromToLE(1, 4);
    FromToLE(experts, 4);
  }

  lemma {:induction false} Declared(kvs: seq<Kv>, arch: seq<byte>, experts: nat)
    requires Declares(kvs, arch, experts) && 0 < experts < 0x8000_0000
    ensures ExpertConfig(TablesOf(kvs, 24)) == Some((true, experts)) && AlignmentOf(TablesOf(kvs, 24)) == 32
  {
    var tab := DeclaredTables(kvs, arch, experts);
    var blocks, count, used := Name(kvs[1].key), Name(kvs[2].key), Name(kvs[3].key);
    KeysDiffer(arch);
    ConfigFrom(tab, arch, blocks, count, used, experts);
    DefaultAlignment(tab, blocks, count, used, experts);
  }

  lemma {:induction false} DefaultAlignment(tab: Tables, blocks: Name, count: Name, used: Name, experts: nat)
    requires tab.u == map[][blocks := 1][count := experts][used := 1]
    requires blocks != ALIGNMENT_KEY && count != ALIGNMENT_KEY && used != ALIGNMENT_KEY
    ensures AlignmentOf(tab) == 32
  {
  }

  lemma {:induction false} ConfigFrom(tab: Tables, arch: seq<byte>, blocks: Name, count: Name, used: Name, experts: nat)
    requires tab.s == map[Name(Ascii("general.architecture")) := arch] && 0 < experts < 0x8000_0000 && count != used
    requires blocks == Name(arch + Ascii(".block_count")) && count == Name(arch + Ascii(".expert_count"))
    requires used == Name(arch + Ascii(".expert_used_count"))
    requires tab.u == map[][blocks := 1][count := experts][used := 1]
    ensures ExpertConfig(tab) == Some((true, experts))
  {
  }

  lemma {:induction false} NoAlignment(kvs: seq<Kv>, arch: seq<byte>, experts: nat)
    requires Declares(kvs, arch, experts)
    ensures AlignIndex(kvs) == -1
  {
    KeysDiffer(arch);
    var a, b, c := kvs[..1], kvs[..2], kvs[..3];
    assert a[..0] == [] && b[..1] == a && c[..2] == b && kvs[..3] == c;
    assert AlignIndex(a) == -1;
    assert AlignIndex(b) == -1;
    assert AlignIndex(c) == -1;
  }

  /** A routed tensor of two slices and a small one behind it. */
  function Pair(routed: seq<byte>, other: seq<byte>): seq<Tensor> {
    [Tensor(routed, [2], 0, 0), Tensor(other, [], 0, 8160)]
  }

  lemma {:induction false} PairBuilt(meta: Meta, end: nat, size: nat, kind: Classifier, arch: seq<byte>, routed: seq<byte>, other: seq<byte>)
    returns (m: Manifest)
    requires Declares(meta.kvs, arch, 2) && meta.tensors == Pair(routed, other)
    requires kind(routed) == Routed && kind(other) == Other
    requires end < 0x10_0000 && size == AlignUp(end, 32) + 8192
    ensures BuildOf(meta, end, size, kind) == Some(m) && end <= m.dataOffset && m.dataOffset == AlignUp(end, 32) && m.nExperts == 2
    ensures |m.tensors| == 2 && m.tensors[0].bytes == 8160 && m.tensors[0].kind == Routed
    ensures m.tensors[1].bytes == 32 && m.tensors[1].kind == Other
    ensures Tiles(m.tensors, m.dataOffset, size)
  {
    Declared(meta.kvs, arch, 2);
    var ts, d := meta.tensors, AlignUp(end, 32);
    assert NotAfter(ts, 0, 1);
    SortIdentity(ts);
    var xs := Infos(ts, 2, d, size, 2, kind);
    assert d < 0x20_0000 && end <= d;
    assert xs[0] == Info(ts[0], Routed, d, 8160, 4080);
    assert xs[1] == Info(ts[1], Other, d + 8160, 32, 0);
    assert ExpertAxis(ts[0].dims, 2, 0) == 0;
    assert Differ(xs, 0, 1);
    CountRouted(xs);
    assert Meets(xs, 0);
    m := BuildOf(meta, end, size, kind).value;
  }

  lemma {:induction false} CountRouted(xs: seq<Info>)
    requires |xs| == 2 && IsRouted(xs[0])
    ensures Count(xs, IsRouted) > 0
  {
    assert xs[..1][0] == xs[0];
  }

  function Sample(): Meta {
    var arch := Ascii("m");
    Meta(3,
      [Kv(Ascii("general.architecture"), STRING_TYPE, Text(arch)), CountKv(arch + Ascii(".block_count"), 1),
       CountKv(arch + Ascii(".expert_count"), 2), CountKv(arch + Ascii(".expert_used_count"), 1)],
      Pair(Ascii("w"), Ascii("v")))
  }

  lemma {:induction false} SampleOk(m: Meta)
    requires m == Sample()
    ensures MetaOk(m) && Declares(m.kvs, Ascii("m"), 2) && |EncMeta(m)| < 1000
  {
    Widths();
    AllOkIff(KvOk, m.kvs);
    AllOkIff(TensorOk, m.tensors);
    AllOkIff(U64Ok, m.tensors[0].dims);
    AllOkIff(U64Ok, m.tensors[1].dims);
    MetaParts([], m);
    SmallList(EncKv, m.kvs, 100);
    SmallList(EncTensor, m.tensors, 100);
  }

  lemma {:induction false} SmallList<T>(enc: T -> seq<byte>, xs: seq<T>, n: nat)
    requires forall x :: x in xs ==> |enc(x)| <= n
    ensures |EncList(enc, xs)| <= n * |xs|
    decreases |xs|
  {
    if xs != [] {
      assert xs[0] in xs;
      SmallList(enc, xs[1..], n);
      assert n * |xs| == n * |xs[1..]| + n;
    }
  }

  lemma {:induction false} DefaultIsPower(a: nat)
    requires a == 32
    ensures PowerOfTwo(a)
  {
    Doubled(1);
    Doubled(2);
    Doubled(4);
    Doubled(8);
    Doubled(16);
  }

  /** Metadata, padding up to the data section, and 8192 bytes of data. */
  lemma {:induction false} Accepted(meta: Meta, file: seq<byte>, kind: Classifier, end: nat, arch: seq<byte>, routed: seq<byte>, other: seq<byte>)
    returns (j: Job)
    requires MetaOk(meta) && Declares(meta.kvs, arch, 2) && meta.tensors == Pair(routed, other)
    requires kind(routed) == Routed && kind(other) == Other
    requires end == |EncMeta(meta)| < 1000 && EncMeta(meta) <= file && |file| == AlignUp(end, 32) + 8192
    ensures JobOf(file, kind) == Some(j) && Ready(file, kind, j) && Matching(j) && j.m.nExperts == 2
    ensures |j.m.tensors| == 2 && j.m.tensors[0].bytes == 8160 && j.m.tensors[0].kind == Routed
    ensures j.m.tensors[1].bytes == 32 && j.m.tensors[1].kind == Other
  {
    var m := PairBuilt(meta, end, |file|, kind, arch, routed, other);
    j := Job(meta, end, m);
    assert ParseMeta(file) == Some((meta, end)) by { HeadParses(file, meta); }
    assert PowerOfTwo(AlignmentOf(TablesOf(meta.kvs, 24))) by {
      Declared(meta.kvs, arch, 2);
      DefaultIsPower(32);
    }
    JobFrom(file, kind, meta, end, m);
    SampleReady(file, kind, j, arch, routed, other);
  }

  lemma {:induction false} SampleReady(file: seq<byte>, kind: Classifier, j: Job, arch: seq<byte>, routed: seq<byte>, other: seq<byte>)
    requires MetaOk(j.meta) && Declares(j.meta.kvs, arch, 2) && j.meta.tensors == Pair(routed, other)
    requires j.metaEnd == |EncMeta(j.meta)| <= j.m.dataOffset && j.metaEnd <= |file| < 0x20_0000 && |j.m.tensors| == 2
    requires BuildOf(j.meta, j.metaEnd, |file|, kind) == Some(j.m) && Tiles(j.m.tensors, j.m.dataOffset, |file|)
    ensures Ready(file, kind, j)
  {
    assert Ascending(j.meta.tensors) by { assert NotAfter(j.meta.tensors, 0, 1); }
    assert Patchable(j.meta.kvs) by { NoAlignment(j.meta.kvs, arch, 2); }
  }

  lemma {:induction false} LastEnds(file: seq<byte>, j: Job)
    requires Laid(file, j) && Matching(j) && j.m.tensors != [] && j.m.tensors[|j.m.tensors| - 1].bytes > 0
    ensures EndsInside(j)
  {
    EndsInsideIff(file, j);
  }

  lemma {:induction false} FirstPair(file: seq<byte>, kind: Classifier, j: Job) returns (x: Info, y: Info)
    requires Ready(file, kind, j) && Matching(j) && j.m.nExperts > 0
    requires |j.m.tensors| == 2 && j.m.tensors[0].kind == Routed && j.m.tensors[1].bytes > 0
    ensures RoutedPair(file, kind, j, 0, x, y) && x == j.m.tensors[0]
  {
    assert Readable(file, Pieces(j)) by { PiecesChain(file, j); }
    LastEnds(file, j);
    x, y := j.m.tensors[0], NewInfos(file, kind, j)[0];
  }

  lemma {:induction false} Prepares(file: seq<byte>, kind: Classifier, j: Job) returns (x: Info, y: Info)
    requires Ready(file, kind, j) && Matching(j) && j.m.nExperts == 2
    requires |j.m.tensors| == 2 && j.m.tensors[0].bytes == 8160 && j.m.tensors[0].kind == Routed
    requires j.m.tensors[1].bytes == 32 && j.m.tensors[1].kind == Other
    ensures RoutedPair(file, kind, j, 0, x, y)
    ensures x.perExpert == 4080 && y.perExpert == 4096 && Valid(Output(file, j), kind, j.m)
  {
    x, y := FirstPair(file, kind, j);
    assert OnlyFirst(j.m.tensors);
    FirstShifted(file, kind, j, x, y);
  }

  ghost predicate OnlyFirst(xs: seq<Info>) {
    |xs| == 2 && forall k :: 0 <= k < |xs| && k != 0 ==> xs[k].kind != Routed
  }

  lemma {:induction false} FirstShifted(file: seq<byte>, kind: Classifier, j: Job, x: Info, y: Info)
    requires RoutedPair(file, kind, j, 0, x, y) && OnlyFirst(j.m.tensors) && j.m.nExperts == 2 && x.bytes == 8160
    ensures x.perExpert == 4080 && y.perExpert == 4096 && Valid(Output(file, j), kind, j.m)
  {
    ValidatedButShifted(file, kind, j, 0, x, y);
  }

  /** Such a file exists. */
  lemma {:induction false} Exists() returns (file: seq<byte>, kind: Classifier, j: Job, x: Info, y: Info)
    ensures JobOf(file, kind) == Some(j) && RoutedPair(file, kind, j, 0, x, y)
    ensures x.perExpert == 4080 && y.perExpert == 4096 && Valid(Output(file, j), kind, j.m)
  {
    var meta := Sample();
    SampleOk(meta);
    var routed, other := Ascii("w"), Ascii("v");
    assert routed[0] != other[0];
    kind := name => if name == routed then Routed else Other;
    var head, end := EncMeta(meta), |EncMeta(meta)|;
    AlignUpAbove(end, 32);
    file := head + Zeros(AlignUp(end, 32) - end + 8192);
    j := Accepted(meta, file, kind, end, Ascii("m"), routed, other);
    x, y := Prepares(file, kind, j);
  }
}
