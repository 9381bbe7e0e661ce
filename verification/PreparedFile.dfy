/** What preparing a model file guarantees: the meaning of the file is preserved, every tensor keeps its
    bytes, the registry accepts the result, and preparing again changes nothing. */
module PreparedFile {
  import opened Bytes
  import opened GgufFormat
  import opened GgufRoundTrip
  import opened GgufReader
  import opened MetaPatch
  import opened Registry
  import opened Repack
  import opened Prepare

  /** The rewritten metadata parses back to the same version, names, dimensions, types and keys, except
      that the offsets are the new ones and the alignment is 4096 if the pairs are patchable, and only then. */
  lemma {:induction false} MeaningPreserved(file: seq<byte>, j: Job)
    requires Laid(file, j) && Wide(j.meta.kvs)
    ensures Matching(j) && Readable(file, Pieces(j))
    ensures var m := NewMeta(j);
      && ParseMeta(Output(file, j)) == Some((m, HeadLen(j)))
      && (AlignmentOf(TablesOf(m.kvs, 24)) == PAGE <==> Patchable(j.meta.kvs))
      && SameKeys(TablesOf(j.meta.kvs, 24), TablesOf(m.kvs, 24))
      && m.version == j.meta.version && |m.tensors| == |j.meta.tensors|
      && forall i :: 0 <= i < |m.tensors| ==>
           m.tensors[i] == j.meta.tensors[i].(relOffset := Rel(Spans(j.m.tensors), i))
  {
    OutputParses(file, j);
    MetaKept(j, NewMeta(j));
  }

  lemma {:induction false} MetaKept(j: Job, m: Meta)
    requires Matching(j) && Wide(j.meta.kvs) && m == NewMeta(j)
    ensures AlignmentOf(TablesOf(m.kvs, 24)) == PAGE <==> Patchable(j.meta.kvs)
    ensures SameKeys(TablesOf(j.meta.kvs, 24), TablesOf(m.kvs, 24))
    ensures m.version == j.meta.version && |m.tensors| == |j.meta.tensors|
    ensures forall i :: 0 <= i < |m.tensors| ==>
      m.tensors[i] == j.meta.tensors[i].(relOffset := Rel(Spans(j.m.tensors), i))
  {
    PairsKept(j.meta.kvs, m.kvs);
  }

  lemma {:induction false} PairsKept(kvs: seq<Kv>, kvs': seq<Kv>)
    requires Wide(kvs) && kvs' == AlignedKvs(kvs)
    ensures AlignmentOf(TablesOf(kvs', 24)) == PAGE <==> Patchable(kvs)
    ensures SameKeys(TablesOf(kvs, 24), TablesOf(kvs', 24))
  {
    AlignedKvsFacts(kvs, 24);
    RewriteKeepsKeys(kvs, 24);
  }

  /** Where tensor `i` is copied from and to. */
  ghost function PieceOf(j: Job, i: nat): Piece
    requires Matching(j) && i < |j.m.tensors|
  {
    Piece(j.m.tensors[i].abs, j.m.tensors[i].bytes, Base(j) + Rel(Spans(j.m.tensors), i))
  }

  /** Every tensor starts on a page border of the data section and its span holds the source bytes. */
  lemma {:induction false} TensorKept(file: seq<byte>, j: Job, i: nat)
    requires Laid(file, j) && Matching(j) && i < |j.m.tensors|
    ensures Readable(file, Pieces(j)) && Aligned(PieceOf(j, i).to)
    ensures Holds(Output(file, j), file, PieceOf(j, i))
  {
    assert Pieces(j)[i] == PieceOf(j, i) && Aligned(PieceOf(j, i).to) by { PieceFacts(file, j, i); }
    PiecesChain(file, j);
    PieceHeld(file, Pieces(j), Head(j), i, Output(file, j));
  }

  /** Where everything is in the output: the metadata, then the first tensor on the next page border, then each on
      the page border behind the one before it, byte for byte as in the source; the new offsets count from the first
      tensor, and the new size is the page border behind the last. */
  lemma {:induction false} PlaceMeans(file: seq<byte>, j: Job, i: nat, k: nat, out: seq<byte>, to: nat, from: nat, span: nat)
    requires Laid(file, j) && Matching(j) && i < |j.m.tensors| && k == i + 1
    requires to == PieceOf(j, i).to && from == j.m.tensors[i].abs && span == j.m.tensors[i].bytes
    ensures Readable(file, Pieces(j)) && from + span <= |file|
    ensures to % 4096 == 0 && to == PieceOf(j, 0).to + Rel(Spans(j.m.tensors), i)
    ensures i == 0 ==> |Head(j)| <= to < |Head(j)| + 4096
    ensures var next := if k < |j.m.tensors| then PieceOf(j, k).to else NewSize(j);
      to + span <= next < to + span + 4096 && next % 4096 == 0
    ensures out == Output(file, j) && span > 0 ==> to + span <= |out| && out[to..to + span] == file[from..from + span]
  {
    assert Aligned(to) && Holds(Output(file, j), file, PieceOf(j, i)) by { TensorKept(file, j, i); }
    if out == Output(file, j) && span > 0 { HoldsAt(out, file, PieceOf(j, i), to, from, span); }
    NextPlace(file, j, i, k, to, span);
    HeadSize(j);
    assert from + span <= |file| by { TilesDisjoint(j.m.tensors, j.m.dataOffset, |file|, i, i); }
  }

  lemma {:induction false} HoldsAt(out: seq<byte>, file: seq<byte>, p: Piece, to: nat, from: nat, span: nat)
    requires Holds(out, file, p) && p.to == to && p.from == from && p.span == span > 0
    ensures from + span <= |file| && to + span <= |out| && out[to..to + span] == file[from..from + span]
  {
  }

  lemma {:induction false} NextPlace(file: seq<byte>, j: Job, i: nat, k: nat, to: nat, span: nat)
    requires Laid(file, j) && Matching(j) && i < |j.m.tensors| && k == i + 1
    requires to == PieceOf(j, i).to && span == j.m.tensors[i].bytes
    ensures to == Base(j) + Rel(Spans(j.m.tensors), i) && Base(j) == PieceOf(j, 0).to
    ensures HeadLen(j) <= Base(j) < HeadLen(j) + 4096
    ensures var next := if k < |j.m.tensors| then PieceOf(j, k).to else NewSize(j);
      to + span <= next < to + span + 4096 && next % 4096 == 0
  {
    var xs, base, r, r' := j.m.tensors, Base(j), Rel(Spans(j.m.tensors), i), Rel(Spans(j.m.tensors), k);
    assert HeadLen(j) <= base < HeadLen(j) + 4096 && Aligned(base) && base + Rel(Spans(xs), |xs|) == NewSize(j) by {
      BasePlain(file, j);
      PaddedAbove(HeadLen(j));
    }
    assert Aligned(r') && r' == r + Padded(span) by { RelPlain(xs, j.m.dataOffset, |file|, k); }
    assert to == base + r;
    PaddedAbove(span);
    AlignedSum(base, r');
  }

  // ---------------------------------------------------------------- what the registry makes of the output

  /** The last span really ends the prepared file. */
  ghost predicate EndsInside(j: Job)
    requires Matching(j) && j.m.tensors != []
  {
    Extent(Pieces(j), HeadLen(j), |j.m.tensors|) == Border(Pieces(j), |j.m.tensors| - 1)
  }

  /** It does unless the last tensor is empty and a gap would have to come before it. */
  lemma {:induction false} EndsInsideIff(file: seq<byte>, j: Job)
    requires Laid(file, j)
    ensures Matching(j) && j.m.tensors != []
    ensures var xs, n := j.m.tensors, |j.m.tensors|;
      EndsInside(j) <==>
        xs[n - 1].bytes > 0 || (if n == 1 then Aligned(HeadLen(j)) else Aligned(xs[n - 2].bytes))
  {
    PiecesChain(file, j);
    EndIff(Pieces(j), HeadLen(j));
    LastGap(file, j, Pieces(j), HeadLen(j));
  }

  /** What the last target is compared with. */
  lemma {:induction false} LastGap(file: seq<byte>, j: Job, ps: seq<Piece>, h: nat)
    requires Laid(file, j) && Matching(j) && ps == Pieces(j) && h == HeadLen(j)
    ensures var n := |j.m.tensors|;
      && ps[n - 1].span == j.m.tensors[n - 1].bytes
      && (n == 1 ==> (ps[0].to == h <==> Aligned(h)))
      && (n > 1 ==> (ps[n - 1].to == ps[n - 2].to + ps[n - 2].span <==> Aligned(j.m.tensors[n - 2].bytes)))
  {
    var n := |j.m.tensors|;
    assert ps[n - 1].span == j.m.tensors[n - 1].bytes by { PieceFacts(file, j, n - 1); }
    if n > 1 {
      var to, border := Targeted(file, j, n - 2, ps, Base(j));
      assert ps[n - 2].span == j.m.tensors[n - 2].bytes by { PieceFacts(file, j, n - 2); }
      PaddedIff(ps[n - 2].span);
    } else {
      var to, border := Targeted(file, j, 0, ps, Base(j));
      assert Base(j) == Padded(h) by { BasePlain(file, j); }
      PaddedIff(h);
    }
  }

  lemma {:induction false} PaddedIff(v: nat)
    ensures Padded(v) == v <==> Aligned(v)
  {
  }

  ghost function NewInfos(file: seq<byte>, kind: Classifier, j: Job): (xs: seq<Info>)
    requires Matching(j) && Readable(file, Pieces(j))
    ensures |xs| == |j.m.tensors|
  {
    Infos(NewMeta(j).tensors, |j.m.tensors|, Base(j), |Output(file, j)|, j.m.nExperts, kind)
  }

  /** The new span of a tensor is its old one padded to a page; the last tensor stays unpadded. */
  lemma {:induction false} NewInfo(file: seq<byte>, kind: Classifier, j: Job, i: nat)
    requires Ready(file, kind, j) && i < |j.m.tensors| && Matching(j) && EndsInside(j)
    ensures Readable(file, Pieces(j))
    ensures var x, y := j.m.tensors[i], NewInfos(file, kind, j)[i];
      && y.t == NewMeta(j).tensors[i] && y.kind == x.kind && y.abs == PieceOf(j, i).to
      && y.bytes == (if i + 1 < |j.m.tensors| then Padded(x.bytes) else x.bytes)
  {
    assert Readable(file, Pieces(j)) by { PiecesChain(file, j); }
    var ts, n, size := NewMeta(j).tensors, |j.m.tensors|, |Output(file, j)|;
    var x := j.m.tensors[i];
    assert x.kind == kind(ts[i].name) && |ts| == n by {
      NewTensor(j, i);
      ReadyInfos(file, kind, j);
    }
    var base := Base(j);
    var to, border := NewBorder(file, j, i, Pieces(j), ts, base, size);
    InfoFrom(ts, i, base, size, j.m.nExperts, kind, border);
  }

  /** A padded span ends where the next tensor starts, and the last one ends the file. */
  lemma {:induction false} NewBorder(file: seq<byte>, j: Job, i: nat, ps: seq<Piece>, ts: seq<Tensor>, base: nat, size: nat)
    returns (to: nat, border: nat)
    requires Laid(file, j) && i < |j.m.tensors| && Matching(j) && EndsInside(j) && ps == Pieces(j) && Readable(file, ps)
    requires ts == NewMeta(j).tensors && base == Base(j) && size == |Output(file, j)| && |ts| == |j.m.tensors|
    ensures to == PieceOf(j, i).to == base + ts[i].relOffset <= border < U64
    ensures border == to + (if i + 1 < |j.m.tensors| then Padded(j.m.tensors[i].bytes) else j.m.tensors[i].bytes)
    ensures border == if i + 1 < |ts| then base + ts[i + 1].relOffset else size
  {
    to, border := Targeted(file, j, i, ps, base);
    assert ts[i].relOffset == Rel(Spans(j.m.tensors), i) by { NewTensor(j, i); }
    if i + 1 < |j.m.tensors| {
      var next, end := Targeted(file, j, i + 1, ps, base);
      assert ts[i + 1].relOffset == Rel(Spans(j.m.tensors), i + 1) by { NewTensor(j, i + 1); }
    } else {
      OutputSize(file, j, ps, size);
    }
  }

  /** Where piece `i` starts and ends. */
  lemma {:induction false} Targeted(file: seq<byte>, j: Job, i: nat, ps: seq<Piece>, base: nat) returns (to: nat, border: nat)
    requires Laid(file, j) && Matching(j) && i < |j.m.tensors| && ps == Pieces(j) && base == Base(j)
    ensures to == ps[i].to == PieceOf(j, i).to == base + Rel(Spans(j.m.tensors), i)
    ensures border == Border(ps, i) && to <= border < U64
    ensures border == to + (if i + 1 < |j.m.tensors| then Padded(j.m.tensors[i].bytes) else j.m.tensors[i].bytes)
  {
    to, border := base + Rel(Spans(j.m.tensors), i), Border(ps, i);
    PieceFacts(file, j, i);
    BorderRange(file, j, i);
  }

  lemma {:induction false} NewTensor(j: Job, i: nat)
    requires Matching(j) && i < |j.m.tensors|
    ensures NewMeta(j).tensors[i] == j.meta.tensors[i].(relOffset := Rel(Spans(j.m.tensors), i))
  {
  }

  lemma {:induction false} InfoFrom(ts: seq<Tensor>, i: nat, base: nat, size: nat, nExperts: int, kind: Classifier, border: nat)
    requires i < |ts| && base + ts[i].relOffset <= border < U64
    requires border == if i + 1 < |ts| then base + ts[i + 1].relOffset else size
    ensures var x := InfoOf(ts, i, base, size, nExperts, kind);
      x.abs == base + ts[i].relOffset && x.bytes == border - x.abs
  {
  }

  lemma {:induction false} OutputSize(file: seq<byte>, j: Job, ps: seq<Piece>, size: nat)
    requires Laid(file, j) && Matching(j) && j.m.tensors != [] && EndsInside(j)
    requires ps == Pieces(j) && Readable(file, ps) && size == |Output(file, j)|
    ensures size == Border(ps, |ps| - 1)
  {
    PiecesChain(file, j);
    PackedSize(file, Pieces(j), Head(j), |j.m.tensors|);
  }

  /** The expert configuration does not depend on the alignment pair. */
  lemma {:induction false} ConfigKept(a: Tables, b: Tables)
    requires SameKeys(a, b)
    ensures ExpertConfig(a) == ExpertConfig(b)
  {
    var name := Name(Ascii("general.architecture"));
    assert Lookup(a, name) == Lookup(b, name);
    if name in a.s { ArchitectureKept(a, b, a.s[name]); }
  }

  lemma {:induction false} ArchitectureKept(a: Tables, b: Tables, arch: seq<byte>)
    requires SameKeys(a, b)
    ensures var layers, count, used :=
        Name(arch + Ascii(".block_count")), Name(arch + Ascii(".expert_count")), Name(arch + Ascii(".expert_used_count"));
      Lookup(a, layers) == Lookup(b, layers) && Lookup(a, count) == Lookup(b, count) && Lookup(a, used) == Lookup(b, used)
  {
    OtherKey(arch, Ascii(".block_count"));
    OtherKey(arch, Ascii(".expert_count"));
    OtherKey(arch, Ascii(".expert_used_count"));
  }

  lemma {:induction false} OtherKey(arch: seq<byte>, suffix: seq<byte>)
    requires |suffix| >= 3 && suffix[|suffix| - 3] != 'e' as int
    ensures Name(arch + suffix) != ALIGNMENT_KEY
  {
    var text := arch + suffix;
    assert text[|text| - 3] == suffix[|suffix| - 3];
  }

  lemma {:induction false} PageIsPower()
    ensures PowerOfTwo(PAGE)
  {
    Doubled(1);
    Doubled(2);
    Doubled(4);
    Doubled(8);
    Doubled(16);
    Doubled(32);
    Doubled(64);
    Doubled(128);
    Doubled(256);
    Doubled(512);
    Doubled(1024);
    Doubled(2048);
  }

  lemma {:induction false} Doubled(a: nat)
    requires a > 0
    ensures PowerOfTwo(2 * a) <==> PowerOfTwo(a)
  {
  }

  /** Targets strictly ascend. */
  lemma {:induction false} TargetsAscend(xs: seq<Info>, dataOffset: nat, fileSize: nat, i: nat, k: nat)
    requires Tiles(xs, dataOffset, fileSize) && i < k < |xs| && fileSize + 4096 * (|xs| + 2) < U64
    ensures Rel(Spans(xs), i) < Rel(Spans(xs), k)
    decreases k
  {
    assert xs[k - 1].bytes > 0 by { assert Meets(xs, k - 1); }
    PaddedAbove(xs[k - 1].bytes);
    assert Rel(Spans(xs), k) == Rel(Spans(xs), k - 1) + Padded(xs[k - 1].bytes) by {
      RelPlain(xs, dataOffset, fileSize, k);
    }
    if i < k - 1 { TargetsAscend(xs, dataOffset, fileSize, i, k - 1); }
  }

  lemma {:induction false} NewInfoOk(file: seq<byte>, kind: Classifier, j: Job, i: nat)
    requires Ready(file, kind, j) && i < |j.m.tensors| && Matching(j) && EndsInside(j) && InfoOk(j.m.tensors[i], j.m.nExperts)
    ensures Readable(file, Pieces(j)) && InfoOk(NewInfos(file, kind, j)[i], j.m.nExperts)
  {
    var x := j.m.tensors[i];
    NewInfo(file, kind, j, i);
    NewTensor(j, i);
    PaddedAbove(x.bytes);
    assert x.t == j.meta.tensors[i] by { ReadyInfos(file, kind, j); }
  }

  lemma {:induction false} NewSpanOk(file: seq<byte>, kind: Classifier, j: Job, i: nat)
    requires Ready(file, kind, j) && i < |j.m.tensors| && Matching(j) && EndsInside(j)
    ensures Readable(file, Pieces(j)) && SpanOk(NewInfos(file, kind, j)[i], Base(j), |Output(file, j)|)
  {
    assert Readable(file, Pieces(j)) by { PiecesChain(file, j); }
    var y, to, border := NewSpan(file, kind, j, i, Pieces(j));
    BorderInOutput(file, j, i, Pieces(j), |Output(file, j)|);
    SpanInside(y, Base(j), |Output(file, j)|, border);
  }

  lemma {:induction false} BorderInOutput(file: seq<byte>, j: Job, i: nat, ps: seq<Piece>, size: nat)
    requires Laid(file, j) && i < |j.m.tensors| && Matching(j) && EndsInside(j) && ps == Pieces(j)
    requires Readable(file, ps) && size == |Output(file, j)|
    ensures Border(ps, i) <= size && Border(ps, i) < U64
  {
    OutputSize(file, j, ps, size);
    BorderLast(file, j, i, ps);
    BorderRange(file, j, i);
  }

  lemma {:induction false} BorderLast(file: seq<byte>, j: Job, i: nat, ps: seq<Piece>)
    requires Laid(file, j) && i < |j.m.tensors| && Matching(j) && ps == Pieces(j)
    ensures Border(ps, i) <= Border(ps, |ps| - 1)
  {
    var h := HeadLen(j);
    assert Chain(ps, h) by { PiecesChain(file, j); }
    BorderInside(ps, h, i);
  }

  lemma {:induction false} SpanInside(x: Info, base: nat, size: nat, border: nat)
    requires base <= x.abs && x.abs + x.bytes == border <= size && border < U64
    ensures SpanOk(x, base, size)
  {
  }

  lemma {:induction false} OutputAccepted(file: seq<byte>, kind: Classifier, j: Job, experts: bool)
    requires Ready(file, kind, j) && Matching(j) && j.m.tensors != [] && EndsInside(j)
    requires Accepts(j.m.tensors, j.m.dataOffset, |file|, experts, j.m.nExperts)
    ensures Readable(file, Pieces(j))
    ensures Accepts(NewInfos(file, kind, j), Base(j), |Output(file, j)|, experts, j.m.nExperts)
  {
    PiecesChain(file, j);
    var ys, xs := NewInfos(file, kind, j), j.m.tensors;
    forall i | 0 <= i < |xs|
      ensures InfoOk(ys[i], j.m.nExperts) && SpanOk(ys[i], Base(j), |Output(file, j)|)
      ensures IsRouted(xs[i]) <==> IsRouted(ys[i])
    {
      NewInfoOk(file, kind, j, i);
      NewSpanOk(file, kind, j, i);
      NewInfo(file, kind, j, i);
    }
    forall i, k | 0 <= i < k < |ys| ensures Differ(ys, i, k) {
      NewInfo(file, kind, j, i);
      NewInfo(file, kind, j, k);
      TargetsAscend(xs, j.m.dataOffset, |file|, i, k);
    }
    CountSame(xs, ys, IsRouted, IsRouted);
  }

  /** The prepared file's job: the rewritten metadata and padded spans. */
  ghost function NewJob(file: seq<byte>, kind: Classifier, j: Job): (r: Job)
    requires Matching(j) && Readable(file, Pieces(j))
    ensures Matching(r)
  {
    var xs := NewInfos(file, kind, j);
    Job(NewMeta(j), HeadLen(j), Manifest(|Output(file, j)|, Base(j), PAGE, j.m.nExperts, xs, CountsOf(xs)))
  }

  /** The registry accepts the prepared file, with the same experts and every tensor at its new place. */
  lemma {:induction false} OutputRegistered(file: seq<byte>, kind: Classifier, j: Job)
    requires Ready(file, kind, j) && Matching(j) && EndsInside(j)
    ensures Readable(file, Pieces(j)) && JobOf(Output(file, j), kind) == Some(NewJob(file, kind, j))
  {
    OutputParses(file, j);
    OutputBuilt(file, kind, j);
    AlignedKvsFacts(j.meta.kvs, 24);
    PageIsPower();
    JobFrom(Output(file, j), kind, NewMeta(j), HeadLen(j), NewJob(file, kind, j).m);
  }

  lemma {:induction false} JobFrom(out: seq<byte>, kind: Classifier, meta: Meta, end: nat, m: Manifest)
    requires ParseMeta(out) == Some((meta, end)) && PowerOfTwo(AlignmentOf(TablesOf(meta.kvs, 24)))
    requires BuildOf(meta, end, |out|, kind) == Some(m)
    ensures JobOf(out, kind) == Some(Job(meta, end, m))
  {
  }

  lemma {:induction false} OutputBuilt(file: seq<byte>, kind: Classifier, j: Job)
    requires Ready(file, kind, j) && Matching(j) && EndsInside(j)
    ensures Readable(file, Pieces(j))
    ensures BuildOf(NewMeta(j), HeadLen(j), |Output(file, j)|, kind) == Some(NewJob(file, kind, j).m)
  {
    var m := NewMeta(j);
    ConfigUsed(file, kind, j);
    var experts := ExpertConfig(TablesOf(j.meta.kvs, 24)).value.0;
    OutputAccepted(file, kind, j, experts);
    assert ExpertConfig(TablesOf(m.kvs, 24)) == Some((experts, j.m.nExperts)) by {
      RewriteKeepsKeys(j.meta.kvs, 24);
      ConfigKept(TablesOf(j.meta.kvs, 24), TablesOf(m.kvs, 24));
    }
    assert AlignmentOf(TablesOf(m.kvs, 24)) == PAGE by { AlignedKvsFacts(j.meta.kvs, 24); }
    assert Base(j) == Padded(HeadLen(j)) by { BasePlain(file, j); }
    NewOrder(file, j);
    BuiltFrom(m, HeadLen(j), |Output(file, j)|, kind, Base(j), NewInfos(file, kind, j), experts, j.m.nExperts);
  }

  lemma {:induction false} BuiltFrom(meta: Meta, end: nat, size: nat, kind: Classifier, base: nat, xs: seq<Info>, experts: bool, nExperts: int)
    requires Ascending(meta.tensors) && ExpertConfig(TablesOf(meta.kvs, 24)) == Some((experts, nExperts))
    requires AlignmentOf(TablesOf(meta.kvs, 24)) == PAGE && base == Padded(end)
    requires xs == Infos(meta.tensors, |meta.tensors|, base, size, nExperts, kind) && Accepts(xs, base, size, experts, nExperts)
    ensures BuildOf(meta, end, size, kind) == Some(Manifest(size, base, PAGE, nExperts, xs, CountsOf(xs)))
  {
    SortIdentity(meta.tensors);
    AlignUpPage(end);
  }

  lemma {:induction false} ConfigUsed(file: seq<byte>, kind: Classifier, j: Job)
    requires Registered(|file|, kind, j)
    ensures var config := ExpertConfig(TablesOf(j.meta.kvs, 24));
      && config.Some? && config.value.1 == j.m.nExperts
      && Accepts(j.m.tensors, j.m.dataOffset, |file|, config.value.0, j.m.nExperts)
  {
  }

  lemma {:induction false} NewOrder(file: seq<byte>, j: Job)
    requires Laid(file, j) && Matching(j)
    ensures Ascending(NewMeta(j).tensors)
  {
    var ts := NewMeta(j).tensors;
    forall i, k | 0 <= i < k < |ts| ensures NotAfter(ts, i, k) {
      NewTensor(j, i);
      NewTensor(j, k);
      TargetsAscend(j.m.tensors, j.m.dataOffset, |file|, i, k);
    }
  }

  // ---------------------------------------------------------------- preparing again

  lemma {:induction false} PadTwice(v: nat)
    requires v + 4096 <= U64
    ensures PageUp(Padded(v)) == PageUp(v)
  {
  }

  /** Spans that round up to the same pages give the same layout. */
  lemma {:induction false} LayoutSame(spans: seq<nat>, spans': seq<nat>, i: nat)
    requires i <= |spans| == |spans'| && forall k :: 0 <= k < |spans| ==> PageUp(spans[k]) == PageUp(spans'[k])
    ensures Rel(spans, i) == Rel(spans', i)
  {
    if i > 0 { LayoutSame(spans, spans', i - 1); }
  }

  lemma {:induction false} SpanAgain(file: seq<byte>, kind: Classifier, j: Job, i: nat)
    requires Ready(file, kind, j) && Matching(j) && EndsInside(j) && i < |j.m.tensors|
    ensures Readable(file, Pieces(j)) && PageUp(NewInfos(file, kind, j)[i].bytes) == PageUp(j.m.tensors[i].bytes)
  {
    NewInfo(file, kind, j, i);
    PieceFacts(file, j, i);
    PadTwice(j.m.tensors[i].bytes);
  }

  lemma {:induction false} LayoutAgain(file: seq<byte>, kind: Classifier, j: Job, i: nat)
    requires Ready(file, kind, j) && Matching(j) && EndsInside(j) && i <= |j.m.tensors|
    ensures Readable(file, Pieces(j))
    ensures Rel(Spans(NewInfos(file, kind, j)), i) == Rel(Spans(j.m.tensors), i)
  {
    PiecesChain(file, j);
    var spans, spans' := Spans(j.m.tensors), Spans(NewInfos(file, kind, j));
    forall k | 0 <= k < |spans| ensures PageUp(spans[k]) == PageUp(spans'[k]) { SpanAgain(file, kind, j, k); }
    LayoutSame(spans, spans', i);
  }

  lemma {:induction false} MetaAgain(file: seq<byte>, kind: Classifier, j: Job)
    requires Ready(file, kind, j) && Matching(j) && EndsInside(j)
    ensures Readable(file, Pieces(j))
    ensures var again := NewJob(file, kind, j);
      NewMeta(again) == NewMeta(j) && Head(again) == Head(j) && Base(again) == Base(j)
  {
    PiecesChain(file, j);
    var rel, rel' := Rels(Spans(j.m.tensors)), Rels(Spans(NewInfos(file, kind, j)));
    assert rel' == rel by {
      forall i | 0 <= i < |rel| ensures rel'[i] == rel[i] { LayoutAgain(file, kind, j, i); }
    }
    SameHead(j, NewJob(file, kind, j));
  }

  /** The patch applied to its own result, with the same layout. */
  lemma {:induction false} SameHead(j: Job, again: Job)
    requires Matching(j) && Matching(again) && Wide(j.meta.kvs) && |EncMeta(j.meta)| == j.metaEnd
    requires again.meta == NewMeta(j) && again.metaEnd == HeadLen(j)
    requires Rels(Spans(again.m.tensors)) == Rels(Spans(j.m.tensors))
    ensures NewMeta(again) == NewMeta(j) && Head(again) == Head(j) && HeadLen(again) == HeadLen(j)
  {
    AlignedKvsFacts(j.meta.kvs, 24);
    MovedTwice(j.meta.tensors, Rels(Spans(j.m.tensors)));
    HeadIs(j);
    HeadIs(again);
  }

  lemma {:induction false} MovedTwice(ts: seq<Tensor>, rel: seq<nat>)
    requires |rel| == |ts|
    ensures Moved(Moved(ts, rel, |rel|), rel, |rel|) == Moved(ts, rel, |rel|)
  {
  }

  lemma {:induction false} PiecesAgain(file: seq<byte>, kind: Classifier, j: Job, ps: seq<Piece>, qs: seq<Piece>)
    requires Ready(file, kind, j) && Matching(j) && EndsInside(j)
    requires ps == Pieces(j) && Readable(file, ps) && qs == Pieces(NewJob(file, kind, j))
    ensures qs == Again(ps)
  {
    forall i | 0 <= i < |ps| ensures qs[i] == Again(ps)[i] { PieceAgain(file, kind, j, i, ps, qs); }
  }

  lemma {:induction false} PieceAgain(file: seq<byte>, kind: Classifier, j: Job, i: nat, ps: seq<Piece>, qs: seq<Piece>)
    requires Ready(file, kind, j) && Matching(j) && EndsInside(j) && i < |j.m.tensors|
    requires ps == Pieces(j) && Readable(file, ps) && qs == Pieces(NewJob(file, kind, j))
    ensures qs[i] == Again(ps)[i]
  {
    var y, to, border := NewSpan(file, kind, j, i, ps);
    var p := Piece(to, border - to, to);
    assert Again(ps)[i] == p by { AgainAt(ps, i, to, border); }
    assert qs[i] == p by { PieceInPlace(file, kind, j, i, y, to, qs); }
  }

  /** The span of tensor `i` in the prepared file. */
  lemma {:induction false} NewSpan(file: seq<byte>, kind: Classifier, j: Job, i: nat, ps: seq<Piece>)
    returns (y: Info, to: nat, border: nat)
    requires Ready(file, kind, j) && Matching(j) && EndsInside(j) && i < |j.m.tensors| && ps == Pieces(j) && Readable(file, ps)
    ensures y == NewInfos(file, kind, j)[i] && to == PieceOf(j, i).to == ps[i].to && border == Border(ps, i)
    ensures y.abs == to && y.bytes == border - to && to <= border < U64
  {
    y := NewInfos(file, kind, j)[i];
    to, border := Targeted(file, j, i, ps, Base(j));
    NewInfo(file, kind, j, i);
  }

  /** The prepared file's own pieces stay where they are. */
  lemma {:induction false} PieceInPlace(file: seq<byte>, kind: Classifier, j: Job, i: nat, y: Info, to: nat, qs: seq<Piece>)
    requires Ready(file, kind, j) && Matching(j) && EndsInside(j) && i < |j.m.tensors|
    requires Readable(file, Pieces(j)) && y == NewInfos(file, kind, j)[i] && to == PieceOf(j, i).to < U64
    requires qs == Pieces(NewJob(file, kind, j))
    ensures qs[i] == Piece(y.abs, y.bytes, to)
  {
    var again, ys := NewJob(file, kind, j), NewInfos(file, kind, j);
    assert Base(again) == Base(j) by { MetaAgain(file, kind, j); }
    assert Rel(Spans(ys), i) == Rel(Spans(j.m.tensors), i) by { LayoutAgain(file, kind, j, i); }
    PieceOfJob(again, ys, i, Base(j), to);
  }

  lemma {:induction false} PieceOfJob(again: Job, ys: seq<Info>, i: nat, base: nat, to: nat)
    requires Matching(again) && again.m.tensors == ys && i < |ys| && Base(again) == base
    requires to == base + Rel(Spans(ys), i) < U64
    ensures Pieces(again)[i] == Piece(ys[i].abs, ys[i].bytes, to)
  {
    PiecesAre(again, ys, Rels(Spans(ys)), base);
    PieceAt(ys, Spans(ys), base, i);
  }

  lemma {:induction false} BytesAgain(file: seq<byte>, j: Job, out: seq<byte>, ps: seq<Piece>, head: seq<byte>)
    requires Laid(file, j) && Matching(j) && EndsInside(j)
    requires ps == Pieces(j) && head == Head(j) && Readable(file, ps) && out == Packed(file, ps, head, |ps|)
    ensures Readable(out, Again(ps)) && Packed(out, Again(ps), head, |ps|) == out
  {
    assert Chain(ps, |head|) && |head| == HeadLen(j) by { PiecesChain(file, j); }
    RepackIdentity(file, ps, head, out);
  }

  /** Preparing is idempotent: the registry accepts the prepared file, and preparing it once more yields the
      same bytes: metadata, gaps, and the unpadded last tensor. */
  lemma {:induction false} Idempotent(file: seq<byte>, kind: Classifier, j: Job)
    requires Ready(file, kind, j) && Matching(j) && EndsInside(j)
    ensures Readable(file, Pieces(j))
    ensures var out, again := Output(file, j), NewJob(file, kind, j);
      JobOf(out, kind) == Some(again) && Readable(out, Pieces(again)) && Output(out, again) == out
  {
    OutputRegistered(file, kind, j);
    var out, again := Output(file, j), NewJob(file, kind, j);
    PiecesAgain(file, kind, j, Pieces(j), Pieces(again));
    assert Head(again) == Head(j) by { MetaAgain(file, kind, j); }
    BytesAgain(file, j, out, Pieces(j), Head(j));
    OutputIs(out, again, Pieces(again), Head(j));
  }

  lemma {:induction false} OutputIs(file: seq<byte>, j: Job, ps: seq<Piece>, head: seq<byte>)
    requires Matching(j) && ps == Pieces(j) && head == Head(j) && Readable(file, ps)
    ensures Output(file, j) == Packed(file, ps, head, |ps|)
  {
  }
}
