/** Running the preparation on its own output: when it is refused, and that it changes nothing otherwise. */
module PreparedAgain {
  import opened Bytes
  import opened GgufFormat
  import opened GgufReader
  import opened MetaPatch
  import opened Registry
  import opened Repack
  import opened Prepare
  import opened PreparedFile

  // ---------------------------------------------------------------- the output ends with the last tensor

  /** The outcome of preparing the output once more. */
  lemma {:induction false} SecondOutcome(file: seq<byte>, kind: Classifier, available: nat, j: Job)
    requires Ready(file, kind, j) && Matching(j) && EndsInside(j)
    ensures Readable(file, Pieces(j))
    ensures var out := Output(file, j);
      Expected(out, kind, available, true) ==
        if available < NewSize(j) then NoSpace
        else if Valid(out, kind, NewJob(file, kind, j).m) then Prepared else Invalid
  {
    assert Readable(file, Pieces(j)) by { PiecesChain(file, j); }
    var out, again := Output(file, j), NewJob(file, kind, j);
    assert JobOf(out, kind) == Some(again) && Readable(out, Pieces(again)) && Output(out, again) == out by {
      Idempotent(file, kind, j);
    }
    assert Ascending(again.meta.tensors) by { NewOrder(file, j); }
    assert |out| <= NewSize(again) == NewSize(j) by { SizeAgain(file, kind, j, out, again); }
    OutcomeFrom(out, kind, available, again);
  }

  lemma {:induction false} SizeAgain(file: seq<byte>, kind: Classifier, j: Job, out: seq<byte>, again: Job)
    requires Ready(file, kind, j) && Matching(j) && EndsInside(j) && Readable(file, Pieces(j))
    requires out == Output(file, j) && again == NewJob(file, kind, j)
    ensures |out| <= NewSize(again) == NewSize(j)
  {
    var n, base := |j.m.tensors|, Base(j);
    var r := Rel(Spans(j.m.tensors), n);
    var ys := again.m.tensors;
    assert |out| <= NewSize(j) by { OutputFits(file, j, out); }
    assert Base(again) == base by { MetaAgain(file, kind, j); }
    assert |ys| == n && Rel(Spans(ys), n) == r by { LayoutAgain(file, kind, j, n); }
    assert NewSize(j) == Wrap(base + r) by { SizeIs(j, base, r); }
    assert NewSize(again) == Wrap(base + r) by { SizeIs(again, base, r); }
  }

  lemma {:induction false} OutputFits(file: seq<byte>, j: Job, out: seq<byte>)
    requires Laid(file, j) && Matching(j) && EndsInside(j) && Readable(file, Pieces(j)) && out == Output(file, j)
    ensures |out| <= NewSize(j)
  {
    OutputSize(file, j, Pieces(j), |out|);
    BorderRange(file, j, |j.m.tensors| - 1);
  }

  lemma {:induction false} OutcomeFrom(out: seq<byte>, kind: Classifier, available: nat, again: Job)
    requires JobOf(out, kind) == Some(again) && Ascending(again.meta.tensors) && |out| <= NewSize(again)
    requires Readable(out, Pieces(again)) && Output(out, again) == out
    ensures Expected(out, kind, available, true) ==
      if available < NewSize(again) then NoSpace else if Valid(out, kind, again.m) then Prepared else Invalid
  {
  }

  // ---------------------------------------------------------------- the output ends before the last tensor

  /** Then the last tensor is empty and its place lies behind the end. */
  lemma {:induction false} CutShort(file: seq<byte>, j: Job)
    requires Laid(file, j) && Matching(j) && !EndsInside(j)
    ensures Readable(file, Pieces(j))
    ensures var last := |j.m.tensors| - 1;
      |Output(file, j)| < PieceOf(j, last).to && j.m.tensors[last].bytes == 0
  {
    assert Readable(file, Pieces(j)) by { PiecesChain(file, j); }
    var last, size := |j.m.tensors| - 1, |Output(file, j)|;
    assert Pieces(j)[last] == PieceOf(j, last) by { PieceFacts(file, j, last); }
    PiecesStop(file, j, Pieces(j), Head(j), size, last);
  }

  lemma {:induction false} PiecesStop(file: seq<byte>, j: Job, ps: seq<Piece>, head: seq<byte>, size: nat, last: nat)
    requires Laid(file, j) && Matching(j) && !EndsInside(j) && ps == Pieces(j) && head == Head(j)
    requires Readable(file, ps) && size == |Packed(file, ps, head, |ps|)| && last == |ps| - 1
    ensures size < ps[last].to && ps[last].span == 0
  {
    assert Chain(ps, |head|) && |head| == HeadLen(j) by { PiecesChain(file, j); }
    StopsBefore(file, ps, head, size, last);
  }

  lemma {:induction false} StopsBefore(file: seq<byte>, ps: seq<Piece>, head: seq<byte>, size: nat, last: nat)
    requires ps != [] && Readable(file, ps) && Chain(ps, |head|) && size == |Packed(file, ps, head, |ps|)| && last == |ps| - 1
    requires Extent(ps, |head|, |ps|) != Border(ps, last)
    ensures size < ps[last].to && ps[last].span == 0
  {
    EndIff(ps, |head|);
    PackedSize(file, ps, head, |ps|);
    PackedSize(file, ps, head, |ps| - 1);
  }

  /** The span the registry derives for a tensor that is followed by another one. */
  lemma {:induction false} InnerInfo(file: seq<byte>, kind: Classifier, j: Job, i: nat, next: nat, y: Info)
    requires Laid(file, j) && Matching(j) && i + 1 == next < |j.m.tensors| && Readable(file, Pieces(j))
    requires y == NewInfos(file, kind, j)[i]
    ensures y.abs == PieceOf(j, i).to && y.abs + y.bytes == PieceOf(j, next).to < U64
  {
    var ts := NewMeta(j).tensors;
    NewTensor(j, i);
    NewTensor(j, i + 1);
    var border := PieceOf(j, i + 1).to;
    assert PieceOf(j, i).to <= border by { TargetsAscend(j.m.tensors, j.m.dataOffset, |file|, i, i + 1); }
    assert border < U64 by { TargetRange(file, j, i + 1); }
    InfoFrom(ts, i, Base(j), |Output(file, j)|, j.m.nExperts, kind, border);
  }

  lemma {:induction false} TargetRange(file: seq<byte>, j: Job, i: nat)
    requires Laid(file, j) && Matching(j) && i < |j.m.tensors|
    ensures PieceOf(j, i).to < U64
  {
    PieceFacts(file, j, i);
    BorderRange(file, j, i);
  }

  /** With another tensor before it, the registry rejects the output: the tensor before the gap reaches
      beyond the end. */
  lemma {:induction false} GapRejected(file: seq<byte>, kind: Classifier, j: Job)
    requires Ready(file, kind, j) && Matching(j) && !EndsInside(j) && |j.m.tensors| >= 2
    ensures Readable(file, Pieces(j)) && ManifestFor(Output(file, j), kind) == None
  {
    assert Readable(file, Pieces(j)) by { PiecesChain(file, j); }
    var out, m := Output(file, j), NewMeta(j);
    var end := HeadLen(j);
    assert BuildOf(m, end, |out|, kind) == None by { GapNotBuilt(file, kind, j, m, end, |out|); }
    assert ParseMeta(out) == Some((m, end)) by { OutputParses(file, j); }
    NoJob(out, kind, m, end);
  }

  lemma {:induction false} GapNotBuilt(file: seq<byte>, kind: Classifier, j: Job, m: Meta, end: nat, size: nat)
    requires Ready(file, kind, j) && Matching(j) && !EndsInside(j) && |j.m.tensors| >= 2 && Readable(file, Pieces(j))
    requires m == NewMeta(j) && end == HeadLen(j) && size == |Output(file, j)|
    ensures BuildOf(m, end, size, kind) == None
  {
    var base, n := Base(j), |j.m.tensors|;
    var ys, i := GapSpan(file, kind, j, base, size);
    assert base == Padded(end) && |m.tensors| == n && Ascending(m.tensors) by {
      BasePlain(file, j);
      NewOrder(file, j);
    }
    ConfigOf(file, kind, j, m);
    NotBuilt(m, end, size, kind, base, ys, j.m.nExperts, n, i);
  }

  lemma {:induction false} ConfigOf(file: seq<byte>, kind: Classifier, j: Job, m: Meta)
    requires Ready(file, kind, j) && Matching(j) && m == NewMeta(j)
    ensures var config := ExpertConfig(TablesOf(m.kvs, 24)); config.Some? && config.value.1 == j.m.nExperts
    ensures AlignmentOf(TablesOf(m.kvs, 24)) == PAGE
  {
    OutputConfig(file, kind, j);
  }

  lemma {:induction false} GapSpan(file: seq<byte>, kind: Classifier, j: Job, base: nat, size: nat) returns (ys: seq<Info>, i: nat)
    requires Ready(file, kind, j) && Matching(j) && !EndsInside(j) && |j.m.tensors| >= 2 && Readable(file, Pieces(j))
    requires base == Base(j) && size == |Output(file, j)|
    ensures ys == Infos(NewMeta(j).tensors, |j.m.tensors|, base, size, j.m.nExperts, kind)
    ensures i < |ys| && !SpanOk(ys[i], base, size)
  {
    var last := |j.m.tensors| - 1;
    ys, i := NewInfos(file, kind, j), last - 1;
    var y, to := ys[i], PieceOf(j, last).to;
    assert size < to by { CutShort(file, j); }
    assert y.abs + y.bytes == to < U64 by { InnerInfo(file, kind, j, i, last, y); }
    PastEnd(y, base, size, to);
  }

  lemma {:induction false} NoJob(out: seq<byte>, kind: Classifier, meta: Meta, end: nat)
    requires ParseMeta(out) == Some((meta, end)) && BuildOf(meta, end, |out|, kind) == None
    ensures ManifestFor(out, kind) == None
  {
    OutsideNotParsed(out);
  }

  lemma {:induction false} PastEnd(y: Info, base: nat, size: nat, end: nat)
    requires y.abs + y.bytes == end < U64 && size < end
    ensures !SpanOk(y, base, size)
  {
  }

  lemma {:induction false} OutputConfig(file: seq<byte>, kind: Classifier, j: Job)
    requires Ready(file, kind, j) && Matching(j)
    ensures var config := ExpertConfig(TablesOf(NewMeta(j).kvs, 24));
      && config == ExpertConfig(TablesOf(j.meta.kvs, 24)) && config.Some? && config.value.1 == j.m.nExperts
      && Accepts(j.m.tensors, j.m.dataOffset, |file|, config.value.0, j.m.nExperts)
    ensures AlignmentOf(TablesOf(NewMeta(j).kvs, 24)) == PAGE && PowerOfTwo(PAGE)
  {
    ConfigUsed(file, kind, j);
    RewriteKeepsKeys(j.meta.kvs, 24);
    ConfigKept(TablesOf(j.meta.kvs, 24), TablesOf(NewMeta(j).kvs, 24));
    AlignedKvsFacts(j.meta.kvs, 24);
    PageIsPower();
  }

  lemma {:induction false} NotBuilt(meta: Meta, end: nat, size: nat, kind: Classifier, base: nat, xs: seq<Info>, nExperts: int,
                                    n: nat, i: nat)
    requires Ascending(meta.tensors) && AlignmentOf(TablesOf(meta.kvs, 24)) == PAGE && base == Padded(end)
    requires var config := ExpertConfig(TablesOf(meta.kvs, 24)); config.Some? && config.value.1 == nExperts
    requires n == |meta.tensors| && xs == Infos(meta.tensors, n, base, size, nExperts, kind)
    requires i < |xs| && !SpanOk(xs[i], base, size)
    ensures BuildOf(meta, end, size, kind) == None
  {
    SortIdentity(meta.tensors);
    AlignUpPage(end);
  }

  /** A lone tensor behind the end is registered with a span that wraps around. */
  lemma {:induction false} LoneInfo(file: seq<byte>, kind: Classifier, j: Job)
    requires Ready(file, kind, j) && Matching(j) && !EndsInside(j) && |j.m.tensors| == 1
    ensures Readable(file, Pieces(j))
    ensures var y, size := NewInfos(file, kind, j)[0], |Output(file, j)|;
      && y.kind == j.m.tensors[0].kind != Routed && y.abs == Base(j) && size < Base(j) < size + 4096
      && y.bytes == U64 + size - Base(j)
  {
    assert Readable(file, Pieces(j)) by { PiecesChain(file, j); }
    var ts, size := NewMeta(j).tensors, |Output(file, j)|;
    assert ts[0].relOffset == 0 && ts[0].name == j.meta.tensors[0].name by { NewTensor(j, 0); }
    assert j.m.tensors[0].kind == kind(ts[0].name) != Routed by { LoneKind(file, kind, j); }
    assert size < Base(j) < size + 4096 && Base(j) < U64 by { LoneSize(file, j, size); }
    WrappedInfo(ts, Base(j), size, j.m.nExperts, kind);
  }

  lemma {:induction false} WrappedInfo(ts: seq<Tensor>, base: nat, size: nat, nExperts: int, kind: Classifier)
    requires |ts| == 1 && ts[0].relOffset == 0 && size < base < U64
    ensures var y := InfoOf(ts, 0, base, size, nExperts, kind);
      y.kind == kind(ts[0].name) && y.abs == base && y.bytes == U64 + size - base
  {
  }

  lemma {:induction false} LoneKind(file: seq<byte>, kind: Classifier, j: Job)
    requires Ready(file, kind, j) && Matching(j) && !EndsInside(j) && |j.m.tensors| == 1
    ensures j.m.tensors[0].kind == kind(j.meta.tensors[0].name) != Routed
  {
    assert j.m.tensors[0].bytes == 0 by { CutShort(file, j); }
    assert j.m.tensors[0].kind == kind(j.meta.tensors[0].name) by { ReadyInfos(file, kind, j); }
    assert InfoOk(j.m.tensors[0], j.m.nExperts) by { ConfigUsed(file, kind, j); }
  }

  lemma {:induction false} LoneSize(file: seq<byte>, j: Job, size: nat)
    requires Laid(file, j) && Matching(j) && !EndsInside(j) && |j.m.tensors| == 1 && Readable(file, Pieces(j))
    requires size == |Output(file, j)|
    ensures size < Base(j) < size + 4096 && Base(j) < U64
  {
    var h := HeadLen(j);
    assert size < PieceOf(j, 0).to == Base(j) by { CutShort(file, j); }
    assert Base(j) < U64 by { TargetRange(file, j, 0); }
    assert Base(j) < h + 4096 by { BasePlain(file, j); PaddedAbove(h); }
    assert h <= size by { PiecesChain(file, j); OutputHead(file, j); }
  }

  lemma {:induction false} LoneRegistered(file: seq<byte>, kind: Classifier, j: Job)
    requires Ready(file, kind, j) && Matching(j) && !EndsInside(j) && |j.m.tensors| == 1
    ensures Readable(file, Pieces(j)) && JobOf(Output(file, j), kind) == Some(NewJob(file, kind, j))
  {
    assert Readable(file, Pieces(j)) by { PiecesChain(file, j); }
    var out, m, ys, end := Output(file, j), NewMeta(j), NewInfos(file, kind, j), HeadLen(j);
    OutputConfig(file, kind, j);
    var experts := ExpertConfig(TablesOf(m.kvs, 24)).value.0;
    assert Accepts(ys, Base(j), |out|, experts, j.m.nExperts) by {
      LoneInfo(file, kind, j);
      LoneAccepted(j.m.tensors, ys, j.m.dataOffset, |file|, Base(j), |out|, experts, j.m.nExperts);
    }
    assert BuildOf(m, end, |out|, kind) == Some(NewJob(file, kind, j).m) by {
      assert Base(j) == Padded(end) by { BasePlain(file, j); }
      NewOrder(file, j);
      BuiltFrom(m, end, |out|, kind, Base(j), ys, experts, j.m.nExperts);
    }
    assert ParseMeta(out) == Some((m, end)) by { OutputParses(file, j); }
    JobFrom(out, kind, m, end, NewJob(file, kind, j).m);
  }

  lemma {:induction false} LoneAccepted(xs: seq<Info>, ys: seq<Info>, dataOffset: nat, size: nat, base: nat, size': nat,
                                        experts: bool, nExperts: int)
    requires |xs| == |ys| == 1 && Accepts(xs, dataOffset, size, experts, nExperts)
    requires xs[0].kind == ys[0].kind != Routed && ys[0].abs == base > size' && ys[0].bytes == U64 + size' - base
    ensures Accepts(ys, base, size', experts, nExperts)
  {
    CountSame(xs, ys, IsRouted, IsRouted);
  }

  /** Preparing such an output once more fails while copying. */
  lemma {:induction false} LoneFails(file: seq<byte>, kind: Classifier, available: nat, j: Job)
    requires Ready(file, kind, j) && Matching(j) && !EndsInside(j) && |j.m.tensors| == 1
    ensures Readable(file, Pieces(j))
    ensures Expected(Output(file, j), kind, available, true) == if available < NewSize(j) then NoSpace else CopyFailed
  {
    assert Readable(file, Pieces(j)) by { PiecesChain(file, j); }
    var out, again := Output(file, j), NewJob(file, kind, j);
    assert JobOf(out, kind) == Some(again) by { LoneRegistered(file, kind, j); }
    assert Ascending(again.meta.tensors) by { NewOrder(file, j); }
    assert |out| <= NewSize(again) == NewSize(j) by { LoneLayout(file, kind, j); }
    assert again.m.tensors[0].abs > |out| && again.m.tensors[0].bytes > 0 by { LoneInfo(file, kind, j); }
    CannotCopy(out, kind, available, again);
  }

  lemma {:induction false} CannotCopy(out: seq<byte>, kind: Classifier, available: nat, again: Job)
    requires JobOf(out, kind) == Some(again) && Ascending(again.meta.tensors) && |out| <= NewSize(again)
    requires |again.m.tensors| == 1 && again.m.tensors[0].abs > |out| && again.m.tensors[0].bytes > 0
    ensures Expected(out, kind, available, true) == if available < NewSize(again) then NoSpace else CopyFailed
  {
    ReadableTiles(out, again.m.tensors, again.m.dataOffset, Rels(Spans(again.m.tensors)), Base(again));
  }

  lemma {:induction false} LoneLayout(file: seq<byte>, kind: Classifier, j: Job)
    requires Ready(file, kind, j) && Matching(j) && !EndsInside(j) && |j.m.tensors| == 1
    ensures Readable(file, Pieces(j))
    ensures var again := NewJob(file, kind, j); NewSize(again) == NewSize(j) >= |Output(file, j)|
  {
    assert Readable(file, Pieces(j)) by { PiecesChain(file, j); }
    var again := NewJob(file, kind, j);
    var size, base := |Output(file, j)|, Base(j);
    assert size < base < size + 4096 && base < U64 by { LoneSize(file, j, size); }
    var y := again.m.tensors[0];
    assert j.m.tensors[0].bytes == 0 by { CutShort(file, j); }
    assert y.bytes == U64 + size - base by { LoneInfo(file, kind, j); }
    LoneSizes(j, again, y.bytes, base);
  }

  /** An empty span takes no room, and neither does one that wraps around from just behind the end. */
  lemma {:induction false} LoneSizes(j: Job, again: Job, span: nat, base: nat)
    requires Matching(j) && Matching(again) && again.meta == NewMeta(j) && again.metaEnd == HeadLen(j) && base == Base(j)
    requires Wide(j.meta.kvs) && |EncMeta(j.meta)| == j.metaEnd
    requires |j.m.tensors| == |again.m.tensors| == 1 && j.m.tensors[0].bytes == 0 && again.m.tensors[0].bytes == span
    requires U64 - 4096 < span < U64
    ensures NewSize(again) == NewSize(j) == base
  {
    var spans, spans' := Spans(j.m.tensors), Spans(again.m.tensors);
    NothingLaid(spans, 0);
    NothingLaid(spans', span);
    assert Base(again) == base by { SameHead(j, again); }
    assert NewSize(j) == Wrap(base + 0) by { SizeIs(j, base, 0); }
    assert NewSize(again) == Wrap(base + 0) by { SizeIs(again, base, 0); }
  }

  lemma {:induction false} NothingLaid(spans: seq<nat>, span: nat)
    requires spans == [span] && (span == 0 || U64 - 4096 < span < U64)
    ensures Rels(spans) == [0] && Rel(spans, 1) == 0
  {
  }

  // ---------------------------------------------------------------- two runs

  lemma {:induction false} FirstReady(file: seq<byte>, kind: Classifier, available: nat, j: Job)
    requires JobOf(file, kind) == Some(j) && j.meta.tensors != [] && Wide(j.meta.kvs) && NoOverflow(file, j.meta)
    requires Expected(file, kind, available, true) == Prepared
    ensures Matching(j) && Ready(file, kind, j) && Readable(file, Pieces(j))
    ensures Valid(Output(file, j), kind, j.m) && NewSize(j) <= available
  {
    PreparedMeans(file, kind, available, j);
    assert Proper(|file|, kind, j) by { JobProper(file, kind, j); }
    assert Tiles(j.m.tensors, j.m.dataOffset, |file|) by { ReadableIffTiled(file, kind, j); }
    ProperLaid(file, kind, j);
    ValidOnlyIfPatchable(file, kind, j);
  }

  /** What a successful run has checked. */
  lemma {:induction false} PreparedMeans(file: seq<byte>, kind: Classifier, available: nat, j: Job)
    requires JobOf(file, kind) == Some(j) && Expected(file, kind, available, true) == Prepared
    ensures Matching(j) && Ascending(j.meta.tensors) && |file| <= NewSize(j) <= available
    ensures Readable(file, Pieces(j)) && Valid(Output(file, j), kind, j.m)
  {
  }

  /** The closing validation finds an alignment of 4096 only if the source's could be patched. */
  lemma {:induction false} ValidOnlyIfPatchable(file: seq<byte>, kind: Classifier, j: Job)
    requires Laid(file, j) && Wide(j.meta.kvs)
    ensures Matching(j) && Readable(file, Pieces(j))
    ensures Valid(Output(file, j), kind, j.m) ==> Patchable(j.meta.kvs)
  {
    OutputParses(file, j);
    FoundOrInvalid(Output(file, j), kind, j.m, NewMeta(j), HeadLen(j));
    MetaKept(j, NewMeta(j));
  }

  lemma {:induction false} FoundOrInvalid(out: seq<byte>, kind: Classifier, m: Manifest, meta: Meta, end: nat)
    requires ParseMeta(out) == Some((meta, end))
    ensures Valid(out, kind, m) ==> AlignmentOf(TablesOf(meta.kvs, 24)) == PAGE
  {
    OutsideNotParsed(out);
  }

  /** A successful run followed by another one on its output: with two or more tensors, or whenever the
      output ends with the last tensor, the second run succeeds and writes the same bytes. The only
      exception is a lone empty tensor that would need a gap before it. */
  lemma {:induction false} PreparedTwice(file: seq<byte>, kind: Classifier, available: nat, j: Job)
    requires JobOf(file, kind) == Some(j) && j.meta.tensors != [] && Wide(j.meta.kvs) && NoOverflow(file, j.meta)
    requires Expected(file, kind, available, true) == Prepared
    ensures Matching(j) && Ready(file, kind, j) && Readable(file, Pieces(j))
    ensures |j.m.tensors| >= 2 ==> EndsInside(j)
    ensures var out, again := Output(file, j), NewJob(file, kind, j);
      if EndsInside(j) then
        && Expected(out, kind, available, true) == Prepared
        && JobOf(out, kind) == Some(again) && Readable(out, Pieces(again)) && Output(out, again) == out
      else Expected(out, kind, available, true) == CopyFailed
  {
    FirstReady(file, kind, available, j);
    var out, again := Output(file, j), NewJob(file, kind, j);
    if EndsInside(j) {
      Idempotent(file, kind, j);
      SecondOutcome(file, kind, available, j);
      assert Valid(out, kind, again.m);
    } else if |j.m.tensors| >= 2 {
      GapRejected(file, kind, j);
    } else {
      LoneFails(file, kind, available, j);
    }
  }
}
