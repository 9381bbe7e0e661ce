/** Expert slices in a prepared file: when they keep their stride and content, what the final validation
    decides, and why validated slices can be read directly. */
module PreparedSlices {
  import opened Bytes
  import opened GgufFormat
  import opened GgufReader
  import opened MetaPatch
  import opened Registry
  import opened Repack
  import opened Prepare
  import opened PreparedFile
  import opened PreparedAgain

  lemma {:induction false} SliceOfSpan(out: seq<byte>, file: seq<byte>, p: Piece, at: nat, n: nat)
    requires Holds(out, file, p) && p.span > 0 && at + n <= p.span
    ensures p.from + at + n <= |file| && p.to + at + n <= |out|
    ensures out[p.to + at..p.to + at + n] == file[p.from + at..p.from + at + n]
  {
    SubSlice(out, p.to, p.to + p.span, at, at + n);
    SubSlice(file, p.from, p.from + p.span, at, at + n);
  }

  lemma {:induction false} QuotientIs(s: nat, q: nat, n: nat)
    requires n > 0 && q * n <= s < q * n + n
    ensures s / n == q
  {
    var d := s / n;
    assert d * n <= s < d * n + n;
    if d < q { MulStep(d, q, n); }
    if q < d { MulStep(q, d, n); }
  }

  /** The padded span of a routed tensor that consists of whole-page slices is the span itself. */
  lemma {:induction false} SlicesNeedNoPadding(n: nat, p: nat)
    requires Aligned(p)
    ensures Padded(n * p) == n * p
  {
    AlignedOffset(0, n, p);
    PaddedIff(n * p);
  }

  /** `x` and `y` describe routed tensor `i` in the source and in the prepared file. */
  ghost predicate RoutedPair(file: seq<byte>, kind: Classifier, j: Job, i: nat, x: Info, y: Info) {
    && Ready(file, kind, j) && Matching(j) && j.m.tensors != [] && EndsInside(j) && i < |j.m.tensors|
    && Readable(file, Pieces(j)) && j.m.nExperts > 0
    && x == j.m.tensors[i] && y == NewInfos(file, kind, j)[i] && x.kind == Routed
  }

  lemma {:induction false} PairFacts(file: seq<byte>, kind: Classifier, j: Job, i: nat, x: Info, y: Info)
    requires RoutedPair(file, kind, j, i, x, y)
    ensures y.kind == Routed && y.abs == PieceOf(j, i).to
    ensures y.bytes == (if i + 1 < |j.m.tensors| then Padded(x.bytes) else x.bytes)
    ensures x.perExpert == x.bytes / j.m.nExperts && y.perExpert == y.bytes / j.m.nExperts
  {
    assert x.perExpert == x.bytes / j.m.nExperts by { ReadyInfos(file, kind, j); }
    assert y.perExpert == if y.kind == Routed then y.bytes / j.m.nExperts else 0 by { NewPerExpert(file, kind, j, i, y); }
    assert y.kind == Routed && y.abs == PieceOf(j, i).to
      && y.bytes == (if i + 1 < |j.m.tensors| then Padded(x.bytes) else x.bytes) by {
      NewInfo(file, kind, j, i);
    }
  }

  lemma {:induction false} NewPerExpert(file: seq<byte>, kind: Classifier, j: Job, i: nat, y: Info)
    requires Matching(j) && Readable(file, Pieces(j)) && i < |j.m.tensors| && j.m.nExperts > 0
    requires y == NewInfos(file, kind, j)[i]
    ensures y.perExpert == if y.kind == Routed then y.bytes / j.m.nExperts else 0
  {
  }

  lemma {:induction false} PairAligned(file: seq<byte>, kind: Classifier, j: Job, i: nat, y: Info)
    requires Ready(file, kind, j) && Matching(j) && EndsInside(j) && i < |j.m.tensors|
    requires Readable(file, Pieces(j)) && y == NewInfos(file, kind, j)[i]
    ensures Aligned(y.abs)
  {
    var p := TargetOf(file, j, i);
    assert y.abs == p.to by { NewInfo(file, kind, j, i); }
  }

  lemma {:induction false} TargetOf(file: seq<byte>, j: Job, i: nat) returns (p: Piece)
    requires Laid(file, j) && Matching(j) && i < |j.m.tensors|
    ensures p == PieceOf(j, i) && Aligned(p.to)
  {
    p := PieceOf(j, i);
    TensorKept(file, j, i);
  }

  lemma {:induction false} PairHeld(file: seq<byte>, kind: Classifier, j: Job, i: nat, x: Info, y: Info, out: seq<byte>)
    requires RoutedPair(file, kind, j, i, x, y) && out == Output(file, j)
    ensures Holds(out, file, Piece(x.abs, x.bytes, y.abs))
  {
    assert PieceOf(j, i) == Piece(x.abs, x.bytes, y.abs) by { NewInfo(file, kind, j, i); }
    assert Holds(out, file, PieceOf(j, i)) by { TensorKept(file, j, i); }
  }

  /** A routed tensor made of one whole-page slice per expert keeps its stride. */
  lemma {:induction false} WholePageStride(x: Info, y: Info, n: nat, p: nat, last: bool)
    requires n > 0 && x.bytes == n * p && Aligned(p) && y.bytes == (if last then x.bytes else Padded(x.bytes))
    requires x.perExpert == x.bytes / n && y.perExpert == y.bytes / n
    ensures y.perExpert == x.perExpert == p && y.bytes == x.bytes
  {
    SlicesNeedNoPadding(n, p);
    Commuted(n, p);
    QuotientIs(x.bytes, p, n);
  }

  lemma {:induction false} Commuted(a: nat, b: nat)
    ensures a * b == b * a
  {
  }

  /** A routed tensor made of one whole-page slice per expert keeps stride and content: slice `e` of the
      prepared file, `at` bytes into the tensor, is slice `e` of the source. */
  lemma {:induction false} SlicesKept(file: seq<byte>, kind: Classifier, j: Job, i: nat, x: Info, y: Info, p: nat, e: nat, at: nat, out: seq<byte>)
    requires RoutedPair(file, kind, j, i, x, y) && out == Output(file, j)
    requires x.bytes == j.m.nExperts * p && p > 0 && Aligned(p) && e < j.m.nExperts && at == e * p
    ensures y.perExpert == x.perExpert == p && y.bytes == x.bytes
    ensures x.abs + at + p <= |file| && y.abs + at + p <= |out|
    ensures out[y.abs + at..y.abs + at + p] == file[x.abs + at..x.abs + at + p]
  {
    PairFacts(file, kind, j, i, x, y);
    WholePageStride(x, y, j.m.nExperts, p, i + 1 == |j.m.tensors|);
    PairHeld(file, kind, j, i, x, y, out);
    SliceMoved(file, out, x, y, j.m.nExperts, p, e, at);
  }

  lemma {:induction false} SliceMoved(file: seq<byte>, out: seq<byte>, x: Info, y: Info, n: nat, p: nat, e: nat, at: nat)
    requires Holds(out, file, Piece(x.abs, x.bytes, y.abs)) && x.bytes == n * p && p > 0 && e < n && at == e * p
    ensures x.abs + at + p <= |file| && y.abs + at + p <= |out|
    ensures out[y.abs + at..y.abs + at + p] == file[x.abs + at..x.abs + at + p]
  {
    MulStep(e, n, p);
    SliceOfSpan(out, file, Piece(x.abs, x.bytes, y.abs), at, p);
  }

  lemma {:induction false} QuotientKept(s: nat, pad: nat, n: nat)
    requires n > 0
    ensures (s + pad) / n == s / n <==> s % n + pad < n
  {
    var q, r := s / n, s % n;
    assert s == q * n + r;
    if r + pad < n {
      QuotientIs(s + pad, q, n);
    } else {
      var d := (s + pad) / n;
      assert d * n <= s + pad < d * n + n;
    }
  }

  /** Exactly when the registry's stride survives: always for the last tensor, which is not padded, and
      otherwise if the padding stays inside the last, incomplete stride. */
  lemma {:induction false} StrideKeptIff(file: seq<byte>, kind: Classifier, j: Job, i: nat, x: Info, y: Info)
    requires RoutedPair(file, kind, j, i, x, y)
    ensures y.perExpert == x.perExpert <==>
      i + 1 == |j.m.tensors| || x.bytes % j.m.nExperts + (Padded(x.bytes) - x.bytes) < j.m.nExperts
  {
    PairFacts(file, kind, j, i, x, y);
    StrideIff(x, y, j.m.nExperts, i + 1 == |j.m.tensors|);
  }

  lemma {:induction false} StrideIff(x: Info, y: Info, n: nat, last: bool)
    requires n > 0 && y.bytes == (if last then x.bytes else Padded(x.bytes))
    requires x.perExpert == x.bytes / n && y.perExpert == y.bytes / n
    ensures y.perExpert == x.perExpert <==> last || x.bytes % n + (Padded(x.bytes) - x.bytes) < n
  {
    PaddedAbove(x.bytes);
    QuotientKept(x.bytes, Padded(x.bytes) - x.bytes, n);
  }


  lemma {:induction false} Shifted(x: Info, y: Info)
    requires y.kind == Routed && Aligned(y.abs) && x.bytes == 8160 && y.bytes == Padded(x.bytes)
    requires x.perExpert == x.bytes / 2 && y.perExpert == y.bytes / 2
    ensures IsAllAligned(y) && y.perExpert == 4096 && x.perExpert == 4080
  {
  }

  // ---------------------------------------------------------------- the validation

  lemma {:induction false} CountNone(xs: seq<Info>, p: Info -> bool)
    ensures Count(xs, p) == 0 <==> forall i :: 0 <= i < |xs| ==> !p(xs[i])
  {
    if xs != [] {
      var n := |xs| - 1;
      CountNone(xs[..n], p);
      assert forall i :: 0 <= i < n ==> xs[..n][i] == xs[i];
    }
  }

  /** Counts over tensors that all start on page borders. */
  lemma {:induction false} AlignedCounts(ys: seq<Info>)
    requires forall i :: 0 <= i < |ys| ==> Aligned(ys[i].abs)
    ensures var c := CountsOf(ys);
      && c.misaligned == 0 && c.uniform == 0
      && (c.scattered == 0 && c.allAligned == c.routed <==>
            PageStrides(ys))
  {
    CountNone(ys, IsMisaligned);
    CountNone(ys, IsUniform);
    CountNone(ys, IsScattered);
    if PageStrides(ys) {
      CountSame(ys, ys, IsAllAligned, IsRouted);
    }
  }

  /** Every expert stride is a multiple of a page. */
  ghost predicate PageStrides(ys: seq<Info>) {
    forall i :: 0 <= i < |ys| && IsRouted(ys[i]) ==> Aligned(ys[i].perExpert)
  }

  /** The program's final verdict is OK exactly if the alignment could be patched, every expert stride of the
      prepared file is a multiple of a page, and no tensor reaches into a gap at the end. */
  lemma {:induction false} VerdictIff(file: seq<byte>, kind: Classifier, j: Job)
    requires Laid(file, j) && Registered(|file|, kind, j) && Matching(j) && Wide(j.meta.kvs)
    ensures Readable(file, Pieces(j))
    ensures Valid(Output(file, j), kind, j.m) <==>
      Patchable(j.meta.kvs) && (EndsInside(j) || |j.m.tensors| == 1) && PageStrides(NewInfos(file, kind, j))
  {
    ValidOnlyIfPatchable(file, kind, j);
    if !Patchable(j.meta.kvs) { return; }
    if EndsInside(j) {
      OutputRegistered(file, kind, j);
      VerdictFrom(file, kind, j);
    } else if |j.m.tensors| == 1 {
      LoneRegistered(file, kind, j);
      VerdictFrom(file, kind, j);
    } else {
      GapRejected(file, kind, j);
    }
  }

  lemma {:induction false} VerdictFrom(file: seq<byte>, kind: Classifier, j: Job)
    requires Ready(file, kind, j) && Matching(j) && Readable(file, Pieces(j)) && (EndsInside(j) || |j.m.tensors| == 1)
    requires JobOf(Output(file, j), kind) == Some(NewJob(file, kind, j))
    ensures Valid(Output(file, j), kind, j.m) <==> PageStrides(NewInfos(file, kind, j))
  {
    var ys := NewInfos(file, kind, j);
    VerdictCounts(file, kind, j, ys);
    VerdictOf(Output(file, j), kind, j.m, NewJob(file, kind, j));
  }

  lemma {:induction false} VerdictCounts(file: seq<byte>, kind: Classifier, j: Job, ys: seq<Info>)
    requires Ready(file, kind, j) && Matching(j) && Readable(file, Pieces(j)) && (EndsInside(j) || |j.m.tensors| == 1)
    requires ys == NewInfos(file, kind, j)
    ensures var c := CountsOf(ys);
      && c.routed == j.m.counts.routed && c.misaligned == 0 && c.uniform == 0
      && (c.scattered == 0 && c.allAligned == c.routed <==> PageStrides(ys))
  {
    var xs := j.m.tensors;
    forall i | 0 <= i < |ys| ensures Aligned(ys[i].abs) && (IsRouted(xs[i]) <==> IsRouted(ys[i])) {
      if EndsInside(j) {
        PairAligned(file, kind, j, i, ys[i]);
        NewInfo(file, kind, j, i);
      } else {
        LoneInfo(file, kind, j);
        BasePlain(file, j);
      }
    }
    AlignedCounts(ys);
    CountSame(xs, ys, IsRouted, IsRouted);
    SourceCounts(file, kind, j);
  }

  /** The validation cannot notice a moved stride: two slices of 4080 bytes become two of 4096, which count as
      aligned although the second one now starts 16 bytes late. */
  lemma {:induction false} ValidatedButShifted(file: seq<byte>, kind: Classifier, j: Job, i: nat, x: Info, y: Info)
    requires RoutedPair(file, kind, j, i, x, y) && i + 1 < |j.m.tensors| && j.m.nExperts == 2 && x.bytes == 8160
    requires var xs := j.m.tensors; forall k :: 0 <= k < |xs| && k != i ==> xs[k].kind != Routed
    ensures y.perExpert == 4096 && x.perExpert == 4080 && Valid(Output(file, j), kind, j.m)
  {
    PairFacts(file, kind, j, i, x, y);
    PairAligned(file, kind, j, i, y);
    Shifted(x, y);
    var ys := NewInfos(file, kind, j);
    forall k | 0 <= k < |ys| && IsRouted(ys[k]) ensures Aligned(ys[k].perExpert) {
      if k != i { NewInfo(file, kind, j, k); }
    }
    VerdictIff(file, kind, j);
  }

  lemma {:induction false} SourceCounts(file: seq<byte>, kind: Classifier, j: Job)
    requires Registered(|file|, kind, j)
    ensures j.m.counts == CountsOf(j.m.tensors)
  {
  }

  lemma {:induction false} VerdictOf(out: seq<byte>, kind: Classifier, m: Manifest, o: Job)
    requires JobOf(out, kind) == Some(o) && o.m.ioAlignment == PAGE
    ensures Valid(out, kind, m) <==>
      var c := o.m.counts;
      c.routed == m.counts.routed && c.misaligned == 0 && c.uniform == 0 && c.scattered == 0 && c.allAligned == c.routed
  {
  }

  lemma {:induction false} OutputTiles(file: seq<byte>, kind: Classifier, j: Job)
    requires Ready(file, kind, j) && Matching(j) && EndsInside(j)
    ensures Readable(file, Pieces(j)) && Tiles(NewInfos(file, kind, j), Base(j), |Output(file, j)|)
  {
    assert Readable(file, Pieces(j)) by { PiecesChain(file, j); }
    var ps, ys, size := Pieces(j), NewInfos(file, kind, j), |Output(file, j)|;
    forall i | 0 <= i < |ps| ensures SpanAt(ys, ps, i) { SpanIs(file, kind, j, i, ps, ys); }
    assert size == Border(ps, |ps| - 1) by { OutputSize(file, j, ps, size); }
    var to, border := Targeted(file, j, 0, ps, Base(j));
    TilesFrom(ys, ps, Base(j), size);
  }

  /** Span `i` runs from its target to the border behind it. */
  ghost predicate SpanAt(ys: seq<Info>, ps: seq<Piece>, i: nat)
    requires i < |ys| == |ps|
  {
    && ys[i].abs == ps[i].to && ys[i].abs + ys[i].bytes == Border(ps, i)
    && (i + 1 < |ps| ==> ys[i].bytes > 0)
  }

  lemma {:induction false} TilesFrom(ys: seq<Info>, ps: seq<Piece>, base: nat, size: nat)
    requires |ys| == |ps| > 0 && base <= ps[0].to && size == Border(ps, |ps| - 1)
    requires forall i :: 0 <= i < |ps| ==> SpanAt(ys, ps, i)
    ensures Tiles(ys, base, size)
  {
    assert SpanAt(ys, ps, 0) && SpanAt(ys, ps, |ps| - 1);
    forall i | 0 <= i < |ys| - 1 ensures Meets(ys, i) { assert SpanAt(ys, ps, i) && SpanAt(ys, ps, i + 1); }
  }

  lemma {:induction false} SpanIs(file: seq<byte>, kind: Classifier, j: Job, i: nat, ps: seq<Piece>, ys: seq<Info>)
    requires Ready(file, kind, j) && Matching(j) && EndsInside(j) && i < |j.m.tensors|
    requires ps == Pieces(j) && Readable(file, ps) && ys == NewInfos(file, kind, j)
    ensures SpanAt(ys, ps, i)
  {
    var y, to, border := NewSpan(file, kind, j, i, ps);
    if i + 1 < |ps| { NextAfter(file, j, i, to, border); }
  }

  lemma {:induction false} NextAfter(file: seq<byte>, j: Job, i: nat, to: nat, border: nat)
    requires Laid(file, j) && Matching(j) && i + 1 < |j.m.tensors| && to == PieceOf(j, i).to && border == Border(Pieces(j), i)
    ensures to < border
  {
    PieceFacts(file, j, i);
    PaddedAbove(Pieces(j)[i].span);
  }

  /** In a file that passed validation, every expert slice can be read directly: it starts and ends on page
      borders inside the file. */
  lemma {:induction false} PreparedReadsLegal(file: seq<byte>, kind: Classifier, j: Job, i: nat, x: Info, y: Info, e: nat, out: seq<byte>)
    requires RoutedPair(file, kind, j, i, x, y) && out == Output(file, j) && Valid(out, kind, j.m) && e < j.m.nExperts
    ensures var off := y.abs + e * y.perExpert;
      Aligned(off) && Aligned(y.perExpert) && Base(j) <= off && off + y.perExpert <= |out|
  {
    PairFacts(file, kind, j, i, x, y);
    var m := NewManifest(file, kind, j);
    ReadsLegalIn(m, i, e, y);
  }

  lemma {:induction false} ReadsLegalIn(m: Manifest, i: nat, e: nat, y: Info)
    requires Tiles(m.tensors, m.dataOffset, m.fileSize) && m.counts == CountsOf(m.tensors)
    requires m.counts.allAligned == m.counts.routed && i < |m.tensors| && m.tensors[i] == y
    requires y.kind == Routed && m.nExperts > 0 && e < m.nExperts && y.perExpert == y.bytes / m.nExperts
    ensures var off := y.abs + e * y.perExpert;
      Aligned(off) && Aligned(y.perExpert) && m.dataOffset <= off && off + y.perExpert <= m.fileSize
  {
    SliceReadsLegal(m, i, e);
  }

  lemma {:induction false} NewManifest(file: seq<byte>, kind: Classifier, j: Job) returns (m: Manifest)
    requires Ready(file, kind, j) && Matching(j) && EndsInside(j) && Readable(file, Pieces(j))
    requires Valid(Output(file, j), kind, j.m)
    ensures m.tensors == NewInfos(file, kind, j) && m.dataOffset == Base(j) && m.fileSize == |Output(file, j)|
    ensures m.nExperts == j.m.nExperts && m.counts == CountsOf(m.tensors) && m.counts.allAligned == m.counts.routed
    ensures Tiles(m.tensors, m.dataOffset, m.fileSize)
  {
    OutputRegistered(file, kind, j);
    m := NewJob(file, kind, j).m;
    VerdictOf(Output(file, j), kind, j.m, NewJob(file, kind, j));
    OutputTiles(file, kind, j);
  }
}
