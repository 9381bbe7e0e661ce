/** Normalising a model file for direct reads: alignment raised to a page, spans repacked in directory
    order on page borders, and the result validated by the registry. */
module Prepare {
  import opened Bytes
  import opened GgufFormat
  import opened GgufRoundTrip
  import opened GgufReader
  import opened MetaPatch
  import opened Registry
  import opened Repack

  datatype Outcome = Rejected | ShortRead | Unsorted | TooSmall | NoSpace | CopyFailed | Invalid | Prepared

  /** A source file the registry accepted. */
  datatype Job = Job(meta: Meta, metaEnd: nat, m: Manifest)

  /** A manifest has one entry per directory entry. */
  ghost predicate Matching(j: Job) {
    |j.m.tensors| == |j.meta.tensors|
  }

  /** What the reader and the registry make of a file. */
  ghost function JobOf(file: seq<byte>, kind: Classifier): (r: Option<Job>)
    ensures r.Some? ==> Matching(r.value)
  {
    var p := ParseMeta(file);
    if p.None? || !PowerOfTwo(AlignmentOf(TablesOf(p.value.0.kvs, 24))) then None
    else
      var m := BuildOf(p.value.0, p.value.1, |file|, kind);
      if m.None? then None
      else
        BuiltFacts(p.value.0, p.value.1, |file|, kind, m.value);
        Some(Job(p.value.0, p.value.1, m.value))
  }

  /** Rounding up to a page in 64-bit arithmetic. */
  function PageUp(v: nat): nat {
    Wrap(v + 4095) / 4096 * 4096
  }

  /** New relative offset of tensor `i`: the padded spans before it. */
  function Rel(spans: seq<nat>, i: nat): (r: nat)
    requires i <= |spans|
    ensures r < U64
  {
    if i == 0 then 0 else Wrap(Rel(spans, i - 1) + PageUp(spans[i - 1]))
  }

  function Rels(spans: seq<nat>): (r: seq<nat>)
    ensures |r| == |spans|
  {
    seq(|spans|, i requires 0 <= i < |spans| => Rel(spans, i))
  }

  function Spans(xs: seq<Info>): (r: seq<nat>)
    ensures |r| == |xs|
  {
    seq(|xs|, i requires 0 <= i < |xs| => xs[i].bytes)
  }

  ghost function NewMeta(j: Job): Meta
    requires Matching(j)
  {
    Rewritten(j.meta, Rels(Spans(j.m.tensors)))
  }

  /** The new metadata section, byte by byte. */
  ghost function Head(j: Job): seq<byte>
    requires Matching(j)
  {
    PatchedMeta(j.meta, Rels(Spans(j.m.tensors)))
  }

  /** Its length: an alignment pair takes 33 bytes if one is inserted. */
  ghost function HeadLen(j: Job): nat {
    j.metaEnd + (if AlignIndex(j.meta.kvs) < 0 then 33 else 0)
  }

  /** Start of the new data section. */
  ghost function Base(j: Job): nat {
    PageUp(HeadLen(j))
  }

  ghost function NewSize(j: Job): nat
    requires Matching(j)
  {
    Wrap(Base(j) + Rel(Spans(j.m.tensors), |j.m.tensors|))
  }

  function PiecesAt(xs: seq<Info>, rel: seq<nat>, base: nat): (ps: seq<Piece>)
    requires |rel| == |xs|
    ensures |ps| == |xs|
  {
    seq(|xs|, i requires 0 <= i < |xs| => Piece(xs[i].abs, xs[i].bytes, Wrap(base + rel[i])))
  }

  ghost function Pieces(j: Job): (ps: seq<Piece>)
    requires Matching(j)
    ensures |ps| == |j.m.tensors|
  {
    PiecesAt(j.m.tensors, Rels(Spans(j.m.tensors)), Base(j))
  }

  /** The file that preparing produces. */
  ghost function Output(file: seq<byte>, j: Job): seq<byte>
    requires Matching(j) && Readable(file, Pieces(j))
  {
    Packed(file, Pieces(j), Head(j), |j.m.tensors|)
  }

  /** What the registry makes of a file, outside ends included. */
  ghost function ManifestFor(file: seq<byte>, kind: Classifier): Option<Manifest> {
    var job := JobOf(file, kind);
    if job.Some? then Some(job.value.m) else OutsideManifest(file, kind)
  }

  /** The final validation of the written file against the source's manifest. */
  ghost predicate Valid(out: seq<byte>, kind: Classifier, m: Manifest) {
    var o := ManifestFor(out, kind);
    && o.Some?
    && var c := o.value.counts;
       c.routed == m.counts.routed && c.misaligned == 0 && c.uniform == 0 && c.scattered == 0
       && c.allAligned == c.routed && o.value.ioAlignment == PAGE
  }

  /** Writing, copying and validating. */
  ghost function Finish(file: seq<byte>, kind: Classifier, writable: bool, j: Job): Outcome
    requires Matching(j)
  {
    if !writable || !Readable(file, Pieces(j)) then CopyFailed
    else if Valid(Output(file, j), kind, j.m) then Prepared
    else Invalid
  }

  /** The size checks. */
  ghost function Sized(file: seq<byte>, kind: Classifier, available: nat, writable: bool, j: Job): Outcome
    requires Matching(j)
  {
    if NewSize(j) < |file| then TooSmall
    else if available < NewSize(j) then NoSpace
    else Finish(file, kind, writable, j)
  }

  /** The order check. */
  ghost function Sorted(file: seq<byte>, kind: Classifier, available: nat, writable: bool, j: Job): Outcome
    requires Matching(j)
  {
    if !Ascending(j.meta.tensors) then Unsorted else Sized(file, kind, available, writable, j)
  }

  /** Every outcome, in the order in which the program finds out. */
  ghost function Expected(file: seq<byte>, kind: Classifier, available: nat, writable: bool): Outcome
  {
    var job := JobOf(file, kind);
    if job.Some? then Sorted(file, kind, available, writable, job.value)
    else if OutsideManifest(file, kind).Some? then ShortRead
    else Rejected
  }

  /** What the outcome tells of a source the reader and the registry accept: which check it failed first. */
  lemma {:induction false} OutcomeMeans(file: seq<byte>, kind: Classifier, available: nat, writable: bool, j: Job, o: Outcome,
                                        size: nat, disordered: bool, cut: bool)
    requires JobOf(file, kind) == Some(j) && o == Expected(file, kind, available, writable) && size == NewSize(j)
    requires disordered <==>
      exists a, b :: 0 <= a < b < |j.meta.tensors| && j.meta.tensors[a].relOffset > j.meta.tensors[b].relOffset
    requires cut <==>
      exists i :: 0 <= i < |j.m.tensors| && j.m.tensors[i].bytes > 0 && j.m.tensors[i].abs + j.m.tensors[i].bytes > |file|
    ensures if disordered then o == Unsorted
      else if size < |file| then o == TooSmall
      else if available < size then o == NoSpace
      else if !writable || cut then o == CopyFailed
      else o == Prepared || o == Invalid
    ensures o == Prepared || o == Invalid ==>
      Readable(file, Pieces(j)) && (o == Prepared <==> Valid(Output(file, j), kind, j.m))
  {
    assert Ascending(j.meta.tensors) <==> !disordered by { OrderIff(j.meta.tensors); }
    assert Readable(file, Pieces(j)) <==> !cut by { CutIff(file, j.m.tensors, Rels(Spans(j.m.tensors)), Base(j)); }
  }

  lemma {:induction false} OrderIff(ts: seq<Tensor>)
    ensures Ascending(ts) <==> forall a, b :: 0 <= a < b < |ts| ==> ts[a].relOffset <= ts[b].relOffset
  {
    if Ascending(ts) {
      forall a, b | 0 <= a < b < |ts| ensures ts[a].relOffset <= ts[b].relOffset { assert NotAfter(ts, a, b); }
    }
  }

  lemma {:induction false} CutIff(file: seq<byte>, xs: seq<Info>, rel: seq<nat>, base: nat)
    requires |rel| == |xs|
    ensures Readable(file, PiecesAt(xs, rel, base)) <==>
      forall i :: 0 <= i < |xs| ==> xs[i].bytes == 0 || xs[i].abs + xs[i].bytes <= |file|
  {
    var ps := PiecesAt(xs, rel, base);
    forall i | 0 <= i < |xs| ensures ps[i].from == xs[i].abs && ps[i].span == xs[i].bytes { }
  }

  // ---------------------------------------------------------------- the layout

  lemma {:induction false} PageUpPlain(v: nat)
    requires v + 4096 <= U64
    ensures PageUp(v) == Padded(v) && v <= PageUp(v) < v + 4096 && Aligned(PageUp(v))
  {
  }

  lemma {:induction false} RelNext(spans: seq<nat>, i: nat, span: nat)
    requires 0 < i <= |spans| && span == spans[i - 1]
    ensures Rel(spans, i) == Wrap(Rel(spans, i - 1) + PageUp(span))
  {
  }

  /** Without overflow the offsets are plain sums of padded spans, on page borders, and padding adds less
      than a page per tensor. */
  lemma {:induction false} RelPlain(xs: seq<Info>, dataOffset: nat, fileSize: nat, i: nat)
    requires Tiles(xs, dataOffset, fileSize) && i <= |xs| && fileSize + 4096 * (|xs| + 2) < U64 && xs != []
    ensures var rest := if i < |xs| then fileSize - xs[i].abs else 0;
      0 <= rest && Rel(Spans(xs), i) + rest <= fileSize - dataOffset + 4096 * i
    ensures Aligned(Rel(Spans(xs), i))
    ensures i > 0 ==> Rel(Spans(xs), i) == Rel(Spans(xs), i - 1) + Padded(xs[i - 1].bytes)
    decreases i
  {
    if i < |xs| { TilesDisjoint(xs, dataOffset, fileSize, i, i); }
    if i > 0 {
      RelPlain(xs, dataOffset, fileSize, i - 1);
      var x := xs[i - 1];
      assert x.abs + x.bytes == (if i < |xs| then xs[i].abs else fileSize) <= fileSize by {
        if i < |xs| { assert Meets(xs, i - 1); }
      }
      RelNext(Spans(xs), i, x.bytes);
      RelAdds(Rel(Spans(xs), i - 1), x.bytes, Rel(Spans(xs), i), fileSize - x.abs, fileSize - dataOffset, i);
    }
  }

  /** One more span of `bytes` bytes, with `rest` bytes of the file still to come in front of it and `size`
      bytes in all. */
  lemma {:induction false} RelAdds(r: nat, bytes: nat, r': nat, rest: int, size: int, i: int)
    requires Aligned(r) && r' == Wrap(r + PageUp(bytes)) && bytes <= rest
    requires r + rest <= size + 4096 * (i - 1) && size + 4096 * i <= U64
    ensures r' == r + Padded(bytes) && Aligned(r') && r' + (rest - bytes) <= size + 4096 * i
  {
    AddPadded(r, bytes, r');
  }

  lemma {:induction false} AddPadded(r: nat, bytes: nat, r': nat)
    requires Aligned(r) && r + bytes + 4096 <= U64 && r' == Wrap(r + PageUp(bytes))
    ensures r' == r + Padded(bytes) && Aligned(r') && r' < r + bytes + 4096
  {
    PageUpPlain(bytes);
    AlignedSum(r, PageUp(bytes));
  }

  /** The registry made the manifest from the metadata of a file of `size` bytes. */
  ghost predicate Registered(size: nat, kind: Classifier, j: Job) {
    Matching(j) && j.metaEnd <= size && BuildOf(j.meta, j.metaEnd, size, kind) == Some(j.m)
  }

  /** What is known of a job that came from a file of `size` bytes. */
  ghost predicate Proper(size: nat, kind: Classifier, j: Job) {
    Registered(size, kind, j) && MetaOk(j.meta) && j.metaEnd == |EncMeta(j.meta)|
  }

  /** Well-formed metadata in front of tensors that are listed in order and tile the file, with sizes that
      stay clear of 64-bit overflow. */
  ghost predicate Laid(file: seq<byte>, j: Job) {
    && Matching(j) && j.meta.tensors != [] && MetaOk(j.meta) && |EncMeta(j.meta)| == j.metaEnd <= j.m.dataOffset
    && Ascending(j.meta.tensors) && Tiles(j.m.tensors, j.m.dataOffset, |file|) && NoOverflow(file, j.meta)
  }

  /** A source that can be prepared: the alignment comes out as 4096 as well. */
  ghost predicate Ready(file: seq<byte>, kind: Classifier, j: Job) {
    Laid(file, j) && Registered(|file|, kind, j) && Patchable(j.meta.kvs)
  }

  /** The new metadata is the encoding of the rewritten content. */
  lemma {:induction false} HeadIs(j: Job)
    requires Matching(j) && Wide(j.meta.kvs)
    ensures Head(j) == EncMeta(NewMeta(j))
  {
  }

  lemma {:induction false} HeadSize(j: Job)
    requires Matching(j) && |EncMeta(j.meta)| == j.metaEnd
    ensures |Head(j)| == HeadLen(j)
  {
    var m, rel := j.meta, Rels(Spans(j.m.tensors));
    if Wide(m.kvs) {
      RewrittenSize(m, rel);
    } else {
      MetaParts([], m);
      MetaParts([], Halfway(m, rel, |rel|));
      MovedSize(m.tensors, Moved(m.tensors, rel, |rel|));
    }
  }

  ghost predicate NoOverflow(file: seq<byte>, meta: Meta) {
    |file| + 4096 * (|meta.tensors| + 2) < U64
  }

  /** A file that the reader and the registry accept gives a proper job and starts with its metadata. */
  lemma {:induction false} JobProper(file: seq<byte>, kind: Classifier, j: Job)
    requires JobOf(file, kind) == Some(j)
    ensures Proper(|file|, kind, j) && EncMeta(j.meta) <= file
  {
    ParsedFacts(file, j.meta, j.metaEnd);
  }

  /** Such a file is laid out if its directory is in order and all spans lie in it. */
  lemma {:induction false} ProperLaid(file: seq<byte>, kind: Classifier, j: Job)
    requires Proper(|file|, kind, j) && j.meta.tensors != [] && Ascending(j.meta.tensors)
    requires NoOverflow(file, j.meta) && Tiles(j.m.tensors, j.m.dataOffset, |file|)
    ensures Laid(file, j)
  {
    BuiltFacts(j.meta, j.metaEnd, |file|, kind, j.m);
  }

  lemma {:induction false} ParsedFacts(file: seq<byte>, meta: Meta, metaEnd: nat)
    requires ParseMeta(file) == Some((meta, metaEnd))
    ensures MetaOk(meta) && EncMeta(meta) <= file && metaEnd == |EncMeta(meta)|
  {
    MetaSound(file);
    AtSlice(file, 0, EncMeta(meta));
  }

  lemma {:induction false} BuiltFacts(meta: Meta, metaEnd: nat, fileSize: nat, kind: Classifier, m: Manifest)
    requires BuildOf(meta, metaEnd, fileSize, kind) == Some(m)
    ensures m.fileSize == fileSize && metaEnd <= m.dataOffset && |m.tensors| == |meta.tensors|
    ensures var sorted := SortByOffset(meta.tensors);
      m.tensors == Infos(sorted, |sorted|, m.dataOffset, fileSize, m.nExperts, kind)
    ensures exists experts :: Accepts(m.tensors, m.dataOffset, fileSize, experts, m.nExperts)
  {
    SortedAscending(meta.tensors);
    AlignUpAbove(metaEnd, AlignmentOf(TablesOf(meta.kvs, 24)));
  }

  lemma {:induction false} AlignUpPage(v: nat)
    ensures AlignUp(v, PAGE) == Padded(v)
  {
  }

  lemma {:induction false} JobFacts(file: seq<byte>, kind: Classifier, j: Job)
    requires Registered(|file|, kind, j)
    ensures Matching(j) && j.m.fileSize == |file| && j.metaEnd <= j.m.dataOffset
    ensures var sorted := SortByOffset(j.meta.tensors);
      j.m.tensors == Infos(sorted, |sorted|, j.m.dataOffset, |file|, j.m.nExperts, kind)
  {
    BuiltFacts(j.meta, j.metaEnd, |file|, kind, j.m);
  }

  lemma {:induction false} ReadyInfos(file: seq<byte>, kind: Classifier, j: Job)
    requires Registered(|file|, kind, j) && Ascending(j.meta.tensors)
    ensures Matching(j)
    ensures j.m.tensors == Infos(j.meta.tensors, |j.meta.tensors|, j.m.dataOffset, |file|, j.m.nExperts, kind)
  {
    JobFacts(file, kind, j);
    SortIdentity(j.meta.tensors);
  }

  /** The new data section starts on a page border and everything fits in 64 bits. */
  lemma {:induction false} BasePlain(file: seq<byte>, j: Job)
    requires Laid(file, j)
    ensures Matching(j) && HeadLen(j) <= Base(j) == Padded(HeadLen(j)) && Aligned(Base(j))
    ensures Base(j) + Rel(Spans(j.m.tensors), |j.m.tensors|) == NewSize(j)
  {
    var end, n := HeadLen(j), |j.m.tensors|;
    assert j.m.dataOffset <= |file| by { TilesDisjoint(j.m.tensors, j.m.dataOffset, |file|, 0, 0); }
    PageUpPlain(end);
    assert Rel(Spans(j.m.tensors), n) <= |file| - j.m.dataOffset + 4096 * n by {
      RelPlain(j.m.tensors, j.m.dataOffset, |file|, n);
    }
  }

  lemma {:induction false} RelMonotone(xs: seq<Info>, dataOffset: nat, fileSize: nat, i: nat, n: nat)
    requires Tiles(xs, dataOffset, fileSize) && i <= n <= |xs| && fileSize + 4096 * (|xs| + 2) < U64 && xs != []
    ensures Rel(Spans(xs), i) <= Rel(Spans(xs), n)
    decreases n
  {
    if i < n {
      RelMonotone(xs, dataOffset, fileSize, i, n - 1);
      RelPlain(xs, dataOffset, fileSize, n);
    }
  }

  lemma {:induction false} TargetPlain(xs: seq<Info>, dataOffset: nat, fileSize: nat, base: nat, i: nat)
    requires Tiles(xs, dataOffset, fileSize) && fileSize + 4096 * (|xs| + 2) < U64 && i < |xs|
    requires base + Rel(Spans(xs), |xs|) < U64
    ensures PiecesAt(xs, Rels(Spans(xs)), base)[i] == Piece(xs[i].abs, xs[i].bytes, base + Rel(Spans(xs), i))
  {
    var spans := Spans(xs);
    assert Rel(spans, i) <= Rel(spans, |xs|) by { RelMonotone(xs, dataOffset, fileSize, i, |xs|); }
    PieceAt(xs, spans, base, i);
  }

  lemma {:induction false} PieceAt(xs: seq<Info>, spans: seq<nat>, base: nat, i: nat)
    requires i < |xs| == |spans| && base + Rel(spans, i) < U64
    ensures PiecesAt(xs, Rels(spans), base)[i] == Piece(xs[i].abs, xs[i].bytes, base + Rel(spans, i))
  {
    RelsAt(spans, i);
    PieceFrom(xs, Rels(spans), base, i, Rel(spans, i));
  }

  lemma {:induction false} PieceFrom(xs: seq<Info>, rel: seq<nat>, base: nat, i: nat, r: nat)
    requires i < |xs| == |rel| && rel[i] == r && base + r < U64
    ensures PiecesAt(xs, rel, base)[i] == Piece(xs[i].abs, xs[i].bytes, base + r)
  {
  }

  lemma {:induction false} RelsAt(spans: seq<nat>, i: nat)
    requires i < |spans|
    ensures Rels(spans)[i] == Rel(spans, i)
  {
  }

  lemma {:induction false} TargetAligned(xs: seq<Info>, dataOffset: nat, fileSize: nat, base: nat, i: nat)
    requires Tiles(xs, dataOffset, fileSize) && fileSize + 4096 * (|xs| + 2) < U64 && i < |xs|
    requires Aligned(base)
    ensures Aligned(base + Rel(Spans(xs), i))
  {
    RelPlain(xs, dataOffset, fileSize, i);
    AlignedSum(base, Rel(Spans(xs), i));
  }

  /** Where each piece goes: targets are page borders. */
  lemma {:induction false} LayoutPlain(xs: seq<Info>, dataOffset: nat, fileSize: nat, base: nat, i: nat, ps: seq<Piece>)
    requires Tiles(xs, dataOffset, fileSize) && fileSize + 4096 * (|xs| + 2) < U64 && i < |xs|
    requires Aligned(base) && base + Rel(Spans(xs), |xs|) < U64 && ps == PiecesAt(xs, Rels(Spans(xs)), base)
    ensures ps[i] == Piece(xs[i].abs, xs[i].bytes, base + Rel(Spans(xs), i)) && Aligned(ps[i].to)
    ensures ps[i].from + ps[i].span <= fileSize
  {
    var to := base + Rel(Spans(xs), i);
    assert Aligned(to) by { TargetAligned(xs, dataOffset, fileSize, base, i); }
    assert ps[i] == Piece(xs[i].abs, xs[i].bytes, to) by { TargetPlain(xs, dataOffset, fileSize, base, i); }
    assert xs[i].abs + xs[i].bytes <= fileSize by { TilesDisjoint(xs, dataOffset, fileSize, i, i); }
  }

  /** Each target is the padded end of the span before it. */
  lemma {:induction false} LayoutNext(xs: seq<Info>, dataOffset: nat, fileSize: nat, base: nat, i: nat, ps: seq<Piece>)
    requires Tiles(xs, dataOffset, fileSize) && fileSize + 4096 * (|xs| + 2) < U64 && i + 1 < |xs|
    requires base + Rel(Spans(xs), |xs|) < U64 && ps == PiecesAt(xs, Rels(Spans(xs)), base)
    ensures ps[i].span > 0 && ps[i + 1].to == ps[i].to + Padded(ps[i].span)
  {
    var r, r', span := Neighbours(xs, dataOffset, fileSize, base, i, i + 1, ps);
  }

  lemma {:induction false} Neighbours(xs: seq<Info>, dataOffset: nat, fileSize: nat, base: nat, i: nat, k: nat, ps: seq<Piece>)
    returns (r: nat, r': nat, span: nat)
    requires Tiles(xs, dataOffset, fileSize) && fileSize + 4096 * (|xs| + 2) < U64 && i + 1 == k < |xs|
    requires base + Rel(Spans(xs), |xs|) < U64 && ps == PiecesAt(xs, Rels(Spans(xs)), base)
    ensures ps[i].to == base + r && ps[i].span == span > 0 && ps[k].to == base + r' && r' == r + Padded(span)
  {
    r, span := Placed(xs, dataOffset, fileSize, base, i, ps);
    var span';
    r', span' := Placed(xs, dataOffset, fileSize, base, k, ps);
    RelStep(xs, dataOffset, fileSize, i, k, r, r', span);
  }

  lemma {:induction false} Placed(xs: seq<Info>, dataOffset: nat, fileSize: nat, base: nat, i: nat, ps: seq<Piece>)
    returns (r: nat, span: nat)
    requires Tiles(xs, dataOffset, fileSize) && fileSize + 4096 * (|xs| + 2) < U64 && i < |xs|
    requires base + Rel(Spans(xs), |xs|) < U64 && ps == PiecesAt(xs, Rels(Spans(xs)), base)
    ensures r == Rel(Spans(xs), i) && span == xs[i].bytes && ps[i].to == base + r && ps[i].span == span
  {
    r, span := Rel(Spans(xs), i), xs[i].bytes;
    TargetPlain(xs, dataOffset, fileSize, base, i);
  }

  lemma {:induction false} RelStep(xs: seq<Info>, dataOffset: nat, fileSize: nat, i: nat, k: nat, r: nat, r': nat, bytes: nat)
    requires Tiles(xs, dataOffset, fileSize) && fileSize + 4096 * (|xs| + 2) < U64 && i + 1 == k < |xs|
    requires r == Rel(Spans(xs), i) && r' == Rel(Spans(xs), k) && bytes == xs[i].bytes
    ensures r' == r + Padded(bytes) && bytes > 0
  {
    assert Meets(xs, i);
    RelPlain(xs, dataOffset, fileSize, i + 1);
  }

  lemma {:induction false} LayoutChain(file: seq<byte>, xs: seq<Info>, dataOffset: nat, base: nat, h: nat)
    requires Tiles(xs, dataOffset, |file|) && |file| + 4096 * (|xs| + 2) < U64
    requires Aligned(base) && base + Rel(Spans(xs), |xs|) < U64 && h <= base
    ensures Readable(file, PiecesAt(xs, Rels(Spans(xs)), base)) && Chain(PiecesAt(xs, Rels(Spans(xs)), base), h)
  {
    var ps := PiecesAt(xs, Rels(Spans(xs)), base);
    forall i | 0 <= i < |xs|
      ensures ps[i].from + ps[i].span <= |file| && base <= ps[i].to
      ensures i + 1 < |xs| ==> ps[i].span > 0 && ps[i].to + ps[i].span <= ps[i + 1].to
    {
      LayoutPlain(xs, dataOffset, |file|, base, i, ps);
      if i + 1 < |xs| { LayoutNext(xs, dataOffset, |file|, base, i, ps); }
      PaddedAbove(ps[i].span);
    }
  }

  lemma {:induction false} PiecesChain(file: seq<byte>, j: Job)
    requires Laid(file, j)
    ensures Matching(j) && Readable(file, Pieces(j)) && Chain(Pieces(j), HeadLen(j)) && HeadLen(j) == |Head(j)|
  {
    BasePlain(file, j);
    HeadSize(j);
    LayoutChain(file, j.m.tensors, j.m.dataOffset, Base(j), HeadLen(j));
  }

  /** Where piece `i` goes and ends. */
  lemma {:induction false} PieceFacts(file: seq<byte>, j: Job, i: nat)
    requires Laid(file, j) && i < |j.m.tensors|
    ensures Matching(j)
    ensures var xs, p := j.m.tensors, Pieces(j)[i];
      && p == Piece(xs[i].abs, xs[i].bytes, Base(j) + Rel(Spans(xs), i)) && Aligned(p.to) && p.from + p.span <= |file|
      && (i + 1 < |xs| ==> p.span > 0)
      && Border(Pieces(j), i) == p.to + (if i + 1 < |xs| then Padded(p.span) else p.span)
  {
    BasePlain(file, j);
    LayoutPlain(j.m.tensors, j.m.dataOffset, |file|, Base(j), i, Pieces(j));
    if i + 1 < |j.m.tensors| { LayoutNext(j.m.tensors, j.m.dataOffset, |file|, Base(j), i, Pieces(j)); }
  }

  lemma {:induction false} BorderRange(file: seq<byte>, j: Job, i: nat)
    requires Laid(file, j) && i < |j.m.tensors|
    ensures Pieces(j)[i].to <= Border(Pieces(j), i) <= NewSize(j) < U64
  {
    var spans, n := Spans(j.m.tensors), |j.m.tensors|;
    var r, r', all := Rel(spans, i), Rel(spans, i + 1), Rel(spans, n);
    var p, b, size := Pieces(j)[i], Border(Pieces(j), i), NewSize(j);
    assert p.to == Base(j) + r && b == p.to + (if i + 1 < n then Padded(p.span) else p.span)
      && p.span == j.m.tensors[i].bytes by { PieceFacts(file, j, i); }
    assert r' == r + Padded(p.span) by { RelPlain(j.m.tensors, j.m.dataOffset, |file|, i + 1); }
    assert r' <= all by { RelMonotone(j.m.tensors, j.m.dataOffset, |file|, i + 1, n); }
    assert Base(j) + all == size by { BasePlain(file, j); }
    assert p.span <= Padded(p.span) by { PaddedAbove(p.span); }
  }

  // ---------------------------------------------------------------- the program

  lemma {:induction false} WrappedDelta(dataOffset: nat, a: nat, b: nat)
    requires dataOffset < U64 && a < U64 && b < U64
    ensures Wrap(Wrap(dataOffset + b) - Wrap(dataOffset + a)) == Wrap(b - a)
  {
  }

  /** Spans from the sorted layout, the last running to the end of the file. */
  method DeriveBytes(sorted: seq<Tensor>, dataOffset: nat, fileSize: nat, ghost nExperts: int, ghost kind: Classifier)
    returns (span: seq<nat>)
    requires (sorted != [] ==> dataOffset < U64) && forall i :: 0 <= i < |sorted| ==> sorted[i].relOffset < U64
    ensures span == Spans(Infos(sorted, |sorted|, dataOffset, fileSize, nExperts, kind))
  {
    span := [];
    for i := 0 to |sorted|
      invariant |span| == i
      invariant forall k :: 0 <= k < i ==> span[k] == InfoOf(sorted, k, dataOffset, fileSize, nExperts, kind).bytes
    {
      var bytes := DeriveSpan(sorted, i, dataOffset, fileSize, nExperts, kind);
      span := span + [bytes];
    }
  }

  method DeriveSpan(sorted: seq<Tensor>, i: nat, dataOffset: nat, fileSize: nat, ghost nExperts: int, ghost kind: Classifier)
    returns (bytes: nat)
    requires i < |sorted| && dataOffset < U64 && forall i :: 0 <= i < |sorted| ==> sorted[i].relOffset < U64
    ensures bytes == InfoOf(sorted, i, dataOffset, fileSize, nExperts, kind).bytes
  {
    var begin := Wrap(dataOffset + sorted[i].relOffset);
    bytes := Wrap(fileSize - begin);
    if i + 1 < |sorted| {
      bytes := Wrap(Wrap(dataOffset + sorted[i + 1].relOffset) - begin);
      WrappedDelta(dataOffset, sorted[i].relOffset, sorted[i + 1].relOffset);
    }
  }

  /** Whether the directory already lists its tensors by ascending offset. */
  method InOrder(sorted: seq<Tensor>, dir: seq<Tensor>) returns (ok: bool)
    requires sorted == SortByOffset(dir)
    ensures ok <==> Ascending(dir)
  {
    assert Ascending(sorted) && |sorted| == |dir| by { SortedAscending(dir); }
    for i := 0 to |dir|
      invariant sorted[..i] == dir[..i]
    {
      if sorted[i] != dir[i] {
        if Ascending(dir) { SortIdentity(dir); }
        return false;
      }
    }
    assert sorted == dir;
    ok := true;
  }

  /** The cumulative layout. */
  method LayOut(span: seq<nat>) returns (rel: seq<nat>, cursor: nat)
    ensures rel == Rels(span) && cursor == Rel(span, |span|)
  {
    rel, cursor := [], 0;
    for i := 0 to |span|
      invariant rel == Rels(span)[..i] && cursor == Rel(span, i)
    {
      rel := rel + [cursor];
      cursor := Wrap(cursor + PageUp(span[i]));
    }
  }

  /** Where the tensors start in the source. */
  ghost predicate Starts(xs: seq<Info>, sorted: seq<Tensor>, dataOffset: nat) {
    |xs| == |sorted| && forall i {:trigger xs[i]} :: 0 <= i < |xs| ==> xs[i].abs == Wrap(dataOffset + sorted[i].relOffset)
  }

  method MakePieces(sorted: seq<Tensor>, dataOffset: nat, span: seq<nat>, rel: seq<nat>, base: nat, ghost xs: seq<Info>)
    returns (ps: seq<Piece>)
    requires |span| == |rel| == |xs| && span == Spans(xs) && Starts(xs, sorted, dataOffset)
    ensures ps == PiecesAt(xs, rel, base)
  {
    ps := [];
    for i := 0 to |sorted|
      invariant ps == PiecesAt(xs, rel, base)[..i]
    {
      ps := ps + [Piece(Wrap(dataOffset + sorted[i].relOffset), span[i], Wrap(base + rel[i]))];
    }
  }

  lemma {:induction false} JobRanges(file: seq<byte>, kind: Classifier, j: Job)
    requires Proper(|file|, kind, j) && j.meta.tensors != []
    ensures j.m.dataOffset < U64 && forall i :: 0 <= i < |j.meta.tensors| ==> j.meta.tensors[i].relOffset < U64
  {
    BuiltFacts(j.meta, j.metaEnd, |file|, kind, j.m);
    assert SpanOk(j.m.tensors[0], j.m.dataOffset, |file|);
    AllOkIff(TensorOk, j.meta.tensors);
    Widths();
  }

  lemma {:induction false} TiledIff(file: seq<byte>, kind: Classifier, j: Job)
    requires Proper(|file|, kind, j) && j.meta.tensors != [] && Ascending(j.meta.tensors) && NoOverflow(file, j.meta)
    ensures var xs := j.m.tensors;
      Tiles(xs, j.m.dataOffset, |file|) <==> !(|xs| == 1 && xs[0].abs > |file|)
  {
    ReadyInfos(file, kind, j);
    JobRanges(file, kind, j);
    BuiltFacts(j.meta, j.metaEnd, |file|, kind, j.m);
    var experts :| Accepts(j.m.tensors, j.m.dataOffset, |file|, experts, j.m.nExperts);
    AcceptedTilesIff(j.meta.tensors, j.m.dataOffset, |file|, experts, j.m.nExperts, kind);
  }

  lemma {:induction false} ReadableTiles(file: seq<byte>, xs: seq<Info>, dataOffset: nat, rel: seq<nat>, base: nat)
    requires |rel| == |xs|
    ensures Tiles(xs, dataOffset, |file|) ==> Readable(file, PiecesAt(xs, rel, base))
    ensures |xs| == 1 && xs[0].abs > |file| && xs[0].bytes > 0 ==> !Readable(file, PiecesAt(xs, rel, base))
  {
    var ps := PiecesAt(xs, rel, base);
    if Tiles(xs, dataOffset, |file|) {
      forall i | 0 <= i < |xs| ensures ps[i].from + ps[i].span <= |file| { TilesDisjoint(xs, dataOffset, |file|, i, i); }
    } else if |xs| == 1 {
      assert ps[0].from == xs[0].abs && ps[0].span == xs[0].bytes;
    }
  }

  lemma {:induction false} BehindTheEnd(file: seq<byte>, kind: Classifier, j: Job)
    requires Registered(|file|, kind, j) && Ascending(j.meta.tensors) && |j.m.tensors| == 1 && j.m.tensors[0].abs > |file|
    ensures j.m.tensors[0].bytes > 0
  {
    ReadyInfos(file, kind, j);
  }

  /** All spans can be read exactly if the tensors tile the file; only a single tensor behind the end of
      the file is accepted by the registry and cannot be copied. */
  lemma {:induction false} ReadableIffTiled(file: seq<byte>, kind: Classifier, j: Job)
    requires Proper(|file|, kind, j) && j.meta.tensors != [] && Ascending(j.meta.tensors) && NoOverflow(file, j.meta)
    ensures Readable(file, Pieces(j)) <==> Tiles(j.m.tensors, j.m.dataOffset, |file|)
  {
    TiledIff(file, kind, j);
    ReadableTiles(file, j.m.tensors, j.m.dataOffset, Rels(Spans(j.m.tensors)), Base(j));
    if |j.m.tensors| == 1 && j.m.tensors[0].abs > |file| { BehindTheEnd(file, kind, j); }
  }

  /** Opens the source twice, as manifest and as raw directory. */
  method Inspect(file: seq<byte>, kind: Classifier) returns (ok: bool, m: Manifest, rd: Reader, ghost j: Job)
    ensures ok <==> ManifestFor(file, kind).Some?
    ensures ok ==> rd.metaEnd > 0 && (rd.metaEnd <= |file| <==> JobOf(file, kind).Some?)
    ensures ok && rd.metaEnd <= |file| ==> JobOf(file, kind) == Some(j) && m == j.m && ReadAs(rd, j)
    ensures ok && rd.metaEnd <= |file| ==> Proper(|file|, kind, j) && EncMeta(j.meta) <= file
  {
    j := Job(Meta(0, [], []), 0, Manifest(0, 0, 0, 0, [], Counts(0, 0, 0, 0, 0)));
    rd := new Reader(file);
    ok, m := Register(file, kind);
    if !ok { return; }
    ok := rd.Open();
    if rd.metaEnd <= |file| {
      j := JobOf(file, kind).value;
      JobProper(file, kind, j);
    }
  }

  /** The reader holds the metadata of `j`. */
  ghost predicate ReadAs(rd: Reader, j: Job)
    reads rd
  {
    && rd.tables == TablesOf(j.meta.kvs, 24) && rd.kvEnd == 24 + |EncKvs(j.meta.kvs)|
    && rd.tensors == RawTensors(j.meta.tensors, rd.kvEnd) && rd.metaEnd == j.metaEnd && rd.dataOffset == j.m.dataOffset
  }

  method Register(file: seq<byte>, kind: Classifier) returns (ok: bool, m: Manifest)
    ensures ok <==> ManifestFor(file, kind).Some?
    ensures ok ==> ManifestFor(file, kind) == Some(m)
  {
    ok, m := Build(file, kind);
  }

  /** Spans, order check and new layout. */
  method PlanLayout(file: seq<byte>, kind: Classifier, raw: seq<RawTensor>, dataOffset: nat, fileSize: nat, ghost kvEnd: nat,
                    ghost j: Job)
    returns (ok: bool, sorted: seq<Tensor>, span: seq<nat>, rel: seq<nat>, cursor: nat)
    requires Proper(|file|, kind, j) && dataOffset == j.m.dataOffset && fileSize == |file|
    requires raw == RawTensors(j.meta.tensors, kvEnd)
    ensures Matching(j) && (ok <==> Ascending(j.meta.tensors))
    ensures ok ==> sorted == j.meta.tensors && span == Spans(j.m.tensors) && rel == Rels(span) && cursor == Rel(span, |span|)
  {
    rel, cursor := [], 0;
    assert Directory(raw) == j.meta.tensors by { DirectoryOfRaw(j.meta.tensors, kvEnd); }
    var dir := Directory(raw);
    sorted := SortByOffset(dir);
    SortedOffsets(file, kind, j);
    span := DeriveBytes(sorted, dataOffset, fileSize, j.m.nExperts, kind);
    ok := InOrder(sorted, dir);
    if !ok { return; }
    SortIdentity(dir);
    rel, cursor := LayOut(span);
  }

  lemma {:induction false} SortedOffsets(file: seq<byte>, kind: Classifier, j: Job)
    requires Proper(|file|, kind, j)
    ensures var sorted := SortByOffset(j.meta.tensors);
      && (sorted != [] ==> j.m.dataOffset < U64) && (forall i :: 0 <= i < |sorted| ==> sorted[i].relOffset < U64)
      && j.m.tensors == Infos(sorted, |sorted|, j.m.dataOffset, |file|, j.m.nExperts, kind)
  {
    JobFacts(file, kind, j);
    var sorted := SortByOffset(j.meta.tensors);
    SortedAscending(j.meta.tensors);
    if j.meta.tensors != [] { JobRanges(file, kind, j); }
    forall i | 0 <= i < |sorted| ensures sorted[i].relOffset < U64 {
      assert sorted[i] in multiset(j.meta.tensors);
    }
  }

  /** Writes the patched metadata and copies every tensor behind it. */
  method WriteOut(src: Stream, patched: seq<byte>, ps: seq<Piece>, writable: bool) returns (ok: bool, out: seq<byte>)
    requires src.healthy && patched != []
    modifies src`pos
    ensures ok <==> writable && Readable(src.content, ps)
    ensures ok && Chain(ps, |patched|) ==> out == Packed(src.content, ps, patched, |ps|)
  {
    var dst := new Stream([], writable);
    out := [];
    ok := dst.Write(patched);
    if !ok { return; }
    WriteAppends([], 0, patched);
    assert [] + Zeros(0) + patched == patched;
    ok := CopyAll(src, dst, ps);
    out := dst.content;
  }

  /** The registry's verdict on the written file. */
  method Validate(out: seq<byte>, kind: Classifier, m: Manifest) returns (ok: bool)
    ensures ok <==> Valid(out, kind, m)
  {
    var vm;
    ok, vm := Register(out, kind);
    if !ok { return; }
    ok := vm.counts.routed == m.counts.routed && vm.counts.misaligned == 0 && vm.counts.uniform == 0
          && vm.counts.scattered == 0 && vm.counts.allAligned == vm.counts.routed && vm.ioAlignment == PAGE;
  }

  /** The output starts with the new metadata. */
  lemma {:induction false} OutputHead(file: seq<byte>, j: Job)
    requires Laid(file, j)
    ensures Matching(j) && Readable(file, Pieces(j)) && Head(j) <= Output(file, j)
  {
    PiecesChain(file, j);
    HeadKept(file, Pieces(j), Head(j));
  }

  lemma {:induction false} PairRoom(j: Job)
    requires |EncMeta(j.meta)| + 1 < U64
    ensures |j.meta.kvs| + 1 < Pow256(8)
  {
    MetaParts([], j.meta);
    PairsTakeSpace(j.meta.kvs);
    Widths();
  }

  lemma {:induction false} NewMetaOk(j: Job)
    requires Matching(j) && MetaOk(j.meta) && |EncMeta(j.meta)| + 1 < U64
    ensures MetaOk(NewMeta(j))
  {
    PairRoom(j);
    Widths();
    RewrittenOk(j.meta, Rels(Spans(j.m.tensors)));
  }

  lemma {:induction false} HeadParses(out: seq<byte>, m: Meta)
    requires MetaOk(m) && EncMeta(m) <= out
    ensures ParseMeta(out) == Some((m, |EncMeta(m)|))
  {
    AtSlice(out, 0, EncMeta(m));
    MetaParts(out, m);
    HeaderComplete(out, m);
    MetaComplete(out, m);
  }

  /** The rewritten metadata is well-formed, so it parses back to exactly what was meant. */
  lemma {:induction false} OutputParses(file: seq<byte>, j: Job)
    requires Laid(file, j) && Wide(j.meta.kvs)
    ensures Matching(j) && Readable(file, Pieces(j))
    ensures ParseMeta(Output(file, j)) == Some((NewMeta(j), HeadLen(j)))
    ensures HeadLen(j) == |Head(j)| && Head(j) == EncMeta(NewMeta(j))
  {
    TilesDisjoint(j.m.tensors, j.m.dataOffset, |file|, 0, 0);
    NewMetaOk(j);
    OutputHead(file, j);
    HeadIs(j);
    HeadSize(j);
    HeadParses(Output(file, j), NewMeta(j));
  }

  /** Reads the metadata section and patches it. */
  method ReadAndPatch(src: Stream, kind: Classifier, metaEnd: nat, tables: Tables, kvEnd: nat, raw: seq<RawTensor>,
                      rel: seq<nat>, ghost j: Job)
    returns (ok: bool, patched: seq<byte>)
    requires src.healthy && src.pos == 0 && Proper(|src.content|, kind, j) && EncMeta(j.meta) <= src.content && AlignFits(j.meta)
    requires metaEnd == j.metaEnd && tables == TablesOf(j.meta.kvs, 24) && kvEnd == 24 + |EncKvs(j.meta.kvs)|
    requires raw == RawTensors(j.meta.tensors, kvEnd) && rel == Rels(Spans(j.m.tensors)) && Matching(j)
    modifies src`pos
    ensures ok && patched == Head(j) && patched != []
  {
    assert metaEnd >= 24 by { MetaParts([], j.meta); }
    assert |Head(j)| >= 24 by { HeadSize(j); }
    ghost var head := EncMeta(j.meta);
    ok, patched := ReadHead(src, metaEnd, head);
    patched := PatchMeta(patched, tables, kvEnd, raw, rel, j.meta);
  }

  method ReadHead(src: Stream, metaEnd: nat, ghost head: seq<byte>) returns (ok: bool, bytes: seq<byte>)
    requires src.healthy && src.pos == 0 && head <= src.content && metaEnd == |head| > 0
    modifies src`pos
    ensures ok && bytes == head
  {
    ok, bytes := src.Read(metaEnd);
  }

  /** Writes, copies and validates. */
  method Emit(src: Stream, kind: Classifier, m: Manifest, patched: seq<byte>, ps: seq<Piece>, writable: bool, ghost j: Job)
    returns (outcome: Outcome, out: seq<byte>)
    requires src.healthy && Proper(|src.content|, kind, j) && m == j.m
    requires Ascending(j.meta.tensors) && NoOverflow(src.content, j.meta)
    requires patched == Head(j) && patched != [] && ps == Pieces(j)
    modifies src`pos
    ensures outcome == Finish(src.content, kind, writable, j)
    ensures outcome != CopyFailed ==> Readable(src.content, Pieces(j)) && out == Output(src.content, j)
  {
    ghost var file := src.content;
    var ok;
    ok, out := WriteOut(src, patched, ps, writable);
    if !ok { return CopyFailed, out; }
    if j.meta.tensors != [] {
      assert Laid(file, j) by { ReadableIffTiled(file, kind, j); ProperLaid(file, kind, j); }
      assert Chain(ps, |patched|) by { PiecesChain(file, j); }
    }
    ok := Validate(out, kind, m);
    outcome := if ok then Prepared else Invalid;
  }

  lemma {:induction false} StartsOf(file: seq<byte>, kind: Classifier, j: Job, sorted: seq<Tensor>, xs: seq<Info>)
    requires Registered(|file|, kind, j) && Ascending(j.meta.tensors) && sorted == j.meta.tensors && xs == j.m.tensors
    ensures Starts(xs, sorted, j.m.dataOffset)
  {
    assert AreInfos(xs, sorted, j.m, |file|, kind) by { ReadyInfos(file, kind, j); }
    StartsIn(xs, sorted, j.m, |file|, kind);
  }

  ghost predicate AreInfos(xs: seq<Info>, sorted: seq<Tensor>, m: Manifest, size: nat, kind: Classifier) {
    xs == Infos(sorted, |sorted|, m.dataOffset, size, m.nExperts, kind)
  }

  lemma {:induction false} StartsIn(xs: seq<Info>, sorted: seq<Tensor>, m: Manifest, size: nat, kind: Classifier)
    requires AreInfos(xs, sorted, m, size, kind)
    ensures Starts(xs, sorted, m.dataOffset)
  {
  }

  method PiecesOf(ghost file: seq<byte>, ghost kind: Classifier, sorted: seq<Tensor>, dataOffset: nat, span: seq<nat>,
                  rel: seq<nat>, base: nat, ghost j: Job, ghost xs: seq<Info>)
    returns (ps: seq<Piece>)
    requires Registered(|file|, kind, j) && Ascending(j.meta.tensors) && sorted == j.meta.tensors && xs == j.m.tensors
    requires dataOffset == j.m.dataOffset && span == Spans(xs) && rel == Rels(span) && base == Base(j)
    ensures ps == Pieces(j)
  {
    StartsOf(file, kind, j, sorted, xs);
    ps := MakePieces(sorted, dataOffset, span, rel, base, xs);
    PiecesAre(j, xs, rel, base);
  }

  lemma {:induction false} PiecesAre(j: Job, xs: seq<Info>, rel: seq<nat>, base: nat)
    requires Matching(j) && xs == j.m.tensors && rel == Rels(Spans(xs)) && base == Base(j)
    ensures Pieces(j) == PiecesAt(xs, rel, base)
  {
  }

  lemma {:induction false} SizesAre(j: Job, patched: seq<byte>, cursor: nat, base: nat)
    requires Matching(j) && |patched| == HeadLen(j) && cursor == Rel(Spans(j.m.tensors), |j.m.tensors|)
    requires base == PageUp(|patched|)
    ensures base == Base(j) && Wrap(base + cursor) == NewSize(j)
  {
    assert base == Base(j);
    SizeIs(j, base, cursor);
  }

  lemma {:induction false} SizeIs(j: Job, base: nat, r: nat)
    requires Matching(j) && Base(j) == base && Rel(Spans(j.m.tensors), |j.m.tensors|) == r
    ensures NewSize(j) == Wrap(base + r)
  {
  }

  /** Size of the new file and where each span goes. */
  method Targets(ghost file: seq<byte>, ghost kind: Classifier, sorted: seq<Tensor>, dataOffset: nat, span: seq<nat>,
                 rel: seq<nat>, cursor: nat, patched: seq<byte>, ghost j: Job)
    returns (newSize: nat, ps: seq<Piece>)
    requires Proper(|file|, kind, j) && Ascending(j.meta.tensors) && sorted == j.meta.tensors
    requires patched == Head(j) && dataOffset == j.m.dataOffset
    requires span == Spans(j.m.tensors) && rel == Rels(span) && cursor == Rel(span, |span|)
    ensures newSize == NewSize(j) && ps == Pieces(j)
  {
    var base := PageUp(|patched|);
    newSize := Wrap(base + cursor);
    HeadSize(j);
    SizesAre(j, patched, cursor, base);
    ps := PiecesOf(file, kind, sorted, dataOffset, span, rel, base, j, j.m.tensors);
  }

  /** Checks the sizes, then emits. */
  method CheckSize(src: Stream, kind: Classifier, available: nat, writable: bool, m: Manifest, patched: seq<byte>,
                   newSize: nat, ps: seq<Piece>, ghost j: Job)
    returns (outcome: Outcome, out: seq<byte>)
    requires src.healthy && Proper(|src.content|, kind, j) && m == j.m
    requires Ascending(j.meta.tensors) && NoOverflow(src.content, j.meta)
    requires patched == Head(j) && patched != [] && ps == Pieces(j) && newSize == NewSize(j)
    modifies src`pos
    ensures outcome == Sized(src.content, kind, available, writable, j)
    ensures outcome == Prepared || outcome == Invalid ==>
      Readable(src.content, Pieces(j)) && out == Output(src.content, j)
  {
    out := [];
    if newSize < |src.content| { return TooSmall, out; }
    if available < newSize { return NoSpace, out; }
    outcome, out := Emit(src, kind, m, patched, ps, writable, j);
  }

  /** In front of a directory entry there is room for the four bytes. */
  lemma {:induction false} AlignFitsBefore(m: Meta)
    requires MetaOk(m) && m.tensors != []
    ensures AlignFits(m)
  {
    if AlignIndex(m.kvs) >= 0 {
      AllOkIff(KvOk, m.kvs);
      AlignInside(m.kvs);
      MetaParts([], m);
    }
  }

  /** The whole program. The source can be read throughout, and `writable` says whether writing the
      destination succeeds. A narrow alignment pair at the very end of a file without tensors is left out:
      there the program stores bytes behind its buffer. */
  method Prepare(file: seq<byte>, kind: Classifier, available: nat, writable: bool)
    returns (outcome: Outcome, out: seq<byte>)
    requires var j := JobOf(file, kind); j.Some? ==>
      NoOverflow(file, j.value.meta) && (j.value.meta.tensors == [] ==> AlignFits(j.value.meta))
    ensures outcome == Expected(file, kind, available, writable)
    ensures outcome == Prepared || outcome == Invalid ==>
      var j := JobOf(file, kind); j.Some? && Readable(file, Pieces(j.value)) && out == Output(file, j.value)
  {
    out := [];
    var ok, m, rd, j := Inspect(file, kind);
    if !ok { return Rejected, out; }
    if rd.metaEnd > |file| {
      // there are no tensors to lay out, and the metadata cannot be read in full
      var src := new Stream(file, true);
      var bytes;
      ok, bytes := src.Read(rd.metaEnd);
      return ShortRead, out;
    }
    if j.meta.tensors != [] { AlignFitsBefore(j.meta); }
    outcome, out := Rewrite(file, kind, available, writable, m, rd, j);
  }

  /** Everything after the source has been accepted. */
  method Rewrite(file: seq<byte>, kind: Classifier, available: nat, writable: bool, m: Manifest, rd: Reader, ghost j: Job)
    returns (outcome: Outcome, out: seq<byte>)
    requires Proper(|file|, kind, j) && EncMeta(j.meta) <= file && m == j.m && ReadAs(rd, j)
    requires AlignFits(j.meta) && NoOverflow(file, j.meta)
    ensures outcome == Sorted(file, kind, available, writable, j)
    ensures outcome == Prepared || outcome == Invalid ==> Readable(file, Pieces(j)) && out == Output(file, j)
  {
    out := [];
    var ok, sorted, span, rel, cursor := PlanLayout(file, kind, rd.tensors, rd.dataOffset, |file|, rd.kvEnd, j);
    if !ok { return Unsorted, out; }
    outcome, out := PatchAndPlace(file, kind, available, writable, m, rd, sorted, span, rel, cursor, j);
  }

  /** Patches the metadata and copies the spans of a directory in order. */
  method PatchAndPlace(file: seq<byte>, kind: Classifier, available: nat, writable: bool, m: Manifest, rd: Reader,
                       sorted: seq<Tensor>, span: seq<nat>, rel: seq<nat>, cursor: nat, ghost j: Job)
    returns (outcome: Outcome, out: seq<byte>)
    requires Proper(|file|, kind, j) && EncMeta(j.meta) <= file && m == j.m && ReadAs(rd, j)
    requires Ascending(j.meta.tensors) && AlignFits(j.meta) && NoOverflow(file, j.meta)
    requires sorted == j.meta.tensors && span == Spans(j.m.tensors) && rel == Rels(span) && cursor == Rel(span, |span|)
    ensures outcome == Sized(file, kind, available, writable, j)
    ensures outcome == Prepared || outcome == Invalid ==> Readable(file, Pieces(j)) && out == Output(file, j)
  {
    var src := new Stream(file, true);
    var ok, patched := ReadAndPatch(src, kind, rd.metaEnd, rd.tables, rd.kvEnd, rd.tensors, rel, j);
    var newSize, ps := Targets(file, kind, sorted, rd.dataOffset, span, rel, cursor, patched, j);
    outcome, out := CheckSize(src, kind, available, writable, m, patched, newSize, ps, j);
  }
}
