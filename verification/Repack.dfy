/** Copying tensor spans into a new file: seekable streams, the chunked copy, and what the packed file
    consists of. */
module Repack {
  import opened Bytes

  /** Size of the copy buffer. */
  const COPY_BYTES: nat := 0x80_0000

  /** A file after writing one byte; beyond the end a gap of zeros comes before it. */
  function WriteByte(f: seq<byte>, at: nat, v: byte): seq<byte> {
    if at < |f| then f[at := v] else f + Zeros(at - |f|) + [v]
  }

  /** A file after writing `data` at `at`. */
  function WriteAt(f: seq<byte>, at: nat, data: seq<byte>): seq<byte>
    decreases |data|
  {
    if data == [] then f else WriteByte(WriteAt(f, at, data[..|data| - 1]), at + |data| - 1, data[|data| - 1])
  }

  lemma {:induction false} WriteMore(f: seq<byte>, at: nat, a: seq<byte>, b: seq<byte>)
    ensures WriteAt(WriteAt(f, at, a), at + |a|, b) == WriteAt(f, at, a + b)
    decreases |b|
  {
    if b == [] {
      assert a + b == a;
    } else {
      WriteMore(f, at, a, b[..|b| - 1]);
      assert (a + b)[..|a + b| - 1] == a + b[..|b| - 1];
    }
  }

  /** A write at or past the end appends a gap of zeros and the data. */
  lemma {:induction false} WriteAppends(f: seq<byte>, at: nat, data: seq<byte>)
    requires |f| <= at && data != []
    ensures WriteAt(f, at, data) == f + Zeros(at - |f|) + data
    decreases |data|
  {
    var n := |data| - 1;
    assert data == data[..n] + [data[n]];
    if n > 0 {
      WriteAppends(f, at, data[..n]);
      assert Zeros(0) == [];
      assert f + Zeros(at - |f|) + data[..n] + [] + [data[n]] == f + Zeros(at - |f|) + data;
    }
  }

  /** A write inside the file replaces bytes. */
  lemma {:induction false} WriteInside(f: seq<byte>, at: nat, data: seq<byte>)
    requires at + |data| <= |f|
    ensures WriteAt(f, at, data) == Store(f, at, data)
    decreases |data|
  {
    if data != [] {
      var n := |data| - 1;
      WriteInside(f, at, data[..n]);
    }
  }

  /** A span to copy. */
  datatype Piece = Piece(from: nat, span: nat, to: nat)

  ghost predicate Readable(file: seq<byte>, ps: seq<Piece>) {
    forall i :: 0 <= i < |ps| ==> ps[i].span == 0 || ps[i].from + ps[i].span <= |file|
  }

  /** The bytes of each piece. */
  function Slices(file: seq<byte>, ps: seq<Piece>): (ds: seq<seq<byte>>)
    requires Readable(file, ps)
    ensures |ds| == |ps|
  {
    seq(|ps|, i requires 0 <= i < |ps| => Slice(file, ps[i].from, ps[i].span))
  }

  /** `f` with a gap of zeros up to `at` and `data` appended. */
  function Append(f: seq<byte>, at: nat, data: seq<byte>): seq<byte> {
    if data == [] then f else f + Zeros(if at > |f| then at - |f| else 0) + data
  }

  /** Blocks of data appended one after the other on top of `head`, each at the target of its piece. */
  function Stacked(ds: seq<seq<byte>>, ps: seq<Piece>, head: seq<byte>, k: nat): seq<byte>
    requires k <= |ds| == |ps|
  {
    if k == 0 then head else Append(Stacked(ds, ps, head, k - 1), ps[k - 1].to, ds[k - 1])
  }

  /** The output after the first `k` pieces. */
  function Packed(file: seq<byte>, ps: seq<Piece>, head: seq<byte>, k: nat): seq<byte>
    requires k <= |ps| && Readable(file, ps)
  {
    Stacked(Slices(file, ps), ps, head, k)
  }

  /** A file open for reading or writing; an unhealthy one fails at every transfer. */
  class Stream {
    var content: seq<byte>
    var pos: nat
    const healthy: bool

    constructor (content: seq<byte>, healthy: bool)
      ensures this.content == content && pos == 0 && this.healthy == healthy
    {
      this.content, pos, this.healthy := content, 0, healthy;
    }

    method Seek(to: nat)
      modifies this`pos
      ensures pos == to
    {
      pos := to;
    }

    method Read(n: nat) returns (ok: bool, data: seq<byte>)
      requires n > 0
      modifies this`pos
      ensures ok <==> healthy && old(pos) + n <= |content|
      ensures ok ==> pos == old(pos) + n && data == content[old(pos)..pos]
    {
      ok, data := healthy && pos + n <= |content|, [];
      if ok {
        data := content[pos..pos + n];
        pos := pos + n;
      }
    }

    method Write(data: seq<byte>) returns (ok: bool)
      modifies this`pos, this`content
      ensures ok <==> healthy
      ensures ok ==> content == WriteAt(old(content), old(pos), data) && pos == old(pos) + |data|
    {
      ok := healthy;
      if ok {
        content := WriteAt(content, pos, data);
        pos := pos + |data|;
      }
    }
  }

  lemma {:induction false} CopyMore(o: seq<byte>, f: seq<byte>, p: Piece, done: nat, chunk: nat)
    requires 0 < chunk && p.from + done + chunk <= |f|
    ensures WriteAt(WriteAt(o, p.to, Slice(f, p.from, done)), p.to + done, f[p.from + done..p.from + done + chunk])
      == WriteAt(o, p.to, Slice(f, p.from, done + chunk))
  {
    var a, b := Slice(f, p.from, done), f[p.from + done..p.from + done + chunk];
    WriteMore(o, p.to, a, b);
    assert a + b == Slice(f, p.from, done + chunk);
  }

  method CopyChunk(src: Stream, dst: Stream, p: Piece, done: nat, chunk: nat, ghost o: seq<byte>) returns (ok: bool)
    requires src != dst && chunk > 0 && src.pos == p.from + done && dst.pos == p.to + done
    requires done > 0 ==> p.from + done <= |src.content|
    requires dst.content == WriteAt(o, p.to, Slice(src.content, p.from, done))
    modifies src`pos, dst`pos, dst`content
    ensures ok <==> src.healthy && dst.healthy && p.from + done + chunk <= |src.content|
    ensures ok ==> dst.content == WriteAt(o, p.to, Slice(src.content, p.from, done + chunk))
                   && src.pos == p.from + done + chunk && dst.pos == p.to + done + chunk
  {
    var data;
    ok, data := src.Read(chunk);
    if !ok { return; }
    ok := dst.Write(data);
    if !ok { return; }
    CopyMore(o, src.content, p, done, chunk);
  }

  /** Copies one span chunk by chunk. */
  method CopySpan(src: Stream, dst: Stream, p: Piece) returns (ok: bool)
    requires src != dst
    modifies src`pos, dst`pos, dst`content
    ensures ok <==> p.span == 0 || (src.healthy && dst.healthy && p.from + p.span <= |src.content|)
    ensures ok ==> dst.content == WriteAt(old(dst.content), p.to, Slice(src.content, p.from, p.span))
  {
    dst.Seek(p.to);
    src.Seek(p.from);
    var left: nat, done: nat := p.span, 0;
    while left > 0
      invariant done + left == p.span && src.pos == p.from + done && dst.pos == p.to + done
      invariant done > 0 ==> src.healthy && dst.healthy && p.from + done <= |src.content|
      invariant dst.content == WriteAt(old(dst.content), p.to, Slice(src.content, p.from, done))
    {
      var chunk := if left < COPY_BYTES then left else COPY_BYTES;
      ok := CopyChunk(src, dst, p, done, chunk, old(dst.content));
      if !ok { return; }
      left, done := left - chunk, done + chunk;
    }
    ok := true;
  }

  /** Copies every span in directory order. */
  method CopyAll(src: Stream, dst: Stream, ps: seq<Piece>) returns (ok: bool)
    requires src != dst && src.healthy && dst.healthy
    modifies src`pos, dst`pos, dst`content
    ensures ok <==> Readable(src.content, ps)
    ensures ok && Chain(ps, |old(dst.content)|) ==> dst.content == Packed(src.content, ps, old(dst.content), |ps|)
  {
    ghost var chain := Chain(ps, |dst.content|);
    for i := 0 to |ps|
      invariant Readable(src.content, ps[..i])
      invariant forall k :: 0 <= k < i ==> ps[k].span == 0 || ps[k].from + ps[k].span <= |src.content|
      invariant chain ==> dst.content == Packed(src.content, ps[..i], old(dst.content), i)
    {
      ok := CopySpan(src, dst, ps[i]);
      if !ok { return; }
      if chain { PackedMore(src.content, ps, i, old(dst.content)); }
    }
    assert ps[..|ps|] == ps;
    ok := true;
  }

  lemma {:induction false} ChainPrefix(ps: seq<Piece>, h: nat, n: nat)
    requires Chain(ps, h) && n <= |ps|
    ensures Chain(ps[..n], h)
  {
    forall k | 0 <= k < n - 1 ensures Follows(ps[..n], k) { assert Follows(ps, k); }
  }

  lemma {:induction false} PackedMore(file: seq<byte>, ps: seq<Piece>, i: nat, head: seq<byte>)
    requires i < |ps| && Chain(ps, |head|) && Readable(file, ps[..i])
    requires ps[i].span == 0 || ps[i].from + ps[i].span <= |file|
    ensures Readable(file, ps[..i + 1])
    ensures WriteAt(Packed(file, ps[..i], head, i), ps[i].to, Slice(file, ps[i].from, ps[i].span))
      == Packed(file, ps[..i + 1], head, i + 1)
  {
    assert ps[..i + 1] == ps[..i] + [ps[i]];
    ChainPrefix(ps, |head|, i + 1);
    PackedWrite(file, ps[..i], ps[..i + 1], ps[i], head);
  }

  /** A write behind the earlier pieces is one more step of the packed file. */
  lemma {:induction false} PackedWrite(file: seq<byte>, ps: seq<Piece>, qs: seq<Piece>, p: Piece, head: seq<byte>)
    requires qs == ps + [p] && Chain(qs, |head|) && Readable(file, ps) && Readable(file, qs)
    requires p.span == 0 || p.from + p.span <= |file|
    ensures WriteAt(Packed(file, ps, head, |ps|), p.to, Slice(file, p.from, p.span)) == Packed(file, qs, head, |qs|)
  {
    var ds, ds', data := Slices(file, ps), Slices(file, qs), Slice(file, p.from, p.span);
    assert ds' == ds + [data];
    assert Fits(ds', qs) by { SlicesFit(file, qs); }
    StackedWrite(ds, ds', ps, qs, p, data, head);
  }

  lemma {:induction false} StackedWrite(ds: seq<seq<byte>>, ds': seq<seq<byte>>, ps: seq<Piece>, qs: seq<Piece>, p: Piece, data: seq<byte>,
                     head: seq<byte>)
    requires |ds| == |ps| && qs == ps + [p] && ds' == ds + [data] && Chain(qs, |head|) && Fits(ds', qs)
    ensures WriteAt(Stacked(ds, ps, head, |ps|), p.to, data) == Stacked(ds', qs, head, |qs|)
  {
    var e := Stacked(ds', qs, head, |ps|);
    assert Stacked(ds, ps, head, |ps|) == e by { StackedPrefix(ds, ds', ps, qs, head, |ps|); }
    assert |e| <= p.to by { StackedSize(ds', qs, head, |ps|); }
    var all := Stacked(ds', qs, head, |qs|);
    assert all == Append(e, p.to, data) by { StackedLast(ds', qs, head); }
    WriteIsAppend(e, p.to, data, all);
  }

  lemma {:induction false} StackedLast(ds: seq<seq<byte>>, ps: seq<Piece>, head: seq<byte>)
    requires ps != [] && |ds| == |ps|
    ensures Stacked(ds, ps, head, |ps|) == Append(Stacked(ds, ps, head, |ps| - 1), ps[|ps| - 1].to, ds[|ds| - 1])
  {
  }

  lemma {:induction false} WriteIsAppend(f: seq<byte>, at: nat, data: seq<byte>, r: seq<byte>)
    requires |f| <= at && r == Append(f, at, data)
    ensures WriteAt(f, at, data) == r
  {
    if data != [] { WriteAppends(f, at, data); }
  }

  lemma {:induction false} StackedPrefix(ds: seq<seq<byte>>, ds': seq<seq<byte>>, ps: seq<Piece>, qs: seq<Piece>,
                                         head: seq<byte>, k: nat)
    requires k <= |ps| == |ds| && |qs| == |ds'| && ps <= qs && ds <= ds'
    ensures Stacked(ds, ps, head, k) == Stacked(ds', qs, head, k)
  {
    if k > 0 { StackedPrefix(ds, ds', ps, qs, head, k - 1); }
  }

  // ---------------------------------------------------------------- the packed file

  ghost predicate Follows(ps: seq<Piece>, i: nat)
    requires i + 1 < |ps|
  {
    ps[i].span > 0 && ps[i].to + ps[i].span <= ps[i + 1].to
  }

  /** Pieces whose targets follow each other behind `h` bytes; only the last may be empty. */
  ghost predicate Chain(ps: seq<Piece>, h: nat) {
    && (ps != [] ==> h <= ps[0].to)
    && (forall i :: 0 <= i < |ps| - 1 ==> Follows(ps, i))
  }

  /** Size of the packed file. */
  function Extent(ps: seq<Piece>, h: nat, k: nat): nat
    requires k <= |ps|
  {
    if k == 0 then h else if ps[k - 1].span == 0 then Extent(ps, h, k - 1) else ps[k - 1].to + ps[k - 1].span
  }

  /** Each block has the size its piece announces. */
  ghost predicate Fits(ds: seq<seq<byte>>, ps: seq<Piece>) {
    |ds| == |ps| && forall i :: 0 <= i < |ds| ==> |ds[i]| == ps[i].span
  }

  lemma {:induction false} SlicesFit(file: seq<byte>, ps: seq<Piece>)
    requires Readable(file, ps)
    ensures Fits(Slices(file, ps), ps)
  {
  }

  lemma {:induction false} StackedSize(ds: seq<seq<byte>>, ps: seq<Piece>, head: seq<byte>, k: nat)
    requires k <= |ps| && Fits(ds, ps) && Chain(ps, |head|)
    ensures |Stacked(ds, ps, head, k)| == Extent(ps, |head|, k)
    ensures k < |ps| ==> Extent(ps, |head|, k) <= ps[k].to
  {
    if k > 0 {
      StackedSize(ds, ps, head, k - 1);
      assert k < |ps| ==> Follows(ps, k - 1);
    }
  }

  lemma {:induction false} PackedSize(file: seq<byte>, ps: seq<Piece>, head: seq<byte>, k: nat)
    requires k <= |ps| && Readable(file, ps) && Chain(ps, |head|)
    ensures |Packed(file, ps, head, k)| == Extent(ps, |head|, k)
    ensures k < |ps| ==> Extent(ps, |head|, k) <= ps[k].to
  {
    SlicesFit(file, ps);
    StackedSize(Slices(file, ps), ps, head, k);
  }

  /** Each step appends: what was written stays. */
  lemma {:induction false} StackedGrows(ds: seq<seq<byte>>, ps: seq<Piece>, head: seq<byte>, k: nat, n: nat)
    requires k <= n <= |ps| == |ds|
    ensures Stacked(ds, ps, head, k) <= Stacked(ds, ps, head, n)
    decreases n
  {
    if k < n {
      StackedGrows(ds, ps, head, k, n - 1);
      AppendGrows(Stacked(ds, ps, head, n - 1), ps[n - 1].to, ds[n - 1]);
      PrefixTransitive(Stacked(ds, ps, head, k), Stacked(ds, ps, head, n - 1), Stacked(ds, ps, head, n));
    }
  }

  lemma {:induction false} AppendGrows(f: seq<byte>, at: nat, data: seq<byte>)
    ensures f <= Append(f, at, data)
  {
  }

  lemma {:induction false} PrefixTransitive(a: seq<byte>, b: seq<byte>, c: seq<byte>)
    requires a <= b <= c
    ensures a <= c
  {
  }

  /** `out` goes on after its first `e` bytes with zeros up to `at` and then `data`. */
  ghost predicate Carries(out: seq<byte>, e: nat, at: nat, data: seq<byte>) {
    e <= at && at + |data| <= |out| && out[at..at + |data|] == data && out[e..at] == Zeros(at - e)
  }

  lemma {:induction false} AppendCarries(out: seq<byte>, f: seq<byte>, at: nat, data: seq<byte>)
    requires |f| <= at && data != [] && Append(f, at, data) <= out
    ensures Carries(out, |f|, at, data)
  {
    var w := Append(f, at, data);
    assert w[at..at + |data|] == data && w[|f|..at] == Zeros(at - |f|);
    assert out[..|w|] == w;
  }

  lemma {:induction false} BlockCarried(ds: seq<seq<byte>>, ps: seq<Piece>, head: seq<byte>, i: nat, out: seq<byte>, data: seq<byte>, e: nat)
    requires i < |ps| && Fits(ds, ps) && Chain(ps, |head|) && data == ds[i] != []
    requires out == Stacked(ds, ps, head, |ps|) && e == Extent(ps, |head|, i)
    ensures Carries(out, e, ps[i].to, data)
  {
    var f, at := Stacked(ds, ps, head, i), ps[i].to;
    assert |f| == e <= at by { StackedSize(ds, ps, head, i); }
    assert Append(f, at, data) <= out by { StackedGrows(ds, ps, head, i + 1, |ps|); }
    AppendCarries(out, f, at, data);
  }

  /** In the finished file each piece holds its source bytes and is preceded by zeros only. */
  lemma {:induction false} PieceCarried(file: seq<byte>, ps: seq<Piece>, head: seq<byte>, i: nat, out: seq<byte>, data: seq<byte>)
    requires i < |ps| && Readable(file, ps) && Chain(ps, |head|) && ps[i].span > 0
    requires out == Packed(file, ps, head, |ps|) && data == file[ps[i].from..ps[i].from + ps[i].span]
    ensures Carries(out, Extent(ps, |head|, i), ps[i].to, data)
  {
    var ds := Slices(file, ps);
    assert Fits(ds, ps) by { SlicesFit(file, ps); }
    assert ds[i] == data;
    BlockCarried(ds, ps, head, i, out, data, Extent(ps, |head|, i));
  }

  /** `out` holds the source bytes of a piece at its target. */
  ghost predicate Holds(out: seq<byte>, file: seq<byte>, p: Piece) {
    p.span > 0 ==>
      && p.from + p.span <= |file| && p.to + p.span <= |out|
      && out[p.to..p.to + p.span] == file[p.from..p.from + p.span]
  }

  lemma {:induction false} PieceHeld(file: seq<byte>, ps: seq<Piece>, head: seq<byte>, i: nat, out: seq<byte>)
    requires i < |ps| && Readable(file, ps) && Chain(ps, |head|) && out == Packed(file, ps, head, |ps|)
    ensures Holds(out, file, ps[i])
  {
    var p := ps[i];
    if p.span > 0 { PieceCarried(file, ps, head, i, out, file[p.from..p.from + p.span]); }
  }

  lemma {:induction false} HeadKept(file: seq<byte>, ps: seq<Piece>, head: seq<byte>)
    requires Readable(file, ps)
    ensures head <= Packed(file, ps, head, |ps|)
  {
    StackedGrows(Slices(file, ps), ps, head, 0, |ps|);
  }

  // ---------------------------------------------------------------- packing a packed file

  /** Where piece `i` ends in the packed file: at the next piece, or at the end of the file. */
  function Border(ps: seq<Piece>, i: nat): nat
    requires i < |ps|
  {
    if i + 1 < |ps| then ps[i + 1].to else ps[i].to + ps[i].span
  }

  /** The pieces of the packed file: each stays where it is and takes in the gap behind it. */
  function Again(ps: seq<Piece>): (qs: seq<Piece>)
    ensures |qs| == |ps|
  {
    seq(|ps|, i requires 0 <= i < |ps| =>
      Piece(ps[i].to, if ps[i].to <= Border(ps, i) then Border(ps, i) - ps[i].to else 0, ps[i].to))
  }

  lemma {:induction false} AgainAt(ps: seq<Piece>, i: nat, to: nat, border: nat)
    requires i < |ps| && ps[i].to == to <= border == Border(ps, i)
    ensures Again(ps)[i] == Piece(to, border - to, to)
  {
  }

  /** The last piece ends the file unless it is empty and a gap would come before it. */
  lemma {:induction false} EndIff(ps: seq<Piece>, h: nat)
    requires ps != [] && Chain(ps, h)
    ensures var n := |ps|;
      Extent(ps, h, n) == Border(ps, n - 1) <==>
        ps[n - 1].span > 0 || ps[n - 1].to == (if n == 1 then h else ps[n - 2].to + ps[n - 2].span)
  {
    if |ps| > 1 { assert Follows(ps, |ps| - 2); }
  }

  lemma {:induction false} WriteBack(out: seq<byte>, lo: nat, hi: nat)
    requires lo <= hi <= |out|
    ensures Append(out[..lo], lo, Slice(out, lo, hi - lo)) == out[..hi]
  {
    if lo < hi {
      assert out[..hi] == out[..lo] + Zeros(0) + out[lo..hi];
    }
  }

  /** The first piece: its gap is written again before it. */
  lemma {:induction false} WriteBackFirst(out: seq<byte>, head: seq<byte>, lo: nat, hi: nat)
    requires |head| <= lo <= hi <= |out| && head <= out && out[|head|..lo] == Zeros(lo - |head|)
    requires lo == hi ==> lo == |head|
    ensures Append(head, lo, Slice(out, lo, hi - lo)) == out[..hi]
  {
    if lo < hi {
      assert out[..hi] == out[..|head|] + out[|head|..lo] + out[lo..hi];
    } else {
      assert out[..hi] == head;
    }
  }

  lemma {:induction false} PackedAgainReadable(file: seq<byte>, ps: seq<Piece>, head: seq<byte>)
    requires ps != [] && Readable(file, ps) && Chain(ps, |head|)
    requires Extent(ps, |head|, |ps|) == Border(ps, |ps| - 1)
    ensures var out := Packed(file, ps, head, |ps|);
      && |out| == Border(ps, |ps| - 1) && Readable(out, Again(ps))
      && forall i :: 0 <= i < |ps| ==> ps[i].to <= Border(ps, i) <= |out|
  {
    PackedSize(file, ps, head, |ps|);
    BordersInside(ps, |head|);
  }

  lemma {:induction false} AgainStep(ps: seq<Piece>, out: seq<byte>, head: seq<byte>, k: nat)
    requires 0 < k <= |ps|
    requires Readable(out, Again(ps)) && ps[k - 1].to <= Border(ps, k - 1) <= |out|
    ensures Packed(out, Again(ps), head, k) ==
      Append(Packed(out, Again(ps), head, k - 1), ps[k - 1].to, Slice(out, ps[k - 1].to, Border(ps, k - 1) - ps[k - 1].to))
  {
    assert Again(ps)[k - 1] == Piece(ps[k - 1].to, Border(ps, k - 1) - ps[k - 1].to, ps[k - 1].to);
  }

  lemma {:induction false} NoEmptyBeforeLast(ps: seq<Piece>, h: nat)
    requires ps != [] && Chain(ps, h)
    ensures |ps| > 1 ==> ps[0].span > 0
  {
    assert |ps| > 1 ==> Follows(ps, 0);
  }

  lemma {:induction false} FirstFacts(file: seq<byte>, ps: seq<Piece>, head: seq<byte>)
    requires ps != [] && Readable(file, ps) && Chain(ps, |head|)
    requires Extent(ps, |head|, |ps|) == Border(ps, |ps| - 1)
    ensures var out := Packed(file, ps, head, |ps|);
      && Readable(out, Again(ps)) && |head| <= ps[0].to <= Border(ps, 0) <= |out| && head <= out
      && out[|head|..ps[0].to] == Zeros(ps[0].to - |head|)
      && (ps[0].to == Border(ps, 0) ==> ps[0].to == |head|)
  {
    PackedAgainReadable(file, ps, head);
    HeadKept(file, ps, head);
    if ps[0].span > 0 {
      assert |ps| > 1 ==> Follows(ps, 0);
      var p := ps[0];
      PieceCarried(file, ps, head, 0, Packed(file, ps, head, |ps|), file[p.from..p.from + p.span]);
    } else {
      NoEmptyBeforeLast(ps, |head|);
      assert Extent(ps, |head|, 1) == Extent(ps, |head|, 0);
    }
  }

  lemma {:induction false} FirstWritten(ps: seq<Piece>, head: seq<byte>, out: seq<byte>)
    requires ps != [] && Chain(ps, |head|) && Readable(out, Again(ps))
    requires |head| <= ps[0].to <= Border(ps, 0) <= |out| && head <= out
    requires out[|head|..ps[0].to] == Zeros(ps[0].to - |head|)
    requires ps[0].to == Border(ps, 0) ==> ps[0].to == |head|
    ensures Packed(out, Again(ps), head, 1) == out[..Border(ps, 0)]
  {
    AgainStep(ps, out, head, 1);
    WriteBackFirst(out, head, ps[0].to, Border(ps, 0));
  }

  /** Packing again puts every byte back where it is. */
  lemma {:induction false} RepackStep(file: seq<byte>, ps: seq<Piece>, head: seq<byte>, out: seq<byte>, k: nat)
    requires 0 < k <= |ps| && Readable(file, ps) && Chain(ps, |head|)
    requires Extent(ps, |head|, |ps|) == Border(ps, |ps| - 1) && out == Packed(file, ps, head, |ps|)
    ensures Border(ps, k - 1) <= |out| && Readable(out, Again(ps))
    ensures Packed(out, Again(ps), head, k) == out[..Border(ps, k - 1)]
  {
    if k == 1 {
      FirstFacts(file, ps, head);
      FirstWritten(ps, head, out);
    } else {
      RepackStep(file, ps, head, out, k - 1);
      assert ps[k - 1].to <= Border(ps, k - 1) <= |out| by { PackedAgainReadable(file, ps, head); }
      AgainStep(ps, out, head, k);
      WriteBack(out, ps[k - 1].to, Border(ps, k - 1));
    }
  }

  lemma {:induction false} BordersInside(ps: seq<Piece>, h: nat)
    requires ps != [] && Chain(ps, h)
    ensures forall i :: 0 <= i < |ps| ==> ps[i].to <= Border(ps, i) <= Border(ps, |ps| - 1)
  {
    forall i | 0 <= i < |ps| ensures ps[i].to <= Border(ps, i) <= Border(ps, |ps| - 1) { BorderInside(ps, h, i); }
  }

  lemma {:induction false} BorderInside(ps: seq<Piece>, h: nat, i: nat)
    requires i < |ps| && Chain(ps, h)
    ensures ps[i].to <= Border(ps, i) <= Border(ps, |ps| - 1)
    decreases |ps| - i
  {
    if i + 1 < |ps| {
      assert Follows(ps, i);
      BorderInside(ps, h, i + 1);
    }
  }

  /** A packed file whose last piece ends it is a fixed point of packing. */
  lemma {:induction false} RepackIdentity(file: seq<byte>, ps: seq<Piece>, head: seq<byte>, out: seq<byte>)
    requires ps != [] && Readable(file, ps) && Chain(ps, |head|)
    requires Extent(ps, |head|, |ps|) == Border(ps, |ps| - 1) && out == Packed(file, ps, head, |ps|)
    ensures Readable(out, Again(ps)) && Packed(out, Again(ps), head, |ps|) == out
  {
    assert |out| == Border(ps, |ps| - 1) by { PackedSize(file, ps, head, |ps|); }
    RepackStep(file, ps, head, out, |ps|);
    WholeSlice(out, |out|);
  }

  lemma {:induction false} WholeSlice(s: seq<byte>, n: nat)
    requires n == |s|
    ensures s[..n] == s
  {
  }
}
