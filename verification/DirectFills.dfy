/** The direct backend on a model whose routed tensors are all aligned: no fill is ever refused. */
module DirectFills {
  import opened Bytes
  import opened Lru
  import opened Residency
  import opened Batches
  import opened DirectIo
  import opened SliceCache
  import opened GgufFormat
  import opened Registry
  import opened Prepare

  /** Tensor `t` of the cache streams the experts of tensor `i` of the manifest. */
  ghost predicate Streams(c: Setup, t: nat, m: Manifest, i: nat) {
    && t < |c.tensors| && i < |m.tensors| && m.tensors[i].kind == Routed
    && c.tensors[t].source == m.tensors[i].abs && c.tensors[t].slice == m.tensors[i].perExpert
  }

  /** What the server asks of a manifest before it selects direct reads. */
  ghost predicate AllAligned(m: Manifest) {
    m.counts == CountsOf(m.tensors) && m.counts.allAligned == m.counts.routed
  }

  lemma {:induction false} SourceAligned(c: Setup, t: nat, m: Manifest, i: nat)
    requires Streams(c, t, m, i) && AllAligned(m)
    ensures Aligned(c.tensors[t].source) && Aligned(c.tensors[t].slice)
  {
    CountAll(m.tensors, IsAllAligned, IsRouted, i);
  }

  /** All experts of a streamed tensor lie inside the file. */
  lemma {:induction false} SourceInFile(c: Setup, t: nat, m: Manifest, i: nat)
    requires Streams(c, t, m, i) && Tiles(m.tensors, m.dataOffset, m.fileSize)
    requires c.tensors[t].experts == m.nExperts > 0 && m.tensors[i].perExpert == m.tensors[i].bytes / m.nExperts
    ensures c.tensors[t].source + c.tensors[t].experts * c.tensors[t].slice <= m.fileSize
  {
    TilesDisjoint(m.tensors, m.dataOffset, m.fileSize, i, i);
    DivBelow(m.tensors[i].bytes, m.nExperts);
  }

  /** What the registry accepts tiles the file, unless it is a lone tensor that starts behind the end. */
  lemma {:induction false} BuiltTiles(file: seq<byte>, kind: Classifier, j: Job)
    requires JobOf(file, kind) == Some(j) && |file| < U64 && j.meta.tensors != []
    requires |j.m.tensors| == 1 ==> j.m.tensors[0].abs <= |file|
    ensures Tiles(j.m.tensors, j.m.dataOffset, |file|) && j.m.fileSize == |file| && j.m.counts == CountsOf(j.m.tensors)
  {
    JobProper(file, kind, j);
    BuiltFacts(j.meta, j.metaEnd, |file|, kind, j.m);
    SortedOffsets(file, kind, j);
    SortedAscending(j.meta.tensors);
    var experts :| Accepts(j.m.tensors, j.m.dataOffset, |file|, experts, j.m.nExperts);
    AcceptedTilesIff(SortByOffset(j.meta.tensors), j.m.dataOffset, |file|, experts, j.m.nExperts, kind);
  }

  lemma {:induction false} BuiltGeometry(file: seq<byte>, kind: Classifier, j: Job, i: nat)
    requires JobOf(file, kind) == Some(j) && i < |j.m.tensors| && j.m.tensors[i].kind == Routed
    ensures j.m.nExperts > 0 && j.m.tensors[i].perExpert == j.m.tensors[i].bytes / j.m.nExperts
  {
    JobProper(file, kind, j);
    BuiltFacts(j.meta, j.metaEnd, |file|, kind, j.m);
    var experts :| Accepts(j.m.tensors, j.m.dataOffset, |file|, experts, j.m.nExperts);
    assert InfoOk(j.m.tensors[i], j.m.nExperts);
  }

  /** The windows the server mapped: aligned, in bounds and apart. */
  ghost predicate WindowsOk(c: Setup) {
    && (forall t :: 0 <= t < |c.tensors| ==> WindowOk(c, t))
    && (forall t, u :: 0 <= t < u < |c.tensors| ==> c.Apart(t, u))
  }

  ghost predicate WindowOk(c: Setup, t: nat)
    requires t < |c.tensors|
  {
    var g := c.tensors[t];
    Aligned(g.window) && g.window + g.experts * g.slice <= c.windowLen
  }

  /** Every tensor of the cache streams a routed tensor of the manifest, with all its experts. */
  ghost predicate StreamsAll(c: Setup, m: Manifest, routed: seq<nat>) {
    && |routed| == |c.tensors|
    && forall t :: 0 <= t < |routed| ==> Streams(c, t, m, routed[t]) && c.tensors[t].experts == m.nExperts
  }

  /** From an accepted and aligned model: the geometry the cache is set up with is valid, and every tensor
      can be read directly. */
  lemma {:induction false} AcceptedSetup(file: seq<byte>, kind: Classifier, j: Job, c: Setup, routed: seq<nat>)
    requires JobOf(file, kind) == Some(j) && |file| < U64 && j.meta.tensors != []
    requires |j.m.tensors| == 1 ==> j.m.tensors[0].abs <= |file|
    requires j.m.counts.allAligned == j.m.counts.routed
    requires c.content == file && StreamsAll(c, j.m, routed) && WindowsOk(c)
    ensures c.Valid() && AllAligned(j.m) && forall t :: 0 <= t < |c.tensors| ==> Aligned(c.tensors[t].source)
  {
    BuiltTiles(file, kind, j);
    forall t | 0 <= t < |c.tensors| ensures c.TensorOk(t) && Aligned(c.tensors[t].source) {
      assert WindowOk(c, t);
      assert Streams(c, t, j.m, routed[t]);
      BuiltGeometry(file, kind, j, routed[t]);
      SourceAligned(c, t, j.m, routed[t]);
      SourceInFile(c, t, j.m, routed[t]);
    }
  }

  /** A cache over direct reads of an accepted and aligned model. */
  method OpenDirect(file: DirectFile, window: array<byte>, setup: Setup, ghost kind: Classifier, ghost j: Job,
                    ghost routed: seq<nat>)
    returns (cache: Cache)
    requires JobOf(file.content, kind) == Some(j) && |file.content| < U64 && j.meta.tensors != []
    requires |j.m.tensors| == 1 ==> j.m.tensors[0].abs <= |file.content|
    requires j.m.counts.allAligned == j.m.counts.routed && file.isOpen
    requires setup.content == file.content && StreamsAll(setup, j.m, routed) && WindowsOk(setup)
    requires window.Length == setup.windowLen
    ensures fresh(cache) && cache.setup == setup && cache.file == file && cache.window == window
    ensures cache.Valid() && forall t :: 0 <= t < |setup.tensors| ==> cache.CanRead(t)
  {
    AcceptedSetup(file.content, kind, j, setup, routed);
    cache := new Cache(setup, file, window);
  }

  /** A batch of experts read directly: it ends the process only if the device itself fails a read, and
      otherwise serves every id that fits. */
  method StreamExperts(cache: Cache, t: nat, ids: seq<int>, lanes: bool)
    returns (count: nat, aborted: bool, ghost hardError: bool)
    requires cache.Valid() && cache.ValidRequest(t, ids) && cache.CanRead(t)
    modifies cache, cache.window
    ensures cache.Valid() && cache.CanRead(t) && (aborted ==> hardError)
    ensures !aborted && |Ids(ids)| * cache.setup.tensors[t].slice <= cache.setup.cap ==> forall e :: e in ids ==>
      var g := cache.setup.tensors[t];
      var at, from := g.window + e * g.slice, g.source + e * g.slice;
      0 <= at && at + g.slice <= cache.window.Length && 0 <= from && from + g.slice <= |cache.setup.content|
      && cache.window[at..at + g.slice] == cache.setup.content[from..from + g.slice]
  {
    ghost var order, start;
    count, aborted, order, hardError, start := cache.TouchBatchAt(t, ids, lanes);
    EnumeratesCount(order, t, ids);
  }
}
