/** What the slice cache must do, on values: an LRU list with a recency shield over a byte window
    that evictions zero. Refines the plain LRU of module `Lru`. */
module Residency {
  import opened Bytes
  import opened Lru
  import opened Sets

  const SHIELD_ENTRIES: nat := 2048

  /** A fused tensor: where its window and its file data start, bytes per expert, expert count. */
  datatype TensorGeom = TensorGeom(window: nat, source: nat, slice: nat, experts: nat)

  datatype Setup = Setup(cap: nat, tensors: seq<TensorGeom>, content: seq<byte>, windowLen: nat) {

    predicate HasKey(k: Key) {
      k.tensor < |tensors| && 0 <= k.expert < tensors[k.tensor].experts
    }

    function Size(k: Key): nat {
      if k.tensor < |tensors| then tensors[k.tensor].slice else 0
    }

    function Sizes(): Sizer {
      (k: Key) => Size(k)
    }

    /** Slices sit at their natural offsets, so one base pointer serves every expert. */
    function Addr(k: Key): nat
      requires HasKey(k)
    {
      tensors[k.tensor].window + k.expert * tensors[k.tensor].slice
    }

    function Off(k: Key): nat
      requires HasKey(k)
    {
      tensors[k.tensor].source + k.expert * tensors[k.tensor].slice
    }

    ghost predicate TensorOk(t: nat)
      requires t < |tensors|
    {
      var g := tensors[t];
      && Aligned(g.window) && Aligned(g.slice)
      && g.window + g.experts * g.slice <= windowLen
      && g.source + g.experts * g.slice <= |content|
    }

    ghost predicate Apart(t: nat, u: nat)
      requires t < |tensors| && u < |tensors|
    {
      || tensors[t].window + tensors[t].experts * tensors[t].slice <= tensors[u].window
      || tensors[u].window + tensors[u].experts * tensors[u].slice <= tensors[t].window
    }

    /** Windows are disjoint, page aligned and in bounds; slices are page multiples. */
    ghost predicate Valid() {
      && (forall t :: 0 <= t < |tensors| ==> TensorOk(t))
      && (forall t, u :: 0 <= t < u < |tensors| ==> Apart(t, u))
    }

    /** The bytes that slice `k` is a copy of. */
    function Data(k: Key): (d: seq<byte>)
      requires HasKey(k) && Off(k) + Size(k) <= |content|
      ensures |d| == Size(k)
    {
      content[Off(k)..Off(k) + Size(k)]
    }
  }

  // ---------------------------------------------------------------- geometry

  function PageFloor(a: nat): nat {
    a / 4096 * 4096
  }

  /** Length of the page range that eviction hands back to the operating system. */
  function SpanPages(from: nat, bytes: nat): nat {
    (from + bytes + 4095) / 4096 * 4096 - PageFloor(from)
  }

  /** Eviction spares the neighbouring slices exactly when a slice starts and ends on page borders. */
  lemma {:induction false} PageSpanExact(a: nat, bytes: nat)
    ensures PageFloor(a) == a && SpanPages(a, bytes) == bytes <==> Aligned(a) && Aligned(bytes)
  {
  }

  lemma {:induction false} SliceBounds(c: Setup, k: Key)
    requires c.Valid() && c.HasKey(k)
    ensures Aligned(c.Addr(k)) && Aligned(c.Size(k))
    ensures c.Addr(k) + c.Size(k) <= c.windowLen && c.Off(k) + c.Size(k) <= |c.content|
    ensures PageFloor(c.Addr(k)) == c.Addr(k) && SpanPages(c.Addr(k), c.Size(k)) == c.Size(k)
  {
    var g := c.tensors[k.tensor];
    assert c.TensorOk(k.tensor);
    MulStep(k.expert, g.experts, g.slice);
    assert Aligned(c.Addr(k)) by { AlignedMultiple(k.expert, g.slice); }
    PageSpanExact(c.Addr(k), c.Size(k));
  }

  /** A slice starts on a page of the file if and only if its tensor does. */
  lemma {:induction false} OffAlignedIff(c: Setup, k: Key)
    requires c.Valid() && c.HasKey(k)
    ensures Aligned(c.Off(k)) <==> Aligned(c.tensors[k.tensor].source)
  {
    var g := c.tensors[k.tensor];
    assert c.TensorOk(k.tensor);
    AlignedMultiple(k.expert, g.slice);
    PagesCancel(g.source, k.expert * g.slice);
  }

  lemma {:induction false} PagesCancel(a: nat, b: nat)
    requires Aligned(b)
    ensures Aligned(a + b) <==> Aligned(a)
  {
  }

  ghost predicate DisjointSlices(c: Setup, k: Key, l: Key)
    requires c.HasKey(k) && c.HasKey(l)
  {
    c.Addr(k) + c.Size(k) <= c.Addr(l) || c.Addr(l) + c.Size(l) <= c.Addr(k)
  }

  lemma {:induction false} SlicesDisjoint(c: Setup, k: Key, l: Key)
    requires c.Valid() && c.HasKey(k) && c.HasKey(l) && k != l
    ensures DisjointSlices(c, k, l)
  {
    var g, h := c.tensors[k.tensor], c.tensors[l.tensor];
    assert c.TensorOk(k.tensor) && c.TensorOk(l.tensor);
    if k.tensor == l.tensor {
      if k.expert < l.expert { MulStep(k.expert, l.expert, g.slice); } else { MulStep(l.expert, k.expert, g.slice); }
    } else {
      assert if k.tensor < l.tensor then c.Apart(k.tensor, l.tensor) else c.Apart(l.tensor, k.tensor);
      MulStep(k.expert, g.experts, g.slice);
      MulStep(l.expert, h.experts, h.slice);
    }
  }

  // ---------------------------------------------------------------- state and steps

  /** Everything the cache owns: the LRU accounting, the shield, the window and two counters. */
  datatype View = View(lru: State, shield: set<Key>, win: seq<byte>, deduped: nat, prefetched: nat)

  ghost predicate Shaped(c: Setup, v: View) {
    && c.Valid()
    && |v.win| == c.windowLen
    && forall k :: k in v.lru.order ==> c.HasKey(k)
  }

  /** The source bytes of slice `k`. */
  function Source(c: Setup, k: Key): (s: seq<byte>)
    requires c.Valid() && c.HasKey(k)
    ensures |s| == c.Size(k)
  {
    SliceBounds(c, k);
    c.Data(k)
  }

  /** What the window holds at the place of slice `k`. */
  function SliceOf(c: Setup, win: seq<byte>, k: Key): (s: seq<byte>)
    requires c.Valid() && c.HasKey(k) && |win| == c.windowLen
    ensures |s| == c.Size(k)
  {
    SliceBounds(c, k);
    win[c.Addr(k)..c.Addr(k) + c.Size(k)]
  }

  /** The window holds the source bytes of `k`. */
  ghost predicate Served(c: Setup, win: seq<byte>, k: Key)
    requires c.Valid() && c.HasKey(k) && |win| == c.windowLen
  {
    SliceOf(c, win, k) == Source(c, k)
  }

  /** A slice is served exactly if the window holds, at the slice's place in the tensor's window, what the file
      holds at its place in the tensor. */
  lemma {:induction false} ServedMeans(c: Setup, win: seq<byte>, k: Key, g: TensorGeom, at: int, from: int)
    requires c.Valid() && c.HasKey(k) && |win| == c.windowLen && g == c.tensors[k.tensor]
    requires at == g.window + k.expert * g.slice && from == g.source + k.expert * g.slice
    ensures 0 <= at && at + g.slice <= |win| && 0 <= from && from + g.slice <= |c.content|
    ensures Served(c, win, k) <==> win[at..at + g.slice] == c.content[from..from + g.slice]
  {
    SliceBounds(c, k);
  }

  ghost predicate Coherent(c: Setup, v: View)
    requires Shaped(c, v)
  {
    forall k :: k in v.lru.order ==> Served(c, v.win, k)
  }

  /** Shielded residents come before unshielded ones. */
  ghost predicate ShieldPrefix(order: seq<Key>, shield: set<Key>) {
    forall i, j :: 0 <= i < j < |order| && order[j] in shield ==> order[i] in shield
  }

  ghost predicate Sound(c: Setup, v: View) {
    && Shaped(c, v)
    && Lru.Wf(v.lru, c.Sizes())
    && ShieldPrefix(v.lru.order, v.shield)
    && Coherent(c, v)
  }

  function Fill(c: Setup, win: seq<byte>, k: Key): (w: seq<byte>)
    requires c.Valid() && c.HasKey(k) && |win| == c.windowLen
    ensures |w| == |win|
  {
    SliceBounds(c, k);
    Store(win, c.Addr(k), c.Data(k))
  }

  /** The operating system takes back the pages of a victim, which then read as zeros. */
  function Drop(c: Setup, win: seq<byte>, k: Key): (w: seq<byte>)
    requires c.Valid() && c.HasKey(k) && |win| == c.windowLen
    ensures |w| == |win|
  {
    SliceBounds(c, k);
    Store(win, PageFloor(c.Addr(k)), Zeros(SpanPages(c.Addr(k), c.Size(k))))
  }

  function EvictLast(c: Setup, v: View): (r: View)
    requires Shaped(c, v) && v.lru.order != []
    ensures Shaped(c, r)
  {
    var victim := v.lru.order[|v.lru.order| - 1];
    v.(lru := EvictBack(v.lru, c.Sizes()), win := Drop(c, v.win, victim))
  }

  lemma {:induction false} EvictLastIs(c: Setup, v: View, victim: Key)
    requires Shaped(c, v) && v.lru.order != [] && victim == v.lru.order[|v.lru.order| - 1]
    ensures EvictLast(c, v) == v.(lru := v.lru.(order := v.lru.order[..|v.lru.order| - 1], used := v.lru.used - c.Size(victim),
                                                evictions := v.lru.evictions + 1),
                                  win := Drop(c, v.win, victim))
  {
  }

  function MakeRoomFor(c: Setup, v: View, bytes: nat): (r: View)
    requires Shaped(c, v)
    ensures Shaped(c, r)
    decreases |v.lru.order|
  {
    if v.lru.used + bytes > c.cap && v.lru.order != [] then MakeRoomFor(c, EvictLast(c, v), bytes) else v
  }

  /** Unshields from the LRU end until at most half of the capacity is left, or the list is exhausted. */
  function TrimShield(order: seq<Key>, shield: set<Key>): set<Key>
    decreases |order|
  {
    if order == [] || |shield| <= SHIELD_ENTRIES / 2 then shield
    else TrimShield(order[..|order| - 1], shield - {order[|order| - 1]})
  }

  function ShieldWith(order: seq<Key>, shield: set<Key>, k: Key): set<Key> {
    var s := shield + {k};
    if |s| > SHIELD_ENTRIES then TrimShield(order, s) else s
  }

  function Commit(c: Setup, v: View, k: Key): (r: View)
    requires Shaped(c, v) && c.HasKey(k)
    ensures Shaped(c, r)
  {
    var lru := Insert(v.lru, k, c.Size(k), c.cap);
    v.(lru := lru, shield := ShieldWith(lru.order, v.shield, k))
  }

  function Hit(c: Setup, v: View, k: Key): (r: View)
    requires Shaped(c, v) && k in v.lru.order && Distinct(v.lru.order)
    ensures Shaped(c, r)
  {
    WithoutFacts(v.lru.order, k, c.Sizes());
    v.(lru := Refresh(v.lru, k), shield := v.shield + {k})
  }

  function TouchOne(c: Setup, v: View, k: Key): (r: View)
    requires Shaped(c, v) && c.HasKey(k) && Distinct(v.lru.order)
    ensures Shaped(c, r)
  {
    if k in v.lru.order then Hit(c, v, k)
    else
      var room := MakeRoomFor(c, v, c.Size(k));
      Commit(c, room.(lru := CountMiss(room.lru, c.Size(k)), win := Fill(c, room.win, k)), k)
  }

  // ---------------------------------------------------------------- single steps keep the invariant

  lemma {:induction false} FillServes(c: Setup, win: seq<byte>, k: Key)
    requires c.Valid() && c.HasKey(k) && |win| == c.windowLen
    ensures Served(c, Fill(c, win, k), k)
  {
    SliceBounds(c, k);
    StoreAt(win, c.Addr(k), c.Data(k));
  }

  /** Writes confined to one slice, complete or not, disturb no other slice. */
  lemma {:induction false} WithinSpares(c: Setup, before: seq<byte>, after: seq<byte>, k: Key, other: Key)
    requires c.Valid() && c.HasKey(k) && c.HasKey(other) && k != other
    requires |before| == |after| == c.windowLen && c.Addr(k) + c.Size(k) <= c.windowLen
    requires OnlyWithin(before, after, c.Addr(k), c.Size(k))
    ensures SliceOf(c, after, other) == SliceOf(c, before, other)
  {
    SliceBounds(c, k);
    SliceBounds(c, other);
    SlicesDisjoint(c, k, other);
    RangeSpared(before, after, c.Addr(k), c.Size(k), c.Addr(other), c.Addr(other) + c.Size(other));
  }

  lemma {:induction false} FillSpares(c: Setup, win: seq<byte>, k: Key, other: Key)
    requires c.Valid() && c.HasKey(k) && c.HasKey(other) && k != other && |win| == c.windowLen
    ensures SliceOf(c, Fill(c, win, k), other) == SliceOf(c, win, other)
    ensures SliceOf(c, Drop(c, win, k), other) == SliceOf(c, win, other)
  {
    SliceBounds(c, k);
    StoreOnlyWithin(win, c.Addr(k), c.Data(k), c.Size(k));
    StoreOnlyWithin(win, c.Addr(k), Zeros(c.Size(k)), c.Size(k));
    WithinSpares(c, win, Fill(c, win, k), k, other);
    WithinSpares(c, win, Drop(c, win, k), k, other);
  }

  lemma {:induction false} EvictLastKeepsSound(c: Setup, v: View)
    requires Sound(c, v) && v.lru.order != []
    ensures Sound(c, EvictLast(c, v))
  {
    var r := EvictLast(c, v);
    EvictBackWf(v.lru, c.Sizes());
    forall k | k in r.lru.order ensures Served(c, r.win, k) {
      FillSpares(c, v.win, v.lru.order[|v.lru.order| - 1], k);
    }
  }

  /** Making room keeps the invariant, evicts exactly as plain LRU does, and zeroes only victims. */
  lemma {:induction false} MakeRoomForFacts(c: Setup, v: View, bytes: nat)
    requires Sound(c, v)
    ensures var r := MakeRoomFor(c, v, bytes);
      && Sound(c, r)
      && r == v.(lru := MakeRoom(v.lru, bytes, c.cap, c.Sizes()), win := r.win)
      && (forall k :: k in r.lru.order ==> k in v.lru.order)
      && (forall k :: c.HasKey(k) && k !in v.lru.order && Served(c, v.win, k) ==> Served(c, r.win, k))
    decreases |v.lru.order|
  {
    if v.lru.used + bytes > c.cap && v.lru.order != [] {
      EvictLastKeepsSound(c, v);
      EvictBackWf(v.lru, c.Sizes());
      var next := EvictLast(c, v);
      MakeRoomForFacts(c, next, bytes);
      forall k | c.HasKey(k) && k !in v.lru.order && Served(c, v.win, k) ensures Served(c, next.win, k) {
        FillSpares(c, v.win, v.lru.order[|v.lru.order| - 1], k);
      }
    }
  }

  /** Trimming takes a suffix of the list out of the shield and nothing else; it stops above half
      capacity only when no resident is shielded any more. */
  lemma {:induction false} TrimShieldFacts(order: seq<Key>, n: nat, shield: set<Key>)
    requires Distinct(order) && n <= |order| && ShieldPrefix(order, shield)
    requires forall j :: n <= j < |order| ==> order[j] !in shield
    ensures var r := TrimShield(order[..n], shield);
      && ShieldPrefix(order, r) && r <= shield
      && (forall k :: k in shield && k !in order ==> k in r)
      && (|r| > SHIELD_ENTRIES / 2 ==> forall j :: 0 <= j < |order| ==> order[j] !in r)
    decreases n
  {
    if n > 0 && |shield| > SHIELD_ENTRIES / 2 {
      var less := shield - {order[n - 1]};
      assert order[..n][..n - 1] == order[..n - 1];
      assert ShieldPrefix(order, less);
      TrimShieldFacts(order, n - 1, less);
    }
  }

  /** Trimming leaves at most half of the capacity, or exactly the shielded keys that are not listed; and it
      never leaves less than half. */
  lemma {:induction false} TrimLeaves(order: seq<Key>, shield: set<Key>)
    ensures var r := TrimShield(order, shield);
      && shield - Elements(order) <= r <= shield
      && (|r| <= SHIELD_ENTRIES / 2 || r == shield - Elements(order))
      && (|shield| >= SHIELD_ENTRIES / 2 ==> |r| >= SHIELD_ENTRIES / 2)
    decreases |order|
  {
    if order != [] {
      var n := |order| - 1;
      assert order == order[..n] + [order[n]];
      assert shield - {order[n]} - Elements(order[..n]) == shield - Elements(order);
      assert |shield - {order[n]}| >= |shield| - 1;
      TrimLeaves(order[..n], shield - {order[n]});
    }
  }

  /** After a commit the shield is within its capacity if and only if the keys in it that are no longer
      listed are: trimming reaches listed keys only. */
  lemma {:induction false} ShieldBoundedIff(order: seq<Key>, shield: set<Key>, k: Key)
    ensures |ShieldWith(order, shield, k)| <= SHIELD_ENTRIES <==>
      |(shield + {k}) - Elements(order)| <= SHIELD_ENTRIES
  {
    var s := shield + {k};
    TrimLeaves(order, s);
    SubsetCount(s - Elements(order), s);
    SubsetCount(s - Elements(order), TrimShield(order, s));
  }

  /** What a commit does to the shield: the key is added; beyond 2048 entries, keys are unshielded from the LRU
      end until 1024 are left or no listed key is shielded. */
  lemma {:induction false} ShieldMeans(order: seq<Key>, shield: set<Key>, k: Key)
    ensures var r, all := ShieldWith(order, shield, k), shield + {k};
      if |all| <= 2048 then r == all
      else
        && r <= all && |r| >= 1024 && (forall x :: x in all && x !in order ==> x in r)
        && (|r| > 1024 ==> forall x :: x in order ==> x !in r)
  {
    TrimLeaves(order, shield + {k});
  }

  /** An eviction zeroes the victim's place in the window and nothing else. */
  lemma {:induction false} DropMeans(c: Setup, win: seq<byte>, k: Key, at: int)
    requires c.Valid() && c.HasKey(k) && |win| == c.windowLen
    requires at == c.tensors[k.tensor].window + k.expert * c.tensors[k.tensor].slice
    ensures forall i :: 0 <= i < |win| ==>
      Drop(c, win, k)[i] == if at <= i < at + c.tensors[k.tensor].slice then 0 else win[i]
  {
    SliceBounds(c, k);
  }

  lemma {:induction false} CommitKeepsSound(c: Setup, v: View, k: Key)
    requires Sound(c, v) && c.HasKey(k) && k !in v.lru.order && Served(c, v.win, k)
    ensures Sound(c, Commit(c, v, k))
    ensures Commit(c, v, k).lru == Insert(v.lru, k, c.Size(k), c.cap)
    ensures Commit(c, v, k).win == v.win
  {
    var lru := Insert(v.lru, k, c.Size(k), c.cap);
    InsertWf(v.lru, k, c.Size(k), c.cap, c.Sizes());
    assert ShieldPrefix(lru.order, v.shield + {k});
    assert lru.order[..|lru.order|] == lru.order;
    TrimShieldFacts(lru.order, |lru.order|, v.shield + {k});
  }

  /** Whatever a failed fill left in the slice of a key that is not resident does no harm. */
  lemma {:induction false} JunkKeepsSound(c: Setup, v: View, win: seq<byte>, k: Key)
    requires Sound(c, v) && c.HasKey(k) && k !in v.lru.order && |win| == c.windowLen
    requires c.Addr(k) + c.Size(k) <= c.windowLen && OnlyWithin(v.win, win, c.Addr(k), c.Size(k))
    ensures Sound(c, v.(win := win))
    ensures forall x :: c.HasKey(x) && x != k ==> (Served(c, win, x) <==> Served(c, v.win, x))
  {
    forall x | c.HasKey(x) && x != k ensures Served(c, win, x) <==> Served(c, v.win, x) {
      WithinSpares(c, v.win, win, k, x);
    }
  }

  lemma {:induction false} HitKeepsSound(c: Setup, v: View, k: Key)
    requires Sound(c, v) && k in v.lru.order
    ensures Sound(c, Hit(c, v, k))
  {
    var r := Hit(c, v, k);
    RefreshWf(v.lru, k, c.Sizes());
    HitKeepsShieldPrefix(v.lru.order, v.shield, k);
    forall x | x in r.lru.order ensures Served(c, r.win, x) {
      assert x in v.lru.order;
    }
  }

  lemma {:induction false} HitKeepsShieldPrefix(order: seq<Key>, shield: set<Key>, k: Key)
    requires ShieldPrefix(order, shield) && Distinct(order)
    ensures ShieldPrefix([k] + Without(order, k), shield + {k})
  {
    WithoutFacts(order, k, _ => 0);
    var rest := Without(order, k);
    forall i, j | 0 <= i < j < |rest| && rest[j] in shield + {k} ensures rest[i] in shield + {k} {
      assert rest[j] in rest;
      var a, b := WithoutKeepsOrder(order, k, i, j);
    }
  }
}
