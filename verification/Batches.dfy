/** Whole requests over the residency steps: single touches, deduplicated batches, and batches
    whose fills run after all evictions and may run in any order. */
module Batches {
  import opened Bytes
  import opened Lru
  import opened Sets
  import opened Residency

  ghost predicate AllKeys(c: Setup, ks: seq<Key>) {
    forall k :: k in ks ==> c.HasKey(k)
  }

  /** A touch refines plain LRU, keeps the invariant, and leaves the requested bytes in the window. */
  lemma {:induction false} TouchOneFacts(c: Setup, v: View, k: Key)
    requires Sound(c, v) && c.HasKey(k)
    ensures var r := TouchOne(c, v, k);
      && Sound(c, r)
      && r.lru == Touch(v.lru, k, c.cap, c.Sizes())
      && Served(c, r.win, k)
      && r == v.(lru := r.lru, shield := r.shield, win := r.win)
  {
    if k in v.lru.order {
      HitKeepsSound(c, v, k);
      assert k in TouchOne(c, v, k).lru.order;
    } else {
      MakeRoomForFacts(c, v, c.Size(k));
      var room := MakeRoomFor(c, v, c.Size(k));
      var filled := room.(lru := CountMiss(room.lru, c.Size(k)), win := Fill(c, room.win, k));
      FillServes(c, room.win, k);
      forall x | x in filled.lru.order ensures Served(c, filled.win, x) {
        FillSpares(c, room.win, k, x);
      }
      CommitKeepsSound(c, filled, k);
    }
  }

  lemma {:induction false} TouchOneCounts(c: Setup, v: View, k: Key, hit: bool, r: View)
    requires Sound(c, v) && c.HasKey(k) && (hit <==> k in v.lru.order) && r == TouchOne(c, v, k)
    ensures Sound(c, r) && Served(c, r.win, k)
    ensures r.lru.hits == v.lru.hits + (if hit then 1 else 0) && r.lru.misses == v.lru.misses + (if hit then 0 else 1)
    ensures r.lru.missBytes == v.lru.missBytes + (if hit then 0 else c.tensors[k.tensor].slice)
  {
    TouchOneFacts(c, v, k);
    TouchKeepsWf(v.lru, k, c.cap, c.Sizes());
  }

  /** Touches in sequence. */
  function TouchMany(c: Setup, v: View, ks: seq<Key>): (r: View)
    requires Sound(c, v) && AllKeys(c, ks)
    ensures Sound(c, r)
  {
    if ks == [] then v
    else
      var u := TouchMany(c, v, ks[..|ks| - 1]);
      TouchOneFacts(c, u, ks[|ks| - 1]);
      TouchOne(c, u, ks[|ks| - 1])
  }

  ghost predicate IsFresh(c: Setup, v: View) {
    c.Valid() && |v.win| == c.windowLen && v.lru == EMPTY && v.shield == {}
  }

  /** The shield-aware cache is plain LRU: from empty, any sequence of touches gives the simulator's
      hits, misses, bytes loaded, evictions, used bytes and recency order. */
  lemma {:induction false} RefinesSimulator(c: Setup, v: View, trace: seq<Key>)
    requires IsFresh(c, v) && AllKeys(c, trace)
    ensures Sound(c, v)
    ensures TouchMany(c, v, trace).lru == Replay(trace, c.cap, c.Sizes())
  {
    if trace != [] {
      var t := trace[..|trace| - 1];
      RefinesSimulator(c, v, t);
      TouchOneFacts(c, TouchMany(c, v, t), trace[|trace| - 1]);
    }
  }

  // ---------------------------------------------------------------- deduplicated batches

  /** `ks` lists the distinct requested experts of tensor `t` once each, in any order. */
  ghost predicate Enumerates(ks: seq<Key>, t: nat, ids: seq<int>) {
    && Distinct(ks)
    && (forall k :: k in ks ==> k.tensor == t && k.expert in ids)
    && (forall e :: e in ids ==> Key(t, e) in ks)
  }

  ghost function Ids(ids: seq<int>): set<int> {
    set e | e in ids
  }

  /** As many keys as there are different ids. */
  lemma {:induction false} EnumeratesCount(ks: seq<Key>, t: nat, ids: seq<int>)
    requires Enumerates(ks, t, ids)
    ensures |ks| == |Ids(ids)|
  {
    ExpertsCount(ks, t, Ids(ids));
  }

  lemma {:induction false} ExpertsCount(ks: seq<Key>, t: nat, s: set<int>)
    requires Distinct(ks) && (forall k :: k in ks ==> k.tensor == t && k.expert in s) && forall e :: e in s ==> Key(t, e) in ks
    ensures |ks| == |s|
  {
    if ks == [] {
      forall e ensures e !in s { assert Key(t, e) !in ks; }
      assert s == {};
    } else {
      var n := |ks| - 1;
      var e := ks[n].expert;
      assert ks == ks[..n] + [ks[n]];
      assert ks[n] == Key(t, e) && ks[n] !in ks[..n];
      ExpertsCount(ks[..n], t, s - {e});
    }
  }

  /** Every requested expert of tensor `t` is resident and its window bytes equal the source. */
  ghost predicate ServesAll(c: Setup, v: View, t: nat, ids: seq<int>)
    requires Sound(c, v)
  {
    forall e :: e in ids ==> Key(t, e) in v.lru.order && Served(c, v.win, Key(t, e))
  }

  /** Bytes of `n` slices, as a sum: arithmetic about it stays linear. */
  function Bulk(n: nat, slice: nat): nat {
    if n == 0 then 0 else Bulk(n - 1, slice) + slice
  }

  lemma {:induction false} BulkIsProduct(n: nat, slice: nat)
    ensures Bulk(n, slice) == n * slice
  {
    if n > 0 {
      BulkIsProduct(n - 1, slice);
      assert n * slice == (n - 1) * slice + slice;
    }
  }

  lemma {:induction false} TotalOfTensor(c: Setup, ks: seq<Key>, t: nat)
    requires t < |c.tensors| && forall k :: k in ks ==> k.tensor == t
    ensures Total(ks, c.Sizes()) == Bulk(|ks|, c.tensors[t].slice)
  {
    if ks != [] {
      TotalOfTensor(c, ks[1..], t);
    }
  }

  /** While the batch fits the budget, the keys already touched stay at the front of the list. */
  lemma {:induction false} TouchedStayInFront(c: Setup, v: View, ks: seq<Key>) returns (front: seq<Key>)
    requires Sound(c, v) && AllKeys(c, ks) && Distinct(ks) && Total(ks, c.Sizes()) <= c.cap
    ensures front <= TouchMany(c, v, ks).lru.order
    ensures Total(front, c.Sizes()) == Total(ks, c.Sizes())
    ensures forall k :: k in front <==> k in ks
  {
    if ks == [] {
      front := [];
    } else {
      var t, k := ks[..|ks| - 1], ks[|ks| - 1];
      SplitLast(ks, t, k, c.Sizes());
      var before := TouchedStayInFront(c, v, t);
      var u := TouchMany(c, v, t);
      assert TouchMany(c, v, ks).lru == Touch(u.lru, k, c.cap, c.Sizes()) by { TouchOneFacts(c, u, k); }
      KeepFront(u.lru, before, k, c.Sizes(), c.cap);
      front := [k] + before;
      assert front[1..] == before;
    }
  }

  lemma {:induction false} SplitLast(ks: seq<Key>, t: seq<Key>, k: Key, size: Sizer)
    requires ks != [] && Distinct(ks) && t == ks[..|ks| - 1] && k == ks[|ks| - 1]
    ensures k !in t && Distinct(t) && Total(ks, size) == Total(t, size) + size(k)
    ensures forall x :: x in ks <==> x in t || x == k
  {
    assert ks == t + [k];
    TotalLast(ks, size);
  }

  /** A touch of a key outside `front` pushes it in front of `front` when both fit together. */
  lemma {:induction false} KeepFront(s: State, front: seq<Key>, k: Key, size: Sizer, cap: nat)
    requires Lru.Wf(s, size) && front <= s.order && k !in front
    requires Total(front, size) + size(k) <= cap
    ensures [k] + front <= Touch(s, k, cap, size).order
    ensures front <= MakeRoom(s, size(k), cap, size).order
  {
    MakeRoomIsFit(s, size(k), cap, size);
    assert s.order[..|front|] == front;
    FitIsMaximal(s.order, cap - size(k), size, |front|);
    if k in s.order {
      RefreshKeepsFront(s.order, front, k);
    }
  }

  lemma {:induction false} RefreshKeepsFront(order: seq<Key>, front: seq<Key>, k: Key)
    requires front <= order && k !in front
    ensures front <= Without(order, k)
  {
    if front != [] {
      assert order[0] == front[0];
      assert front[1..] <= order[1..];
      RefreshKeepsFront(order[1..], front[1..], k);
    }
  }

  /** `touch_batch`: requests that fit the budget together are all resident and correct afterwards,
      whatever was resident before and in whichever order they are visited. */
  lemma {:induction false} BatchServed(c: Setup, v: View, ks: seq<Key>, t: nat, ids: seq<int>)
    requires Sound(c, v) && AllKeys(c, ks) && Enumerates(ks, t, ids)
    requires t < |c.tensors| && Bulk(|ks|, c.tensors[t].slice) <= c.cap
    ensures ServesAll(c, TouchMany(c, v, ks), t, ids)
  {
    TotalOfTensor(c, ks, t);
    var front := TouchedStayInFront(c, v, ks);
  }

  /** Ids requested so far, as the counters tell. */
  function Requests(v: View): nat {
    v.lru.hits + v.lru.misses + v.deduped
  }

  lemma {:induction false} BatchOutcome(c: Setup, v: View, ks: seq<Key>, t: nat, ids: seq<int>, r: View)
    requires Sound(c, v) && AllKeys(c, ks) && Enumerates(ks, t, ids) && t < |c.tensors|
    requires r == TouchMany(c, v, ks)
    ensures Requests(r) == Requests(v) + |ks|
    ensures Bulk(|ks|, c.tensors[t].slice) <= c.cap ==> ServesAll(c, r, t, ids)
  {
    TouchManyCounts(c, v, ks);
    if Bulk(|ks|, c.tensors[t].slice) <= c.cap { BatchServed(c, v, ks, t, ids); }
  }

  /** Every touch is one hit or one miss; and when the slices fit the budget, misses not yet evicted
      are exactly the residents. */
  lemma {:induction false} TouchManyCounts(c: Setup, v: View, ks: seq<Key>)
    requires Sound(c, v) && AllKeys(c, ks)
    ensures var r := TouchMany(c, v, ks);
      && r.lru.hits + r.lru.misses == v.lru.hits + v.lru.misses + |ks|
      && r.deduped == v.deduped
      && (ks != [] && v.lru.used <= c.cap ==> r.lru.used <= c.cap)
      && ((forall k :: k in ks ==> c.Size(k) <= c.cap) ==>
            r.lru.misses - |r.lru.order| - r.lru.evictions == v.lru.misses - |v.lru.order| - v.lru.evictions)
  {
    if ks != [] {
      var t := ks[..|ks| - 1];
      TouchManyCounts(c, v, t);
      TouchOneFacts(c, TouchMany(c, v, t), ks[|ks| - 1]);
      TouchKeepsWf(TouchMany(c, v, t).lru, ks[|ks| - 1], c.cap, c.Sizes());
    }
  }

  // ---------------------------------------------------------------- the shield is not bounded

  lemma {:induction false} HitShields(c: Setup, u: View, k: Key, r: View)
    requires Sound(c, u) && c.HasKey(k) && k in u.lru.order && r == TouchOne(c, u, k)
    ensures r.shield == u.shield + {k} && Elements(r.lru.order) == Elements(u.lru.order)
  {
    RefreshWf(u.lru, k, c.Sizes());
  }

  /** Hits shield without trimming. */
  lemma {:induction false} HitsShieldAll(c: Setup, v: View, ks: seq<Key>, r: View)
    requires Sound(c, v) && AllKeys(c, ks) && Elements(ks) <= Elements(v.lru.order) && r == TouchMany(c, v, ks)
    ensures r.shield == v.shield + Elements(ks) && Elements(r.lru.order) == Elements(v.lru.order)
  {
    if ks == [] {
      assert Elements(ks) == {};
    } else {
      var s, k := ks[..|ks| - 1], ks[|ks| - 1];
      ElementsLast(ks, s, k);
      var u := TouchMany(c, v, s);
      assert r == TouchOne(c, u, k);
      HitsShieldAll(c, v, s, u);
      assert k in Elements(ks) && k in Elements(u.lru.order);
      HitShields(c, u, k, r);
    }
  }

  lemma {:induction false} ElementsLast(ks: seq<Key>, s: seq<Key>, k: Key)
    requires ks != [] && s == ks[..|ks| - 1] && k == ks[|ks| - 1]
    ensures Elements(ks) == Elements(s) + {k}
  {
    assert ks == s + [k];
  }

  /** Touching slices that fit together twice in a row leaves all of them shielded, however many. */
  lemma {:induction false} ShieldGrows(c: Setup, v: View, ks: seq<Key>)
    requires Sound(c, v) && AllKeys(c, ks) && Distinct(ks) && Total(ks, c.Sizes()) <= c.cap
    ensures Elements(ks) <= TouchMany(c, TouchMany(c, v, ks), ks).shield
    ensures |TouchMany(c, TouchMany(c, v, ks), ks).shield| >= |ks|
  {
    var u := TouchMany(c, v, ks);
    var front := TouchedStayInFront(c, v, ks);
    assert Elements(ks) <= Elements(u.lru.order) by { assert forall k :: k in ks ==> k in front; }
    HitsShieldAll(c, u, ks, TouchMany(c, u, ks));
    DistinctCount(ks);
    SubsetCount(Elements(ks), TouchMany(c, u, ks).shield);
  }

  /** A run from empty, over 2049 slices of one page with room for all, whose shield exceeds its capacity. */
  lemma {:induction false} ShieldExceeded() returns (c: Setup, v: View, ks: seq<Key>)
    ensures IsFresh(c, v) && AllKeys(c, ks) && Sound(c, v)
    ensures |TouchMany(c, TouchMany(c, v, ks), ks).shield| > SHIELD_ENTRIES
  {
    var n := SHIELD_ENTRIES + 1;
    c := Setup(n * PAGE, [TensorGeom(0, 0, PAGE, n)], Zeros(n * PAGE), n * PAGE);
    v := View(EMPTY, {}, Zeros(n * PAGE), 0, 0);
    ks := seq(n, i => Key(0, i));
    assert c.TensorOk(0) && IsFresh(c, v);
    RefinesSimulator(c, v, []);
    TotalOfTensor(c, ks, 0);
    BulkIsProduct(n, PAGE);
    ShieldGrows(c, v, ks);
  }

  // ---------------------------------------------------------------- batches that fill last

  /** First phase: refresh hits, and make room for each miss without recording it yet. */
  function Classify(c: Setup, v: View, ks: seq<Key>): (r: (View, seq<Key>))
    requires Sound(c, v) && AllKeys(c, ks)
    ensures Sound(c, r.0) && AllKeys(c, r.1)
  {
    if ks == [] then (v, [])
    else
      var (u, missed) := Classify(c, v, ks[..|ks| - 1]);
      var k := ks[|ks| - 1];
      if k in u.lru.order then
        HitKeepsSound(c, u, k);
        (Hit(c, u, k), missed)
      else
        MakeRoomForFacts(c, u, c.Size(k));
        (MakeRoomFor(c, u, c.Size(k)), missed + [k])
  }

  function FillAll(c: Setup, win: seq<byte>, ks: seq<Key>): (w: seq<byte>)
    requires c.Valid() && AllKeys(c, ks) && |win| == c.windowLen
    ensures |w| == |win|
  {
    if ks == [] then win else Fill(c, FillAll(c, win, ks[..|ks| - 1]), ks[|ks| - 1])
  }

  function CommitAll(c: Setup, v: View, ks: seq<Key>): (r: View)
    requires Shaped(c, v) && AllKeys(c, ks)
    ensures Shaped(c, r)
  {
    if ks == [] then v else Commit(c, CommitAll(c, v, ks[..|ks| - 1]), ks[|ks| - 1])
  }

  function TouchBatchAt(c: Setup, v: View, ks: seq<Key>, slice: nat): (r: View)
    requires Sound(c, v) && AllKeys(c, ks)
  {
    var (u, missed) := Classify(c, v, ks);
    Finish(c, u, missed, slice)
  }

  /** Second and third phase: fill every miss, record them all, and count them. */
  function Finish(c: Setup, u: View, missed: seq<Key>, slice: nat): (r: View)
    requires Shaped(c, u) && AllKeys(c, missed)
  {
    var r := CommitAll(c, u.(win := FillAll(c, u.win, missed)), missed);
    r.(lru := r.lru.(misses := r.lru.misses + |missed|, missBytes := r.lru.missBytes + Bulk(|missed|, slice)))
  }

  lemma {:induction false} ClassifyFacts(c: Setup, v: View, ks: seq<Key>)
    requires Sound(c, v) && AllKeys(c, ks) && Distinct(ks)
    ensures var (u, missed) := Classify(c, v, ks);
      && Distinct(missed)
      && (forall k :: k in missed ==> k in ks && k !in u.lru.order)
      && (forall k :: k in u.lru.order ==> k in v.lru.order)
      && u == v.(lru := u.lru, shield := u.shield, win := u.win)
      && u.lru.misses == v.lru.misses && u.lru.missBytes == v.lru.missBytes
      && u.lru.hits + |missed| == v.lru.hits + |ks|
      && u.lru.evictions + |u.lru.order| == v.lru.evictions + |v.lru.order|
      && (missed == [] ==> u.lru.used == v.lru.used)
  {
    if ks != [] {
      var t, k := ks[..|ks| - 1], ks[|ks| - 1];
      assert ks == t + [k];
      ClassifyFacts(c, v, t);
      var (u, missed) := Classify(c, v, t);
      if k in u.lru.order {
        RefreshWf(u.lru, k, c.Sizes());
      } else {
        MakeRoomForFacts(c, u, c.Size(k));
        MakeRoomIsFit(u.lru, c.Size(k), c.cap, c.Sizes());
      }
    }
  }

  /** The last miss made room for itself, and later hits do not change `used`. */
  lemma {:induction false} ClassifyRoom(c: Setup, v: View, ks: seq<Key>, t: nat)
    requires Sound(c, v) && AllKeys(c, ks) && Distinct(ks)
    requires t < |c.tensors| && forall k :: k in ks ==> k.tensor == t
    ensures var (u, missed) := Classify(c, v, ks);
      missed == [] || u.lru.order == [] || u.lru.used + c.tensors[t].slice <= c.cap
  {
    if ks != [] {
      var s, k := ks[..|ks| - 1], ks[|ks| - 1];
      ClassifyRoom(c, v, s, t);
      var u := Classify(c, v, s).0;
      if k in u.lru.order {
        RefreshWf(u.lru, k, c.Sizes());
      } else {
        MakeRoomForFacts(c, u, c.Size(k));
        MakeRoomIsFit(u.lru, c.Size(k), c.cap, c.Sizes());
      }
    }
  }

  /** While the batch fits, every requested key is either a missed one or in the front of the list. */
  lemma {:induction false} ClassifyFront(c: Setup, v: View, ks: seq<Key>) returns (front: seq<Key>)
    requires Sound(c, v) && AllKeys(c, ks) && Distinct(ks) && Total(ks, c.Sizes()) <= c.cap
    ensures var (u, missed) := Classify(c, v, ks);
      && front <= u.lru.order
      && Total(front, c.Sizes()) <= Total(ks, c.Sizes())
      && (forall k :: k in front ==> k in ks)
      && (forall k :: k in ks ==> k in front || k in missed)
  {
    if ks == [] {
      front := [];
    } else {
      var t, k := ks[..|ks| - 1], ks[|ks| - 1];
      SplitLast(ks, t, k, c.Sizes());
      var before := ClassifyFront(c, v, t);
      var u := Classify(c, v, t).0;
      KeepFront(u.lru, before, k, c.Sizes(), c.cap);
      if k in u.lru.order {
        front := [k] + before;
        assert front[1..] == before;
      } else {
        MakeRoomForFacts(c, u, c.Size(k));
        front := before;
      }
    }
  }

  /** Filling serves exactly the filled slices and disturbs no other. */
  lemma {:induction false} FillAllServes(c: Setup, win: seq<byte>, ks: seq<Key>, k: Key)
    requires c.Valid() && AllKeys(c, ks) && |win| == c.windowLen && c.HasKey(k)
    ensures k in ks ==> Served(c, FillAll(c, win, ks), k)
    ensures k !in ks ==> (Served(c, FillAll(c, win, ks), k) <==> Served(c, win, k))
  {
    if ks != [] {
      var t, l := ks[..|ks| - 1], ks[|ks| - 1];
      assert ks == t + [l];
      FillAllServes(c, win, t, k);
      if k == l { FillServes(c, FillAll(c, win, t), k); } else { FillSpares(c, FillAll(c, win, t), l, k); }
    }
  }

  lemma {:induction false} CommitAllFacts(c: Setup, v: View, ks: seq<Key>)
    requires Sound(c, v) && AllKeys(c, ks) && Distinct(ks)
    requires forall k :: k in ks ==> k !in v.lru.order && Served(c, v.win, k)
    ensures var r := CommitAll(c, v, ks);
      && Sound(c, r)
      && r == v.(lru := v.lru.(order := r.lru.order, used := r.lru.used), shield := r.shield)
      && (forall k :: k in r.lru.order <==> k in v.lru.order || (k in ks && c.Size(k) <= c.cap))
      && ((forall k :: k in ks ==> c.Size(k) <= c.cap) ==>
            r.lru.used == v.lru.used + Total(ks, c.Sizes()) && |r.lru.order| == |v.lru.order| + |ks|)
      && ((forall k :: k in ks ==> c.Size(k) > c.cap) ==> r.lru.used == v.lru.used)
  {
    if ks != [] {
      var t, k := ks[..|ks| - 1], ks[|ks| - 1];
      assert ks == t + [k];
      TotalLast(ks, c.Sizes());
      CommitAllFacts(c, v, t);
      var u := CommitAll(c, v, t);
      CommitKeepsSound(c, u, k);
      InsertWf(u.lru, k, c.Size(k), c.cap, c.Sizes());
    }
  }

  /** `touch_batch_at` keeps the invariant; its counters account for every distinct request; and it
      may exceed the budget by one slice per miss after the first, but by no more. */
  lemma {:induction false} BatchAtFacts(c: Setup, v: View, ks: seq<Key>, t: nat)
    requires Sound(c, v) && AllKeys(c, ks) && Distinct(ks)
    requires t < |c.tensors| && forall k :: k in ks ==> k.tensor == t
    ensures var slice := c.tensors[t].slice; var m := |Classify(c, v, ks).1|;
      var r := TouchBatchAt(c, v, ks, slice);
      && Sound(c, r)
      && r == v.(lru := r.lru, shield := r.shield, win := r.win)
      && (forall k :: k in Classify(c, v, ks).1 ==> Served(c, r.win, k))
      && r.lru.misses == v.lru.misses + m && r.lru.missBytes == v.lru.missBytes + Bulk(m, slice)
      && r.lru.hits + r.lru.misses == v.lru.hits + v.lru.misses + |ks|
      && (if m == 0 then r.lru.used == v.lru.used else r.lru.used <= c.cap + Bulk(m - 1, slice))
      && r.lru.used == Classify(c, v, ks).0.lru.used + (if slice <= c.cap then Bulk(m, slice) else 0)
      && (slice <= c.cap ==>
            r.lru.misses - |r.lru.order| - r.lru.evictions == v.lru.misses - |v.lru.order| - v.lru.evictions)
  {
    var slice := c.tensors[t].slice;
    var (u, missed) := Classify(c, v, ks);
    var m := |missed|;
    ClassifyFacts(c, v, ks);
    ClassifyRoom(c, v, ks, t);
    var f := u.(win := FillAll(c, u.win, missed));
    forall k | c.HasKey(k) ensures k in missed ==> Served(c, f.win, k)
      ensures k in u.lru.order ==> Served(c, f.win, k)
    {
      FillAllServes(c, u.win, missed, k);
    }
    CommitAllFacts(c, f, missed);
    TotalOfTensor(c, missed, t);
  }

  /** `touch_batch_at`: requests that fit the budget together are all resident and correct afterwards,
      although evictions inside the batch may zero slices it still has to serve. */
  lemma {:induction false} BatchAtServed(c: Setup, v: View, ks: seq<Key>, t: nat, ids: seq<int>)
    requires Sound(c, v) && AllKeys(c, ks) && Enumerates(ks, t, ids)
    requires t < |c.tensors| && Bulk(|ks|, c.tensors[t].slice) <= c.cap
    ensures var r := TouchBatchAt(c, v, ks, c.tensors[t].slice);
      Sound(c, r) && ServesAll(c, r, t, ids)
  {
    var (u, missed) := Classify(c, v, ks);
    TotalOfTensor(c, ks, t);
    var front := ClassifyFront(c, v, ks);
    BatchAtFacts(c, v, ks, t);
    ClassifyFacts(c, v, ks);
    var f := u.(win := FillAll(c, u.win, missed));
    forall k | c.HasKey(k) ensures k in missed ==> Served(c, f.win, k)
      ensures k in u.lru.order ==> Served(c, f.win, k)
    {
      FillAllServes(c, u.win, missed, k);
    }
    CommitAllFacts(c, f, missed);
  }

  /** Some requested slice will be missing when its turn comes. */
  ghost predicate Misses(c: Setup, v: View, ks: seq<Key>) {
    Sound(c, v) && AllKeys(c, ks) && Classify(c, v, ks).1 != []
  }

  /** What a `touch_batch_at` that did not end the process leaves: the three phases, `m` misses counted,
      at most `m - 1` slices above the budget, and every requested slice if they all fit. */
  ghost predicate BatchDone(c: Setup, v: View, ks: seq<Key>, t: nat, ids: seq<int>, r: View, m: nat) {
    && Sound(c, v) && AllKeys(c, ks) && t < |c.tensors| && Sound(c, r)
    && r == TouchBatchAt(c, v, ks, c.tensors[t].slice)
    && r.lru.misses == v.lru.misses + m && m == |Classify(c, v, ks).1|
    && Requests(r) == Requests(v) + |ks|
    && (if m == 0 then r.lru.used == v.lru.used else r.lru.used <= c.cap + Bulk(m - 1, c.tensors[t].slice))
    && (Bulk(|ks|, c.tensors[t].slice) <= c.cap ==> ServesAll(c, r, t, ids))
  }

  lemma {:induction false} BatchAtOutcome(c: Setup, v: View, ks: seq<Key>, t: nat, ids: seq<int>, r: View, m: nat)
    requires Sound(c, v) && AllKeys(c, ks) && Enumerates(ks, t, ids) && t < |c.tensors|
    requires r == TouchBatchAt(c, v, ks, c.tensors[t].slice) && m == |Classify(c, v, ks).1| && Sound(c, r)
    ensures BatchDone(c, v, ks, t, ids, r, m)
  {
    BatchAtFacts(c, v, ks, t);
    if Bulk(|ks|, c.tensors[t].slice) <= c.cap { BatchAtServed(c, v, ks, t, ids); }
  }

  /** The requested keys that are not on record. */
  function Absent(order: seq<Key>, ks: seq<Key>): (n: nat)
    ensures n <= |ks|
  {
    if ks == [] then 0 else Absent(order, ks[..|ks| - 1]) + (if ks[|ks| - 1] in order then 0 else 1)
  }

  /** While one more slice fits, the first phase evicts nothing. */
  lemma {:induction false} ClassifyWithRoom(c: Setup, v: View, ks: seq<Key>, t: nat)
    requires Sound(c, v) && AllKeys(c, ks) && t < |c.tensors| && forall k :: k in ks ==> k.tensor == t
    requires v.lru.used + c.tensors[t].slice <= c.cap
    ensures var (u, missed) := Classify(c, v, ks);
      u.lru.used == v.lru.used && |missed| == Absent(v.lru.order, ks) && forall x :: x in u.lru.order <==> x in v.lru.order
  {
    if ks != [] {
      var s, k := ks[..|ks| - 1], ks[|ks| - 1];
      ClassifyWithRoom(c, v, s, t);
      var u := Classify(c, v, s).0;
      if k in u.lru.order { RefreshWf(u.lru, k, c.Sizes()); }
    }
  }

  /** Where one more slice fits, `touch_batch_at` stays within the budget if and only if all absent slices
      fit together: it records every one of them and evicts nothing. */
  lemma {:induction false} CapKeptIff(c: Setup, v: View, ks: seq<Key>, t: nat)
    requires Sound(c, v) && AllKeys(c, ks) && Distinct(ks)
    requires t < |c.tensors| && forall k :: k in ks ==> k.tensor == t
    requires v.lru.used + c.tensors[t].slice <= c.cap
    ensures var slice := c.tensors[t].slice; var n := Absent(v.lru.order, ks);
      var r := TouchBatchAt(c, v, ks, slice);
      && r.lru.used == v.lru.used + Bulk(n, slice) && r.lru.evictions == v.lru.evictions
      && (r.lru.used <= c.cap <==> v.lru.used + Bulk(n, slice) <= c.cap)
  {
    ClassifyWithRoom(c, v, ks, t);
    ClassifyFacts(c, v, ks);
    BatchAtFacts(c, v, ks, t);
    SameElements(Classify(c, v, ks).0.lru.order, v.lru.order);
    BatchAtEvictions(c, v, ks, t);
  }

  lemma {:induction false} SameElements(a: seq<Key>, b: seq<Key>)
    requires Distinct(a) && Distinct(b) && forall k :: k in a <==> k in b
    ensures |a| == |b|
  {
    DistinctCount(a);
    DistinctCount(b);
    assert Elements(a) == Elements(b);
  }

  /** Evictions happen in the first phase only. */
  lemma {:induction false} BatchAtEvictions(c: Setup, v: View, ks: seq<Key>, t: nat)
    requires Sound(c, v) && AllKeys(c, ks) && Distinct(ks)
    requires t < |c.tensors| && forall k :: k in ks ==> k.tensor == t
    ensures TouchBatchAt(c, v, ks, c.tensors[t].slice).lru.evictions == Classify(c, v, ks).0.lru.evictions
  {
    var (u, missed) := Classify(c, v, ks);
    ClassifyFacts(c, v, ks);
    var f := u.(win := FillAll(c, u.win, missed));
    forall k | c.HasKey(k) ensures k in missed ==> Served(c, f.win, k)
      ensures k in u.lru.order ==> Served(c, f.win, k)
    {
      FillAllServes(c, u.win, missed, k);
    }
    CommitAllFacts(c, f, missed);
  }

  /** A full cache: no further slice of this size fits, and every slice on record has that size. */
  ghost predicate FullOf(c: Setup, v: View, slice: nat) {
    && slice <= c.cap && v.lru.used <= c.cap < v.lru.used + slice
    && forall k :: k in v.lru.order ==> c.Size(k) == slice
  }

  /** In a full cache of equal slices the first miss evicts one slice, and the others evict nothing. */
  lemma {:induction false} ClassifyFull(c: Setup, v: View, ks: seq<Key>, t: nat)
    requires Sound(c, v) && AllKeys(c, ks) && t < |c.tensors| && forall k :: k in ks ==> k.tensor == t
    requires FullOf(c, v, c.tensors[t].slice)
    ensures var (u, missed) := Classify(c, v, ks);
      && u.lru.used == v.lru.used - (if missed == [] then 0 else c.tensors[t].slice)
      && forall x :: x in u.lru.order ==> c.Size(x) == c.tensors[t].slice
  {
    if ks != [] {
      var s, k := ks[..|ks| - 1], ks[|ks| - 1];
      ClassifyFull(c, v, s, t);
      var (u, missed) := Classify(c, v, s);
      if k in u.lru.order {
        RefreshWf(u.lru, k, c.Sizes());
      } else if missed == [] {
        OneEviction(c, u, c.tensors[t].slice);
      }
    }
  }

  lemma {:induction false} OneEviction(c: Setup, u: View, slice: nat)
    requires Sound(c, u) && FullOf(c, u, slice)
    ensures var r := MakeRoomFor(c, u, slice);
      r.lru.used == u.lru.used - slice && forall x :: x in r.lru.order ==> c.Size(x) == slice
  {
    assert u.lru.order != [];
    var r := EvictLast(c, u);
    EvictBackWf(u.lru, c.Sizes());
    assert r.lru.used + slice <= c.cap;
    assert MakeRoomFor(c, r, slice) == r;
  }

  /** A full cache of equal slices stays within the budget if and only if at most one slice is missed. */
  lemma {:induction false} FullCapKeptIff(c: Setup, v: View, ks: seq<Key>, t: nat)
    requires Sound(c, v) && AllKeys(c, ks) && Distinct(ks)
    requires t < |c.tensors| && forall k :: k in ks ==> k.tensor == t
    requires FullOf(c, v, c.tensors[t].slice)
    ensures var slice := c.tensors[t].slice; var m := |Classify(c, v, ks).1|;
      var r := TouchBatchAt(c, v, ks, slice);
      && r.lru.used == v.lru.used + (if m == 0 then 0 else Bulk(m - 1, slice))
      && (r.lru.used <= c.cap <==> m <= 1)
  {
    var slice := c.tensors[t].slice;
    FullUsed(c, v, ks, t, slice, |Classify(c, v, ks).1|, TouchBatchAt(c, v, ks, slice).lru.used);
  }

  lemma {:induction false} FullUsed(c: Setup, v: View, ks: seq<Key>, t: nat, slice: nat, m: nat, used: int)
    requires Sound(c, v) && AllKeys(c, ks) && Distinct(ks)
    requires t < |c.tensors| && forall k :: k in ks ==> k.tensor == t
    requires slice == c.tensors[t].slice && FullOf(c, v, slice)
    requires m == |Classify(c, v, ks).1| && used == TouchBatchAt(c, v, ks, slice).lru.used
    ensures used == v.lru.used - (if m == 0 then 0 else slice) + Bulk(m, slice)
  {
    ClassifyFull(c, v, ks, t);
    BatchAtFacts(c, v, ks, t);
  }

  /** The overshoot is real: `m` misses into an empty cache that can hold one slice leave
      `cap + (m - 1) * slice` bytes on record. */
  lemma {:induction false} OvershootReached(c: Setup, v: View, ks: seq<Key>, t: nat)
    requires IsFresh(c, v) && AllKeys(c, ks) && Distinct(ks) && ks != []
    requires t < |c.tensors| && (forall k :: k in ks ==> k.tensor == t) && c.cap == c.tensors[t].slice
    ensures Sound(c, v)
    ensures TouchBatchAt(c, v, ks, c.tensors[t].slice).lru.used == c.cap + Bulk(|ks| - 1, c.tensors[t].slice)
  {
    AllMissed(c, v, ks, t);
    var slice := c.tensors[t].slice;
    var f := v.(win := FillAll(c, v.win, ks));
    forall k | k in ks ensures Served(c, f.win, k) { FillAllServes(c, v.win, ks, k); }
    CommitAllFacts(c, f, ks);
    TotalOfTensor(c, ks, t);
  }

  lemma {:induction false} AllMissed(c: Setup, v: View, ks: seq<Key>, t: nat)
    requires IsFresh(c, v) && AllKeys(c, ks) && Sound(c, v)
    requires t < |c.tensors| && (forall k :: k in ks ==> k.tensor == t) && c.cap == c.tensors[t].slice
    ensures Classify(c, v, ks) == (v, ks)
  {
    if ks != [] {
      var s, k := ks[..|ks| - 1], ks[|ks| - 1];
      AllMissed(c, v, s, t);
      assert MakeRoomFor(c, v, c.Size(k)) == v;
      BackSplit(ks, s, k);
    }
  }

  lemma {:induction false} BackSplit(ks: seq<Key>, s: seq<Key>, k: Key)
    requires ks != [] && s == ks[..|ks| - 1] && k == ks[|ks| - 1]
    ensures ks == s + [k]
  {
  }

  // ---------------------------------------------------------------- lanes may fill in any order

  lemma {:induction false} FillsCommute(c: Setup, win: seq<byte>, k: Key, l: Key)
    requires c.Valid() && c.HasKey(k) && c.HasKey(l) && k != l && |win| == c.windowLen
    ensures Fill(c, Fill(c, win, k), l) == Fill(c, Fill(c, win, l), k)
  {
    SliceBounds(c, k);
    SliceBounds(c, l);
    SlicesDisjoint(c, k, l);
    if c.Addr(k) + c.Size(k) <= c.Addr(l) {
      StoreCommutes(win, c.Addr(k), c.Data(k), c.Addr(l), c.Data(l));
    } else {
      StoreCommutes(win, c.Addr(l), c.Data(l), c.Addr(k), c.Data(k));
    }
  }

  /** Any fill of the batch can be taken last. */
  lemma {:induction false} FillLast(c: Setup, win: seq<byte>, ks: seq<Key>, i: nat)
    requires c.Valid() && AllKeys(c, ks) && Distinct(ks) && |win| == c.windowLen && i < |ks|
    ensures AllKeys(c, ks[..i] + ks[i + 1..])
    ensures FillAll(c, win, ks) == Fill(c, FillAll(c, win, ks[..i] + ks[i + 1..]), ks[i])
  {
    var n := |ks| - 1;
    var others := ks[..i] + ks[i + 1..];
    if i == n {
      assert others == ks[..n];
    } else {
      var t := ks[..n];
      FillLast(c, win, t, i);
      assert others[..n - 1] == t[..i] + t[i + 1..];
      FillsCommute(c, FillAll(c, win, others[..n - 1]), ks[i], ks[n]);
    }
  }

  lemma {:induction false} CutOne(ks: seq<Key>, i: nat)
    requires Distinct(ks) && i < |ks|
    ensures var others := ks[..i] + ks[i + 1..];
      Distinct(others) && forall k :: k in others <==> k in ks && k != ks[i]
  {
    assert ks == ks[..i] + [ks[i]] + ks[i + 1..];
  }

  /** Lanes that fill the misses of a batch in any order leave the window the inline loop leaves. */
  lemma {:induction false} FillOrderIrrelevant(c: Setup, win: seq<byte>, ks: seq<Key>, done: seq<Key>)
    requires c.Valid() && AllKeys(c, ks) && Distinct(ks) && |win| == c.windowLen
    requires Distinct(done) && |done| == |ks| && forall k :: k in done <==> k in ks
    ensures AllKeys(c, done) && FillAll(c, win, done) == FillAll(c, win, ks)
    decreases |ks|
  {
    if ks != [] {
      var n := |done| - 1;
      var k := done[n];
      assert k in done;
      var i :| 0 <= i < |ks| && ks[i] == k;
      FillLast(c, win, ks, i);
      CutOne(ks, i);
      CutOne(done, n);
      assert done[..n] == done[..n] + done[n + 1..];
      FillOrderIrrelevant(c, win, ks[..i] + ks[i + 1..], done[..n]);
    }
  }
}
