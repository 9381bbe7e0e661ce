/** The calls of the cache are runs of the interleaved system's steps, so what is proved of every
    interleaving covers them. */
module CacheRuns {
  import opened Bytes
  import opened Lru
  import opened Residency
  import opened Batches
  import opened Prefetch

  /** A run whose last state is known to be well formed. */
  ghost predicate At(c: Setup, states: seq<System>, steps: seq<Step>, lock: Lock, filled: set<Key>, v: View) {
    && IsRun(c, states, steps) && Inv(c, states[|steps|])
    && states[|steps|].lock == lock && states[|steps|].filled == filled && states[|steps|].view == v
  }

  lemma {:induction false} MakeRoomSteps(c: Setup, states: seq<System>, steps: seq<Step>, f: set<Key>, v: View, k: Key)
    returns (ss: seq<System>, ts: seq<Step>)
    requires At(c, states, steps, ByDemand, f, v) && c.HasKey(k) && k !in v.lru.order
    ensures Shaped(c, v) && At(c, ss, ts, ByDemand, f, MakeRoomFor(c, v, c.Size(k)))
    decreases |v.lru.order|
  {
    ss, ts := states, steps;
    if !Room(c, v, k) {
      EvictInv(c, v);
      ss, ts := Extend(c, states, steps, DemandEvict(k));
      ss, ts := MakeRoomSteps(c, ss, ts, f, EvictLast(c, v), k);
    }
  }

  lemma {:induction false} MakeRoomLeavesRoom(c: Setup, v: View, k: Key)
    requires Shaped(c, v) && k !in v.lru.order
    ensures Room(c, MakeRoomFor(c, v, c.Size(k)), k) && k !in MakeRoomFor(c, v, c.Size(k)).lru.order
    decreases |v.lru.order|
  {
    if !Room(c, v, k) {
      MakeRoomLeavesRoom(c, EvictLast(c, v), k);
    }
  }

  /** One touch, whatever prefetch is doing meanwhile. */
  lemma {:induction false} TouchIsARun(c: Setup, states: seq<System>, steps: seq<Step>, v: View, k: Key)
    returns (ss: seq<System>, ts: seq<Step>)
    requires At(c, states, steps, Free, {}, v) && c.HasKey(k)
    ensures Shaped(c, v) && Distinct(v.lru.order) && At(c, ss, ts, Free, {}, TouchOne(c, v, k))
  {
    ss, ts := Extend(c, states, steps, DemandLock);
    if k in v.lru.order {
      ss, ts := Extend(c, ss, ts, DemandHit(k));
    } else {
      ss, ts := MakeRoomSteps(c, ss, ts, {}, v, k);
      MakeRoomLeavesRoom(c, v, k);
      ss, ts := Extend(c, ss, ts, DemandFill(k));
      ss, ts := Extend(c, ss, ts, DemandCommit(k));
      assert ss[|ts|].filled == {};
    }
    ss, ts := Extend(c, ss, ts, DemandUnlock);
  }

  lemma {:induction false} ClassifySteps(c: Setup, states: seq<System>, steps: seq<Step>, v: View, ks: seq<Key>)
    returns (ss: seq<System>, ts: seq<Step>)
    requires At(c, states, steps, ByDemand, {}, v) && Sound(c, v) && AllKeys(c, ks)
    ensures At(c, ss, ts, ByDemand, {}, Classify(c, v, ks).0)
  {
    ss, ts := states, steps;
    if ks != [] {
      var t, k := ks[..|ks| - 1], ks[|ks| - 1];
      ss, ts := ClassifySteps(c, states, steps, v, t);
      var u := Classify(c, v, t).0;
      if k in u.lru.order {
        ss, ts := Extend(c, ss, ts, DemandHit(k));
      } else {
        ss, ts := MakeRoomSteps(c, ss, ts, {}, u, k);
      }
    }
  }

  ghost function Counted(v: View, n: nat, bytes: nat): View {
    v.(lru := v.lru.(misses := v.lru.misses + n, missBytes := v.lru.missBytes + bytes))
  }

  lemma {:induction false} FillSteps(c: Setup, states: seq<System>, steps: seq<Step>, v: View, ks: seq<Key>)
    returns (ss: seq<System>, ts: seq<Step>)
    requires At(c, states, steps, ByDemand, {}, v) && Shaped(c, v) && AllKeys(c, ks) && Distinct(ks)
    requires forall k :: k in ks ==> k !in v.lru.order && Room(c, v, k)
    ensures At(c, ss, ts, ByDemand, Elements(ks),
      Counted(v.(win := FillAll(c, v.win, ks)), |ks|, Total(ks, c.Sizes())))
  {
    ss, ts := states, steps;
    if ks == [] {
      assert Elements(ks) == {};
    } else {
      var t, k := ks[..|ks| - 1], ks[|ks| - 1];
      SplitLast(ks, t, k, c.Sizes());
      ElementsLast(ks, t, k);
      ss, ts := FillSteps(c, states, steps, v, t);
      ss, ts := Extend(c, ss, ts, DemandFill(k));
    }
  }

  lemma {:induction false} CommitSteps(c: Setup, states: seq<System>, steps: seq<Step>, v: View, ks: seq<Key>, n: nat)
    returns (ss: seq<System>, ts: seq<Step>)
    requires At(c, states, steps, ByDemand, Elements(ks), v) && Shaped(c, v) && AllKeys(c, ks) && Distinct(ks)
    requires n <= |ks|
    ensures AllKeys(c, ks[..n]) && At(c, ss, ts, ByDemand, Elements(ks[n..]), CommitAll(c, v, ks[..n]))
  {
    ss, ts := states, steps;
    if n == 0 {
      assert ks[0..] == ks;
    } else {
      ss, ts := CommitSteps(c, states, steps, v, ks, n - 1);
      NextToCommit(ks, n, ks[n - 1]);
      ss, ts := Extend(c, ss, ts, DemandCommit(ks[n - 1]));
    }
  }

  lemma {:induction false} NextToCommit(ks: seq<Key>, n: nat, k: Key)
    requires Distinct(ks) && 0 < n <= |ks| && k == ks[n - 1]
    ensures k in Elements(ks[n - 1..]) && Elements(ks[n - 1..]) - {k} == Elements(ks[n..])
    ensures ks[..n][..n - 1] == ks[..n - 1]
  {
    assert ks[n - 1..] == [k] + ks[n..];
  }

  /** Recording slices does not look at the counters. */
  lemma {:induction false} CommitAllCounted(c: Setup, v: View, ks: seq<Key>, n: nat, bytes: nat)
    requires Shaped(c, v) && AllKeys(c, ks)
    ensures CommitAll(c, Counted(v, n, bytes), ks) == Counted(CommitAll(c, v, ks), n, bytes)
  {
    if ks != [] {
      CommitAllCounted(c, v, ks[..|ks| - 1], n, bytes);
    }
  }

  /** Counting the misses as they are filled or all at the end comes to the same. */
  lemma {:induction false} BatchAtByPhases(c: Setup, v: View, ks: seq<Key>, t: nat)
    requires Sound(c, v) && AllKeys(c, ks) && Distinct(ks)
    requires t < |c.tensors| && forall k :: k in ks ==> k.tensor == t
    ensures var (u, missed) := Classify(c, v, ks);
      TouchBatchAt(c, v, ks, c.tensors[t].slice) == CommitAll(c,
        Counted(u.(win := FillAll(c, u.win, missed)), |missed|, Total(missed, c.Sizes())), missed)
  {
    var (u, missed) := Classify(c, v, ks);
    ClassifyFacts(c, v, ks);
    CommitAllCounted(c, u.(win := FillAll(c, u.win, missed)), missed, |missed|, Total(missed, c.Sizes()));
    TotalOfTensor(c, missed, t);
  }

  /** Fills and commits of the missed slices, once there is room for each of them. */
  lemma {:induction false} FillThenCommit(c: Setup, states: seq<System>, steps: seq<Step>, u: View, missed: seq<Key>)
    returns (ss: seq<System>, ts: seq<Step>)
    requires At(c, states, steps, ByDemand, {}, u) && Shaped(c, u) && AllKeys(c, missed) && Distinct(missed)
    requires forall k :: k in missed ==> k !in u.lru.order && Room(c, u, k)
    ensures At(c, ss, ts, ByDemand, {}, CommitAll(c,
      Counted(u.(win := FillAll(c, u.win, missed)), |missed|, Total(missed, c.Sizes())), missed))
  {
    ss, ts := FillSteps(c, states, steps, u, missed);
    var f := Counted(u.(win := FillAll(c, u.win, missed)), |missed|, Total(missed, c.Sizes()));
    ss, ts := CommitSteps(c, ss, ts, f, missed, |missed|);
    assert missed[..|missed|] == missed;
    assert Elements(missed[|missed|..]) == {};
  }

  /** One offset-source batch, whatever prefetch is doing meanwhile. */
  lemma {:induction false} BatchAtIsARun(c: Setup, states: seq<System>, steps: seq<Step>, v: View, ks: seq<Key>, t: nat)
    returns (ss: seq<System>, ts: seq<Step>)
    requires At(c, states, steps, Free, {}, v) && Sound(c, v) && AllKeys(c, ks) && Distinct(ks)
    requires t < |c.tensors| && forall k :: k in ks ==> k.tensor == t
    ensures At(c, ss, ts, Free, {}, TouchBatchAt(c, v, ks, c.tensors[t].slice))
  {
    var (u, missed) := Classify(c, v, ks);
    ss, ts := Extend(c, states, steps, DemandLock);
    ss, ts := ClassifySteps(c, ss, ts, v, ks);
    assert forall k :: k in missed ==> k !in u.lru.order && Room(c, u, k) by {
      ClassifyFacts(c, v, ks);
      ClassifyRoom(c, v, ks, t);
    }
    assert Distinct(missed) by { ClassifyFacts(c, v, ks); }
    ss, ts := FillThenCommit(c, ss, ts, u, missed);
    BatchAtByPhases(c, v, ks, t);
    ss, ts := Extend(c, ss, ts, DemandUnlock);
  }

  // ---------------------------------------------------------------- the commit loop of a prefetch

  /** Records one prefetched slice, unless it is listed by now. */
  function CommitOne(c: Setup, v: View, k: Key): (r: View)
    requires Shaped(c, v) && c.HasKey(k)
    ensures Shaped(c, r)
  {
    if k in v.lru.order then v
    else
      var w := MakeRoomFor(c, v, c.Size(k));
      Commit(c, w, k).(prefetched := w.prefetched + 1)
  }

  /** The loop that records the prefetched slices `ks`. */
  function CommitPrefetched(c: Setup, v: View, ks: seq<Key>): (r: View)
    requires Shaped(c, v) && AllKeys(c, ks)
    ensures Shaped(c, r)
  {
    if ks == [] then v else CommitOne(c, CommitPrefetched(c, v, ks[..|ks| - 1]), ks[|ks| - 1])
  }

  /** The run ends inside the commit loop, in front of job `n` of those for `ks`. */
  ghost predicate InLoop(c: Setup, states: seq<System>, steps: seq<Step>, ks: seq<Key>, n: nat, v: View) {
    && IsRun(c, states, steps) && Inv(c, states[|steps|])
    && var s := states[|steps|];
       s.phase == Committing(n) && s.filled == {} && s.view == v && HasJobs(s, ks)
  }

  ghost predicate HasJobs(s: System, ks: seq<Key>) {
    |s.jobs| == |ks| && forall i :: 0 <= i < |ks| ==> s.jobs[i].key == ks[i]
  }

  lemma {:induction false} PrefetchRoomSteps(c: Setup, states: seq<System>, steps: seq<Step>, ks: seq<Key>, n: nat, v: View)
    returns (ss: seq<System>, ts: seq<Step>)
    requires InLoop(c, states, steps, ks, n, v) && n < |ks| && ks[n] !in v.lru.order
    ensures Shaped(c, v) && c.HasKey(ks[n]) && InLoop(c, ss, ts, ks, n, MakeRoomFor(c, v, c.Size(ks[n])))
    decreases |v.lru.order|
  {
    ss, ts := states, steps;
    assert JobOk(c, ss[|ts|].jobs[n]);
    if !Room(c, v, ks[n]) {
      EvictInv(c, v);
      ss, ts := Extend(c, states, steps, PrefetchEvict);
      ss, ts := PrefetchRoomSteps(c, ss, ts, ks, n, EvictLast(c, v));
    }
  }

  lemma {:induction false} PrefetchOne(c: Setup, states: seq<System>, steps: seq<Step>, ks: seq<Key>, n: nat, v: View, k: Key)
    returns (ss: seq<System>, ts: seq<Step>)
    requires InLoop(c, states, steps, ks, n, v) && Shaped(c, v) && n < |ks| && k == ks[n] && c.HasKey(k)
    ensures InLoop(c, ss, ts, ks, n + 1, CommitOne(c, v, k))
  {
    ss, ts := states, steps;
    if k !in v.lru.order {
      ss, ts := PrefetchRoomSteps(c, states, steps, ks, n, v);
      MakeRoomLeavesRoom(c, v, k);
    }
    ss, ts := Extend(c, ss, ts, PrefetchCommit);
  }

  lemma {:induction false} PrefetchCommitSteps(c: Setup, states: seq<System>, steps: seq<Step>, ks: seq<Key>, v: View, n: nat)
    returns (ss: seq<System>, ts: seq<Step>)
    requires InLoop(c, states, steps, ks, 0, v) && Shaped(c, v) && AllKeys(c, ks) && n <= |ks|
    ensures AllKeys(c, ks[..n]) && InLoop(c, ss, ts, ks, n, CommitPrefetched(c, v, ks[..n]))
  {
    ss, ts := states, steps;
    if n > 0 {
      ss, ts := PrefetchCommitSteps(c, states, steps, ks, v, n - 1);
      assert ks[..n][..n - 1] == ks[..n - 1];
      ss, ts := PrefetchOne(c, ss, ts, ks, n - 1, CommitPrefetched(c, v, ks[..n - 1]), ks[n - 1]);
    }
  }

  /** Once every slice has been read, the prefetch can take the lock and record them all: the evictions and
      commits of its loop are a run, whatever demand did before. */
  lemma {:induction false} PrefetchIsARun(c: Setup, states: seq<System>, steps: seq<Step>, ks: seq<Key>)
    returns (ss: seq<System>, ts: seq<Step>)
    requires IsRun(c, states, steps) && Inv(c, states[|steps|]) && HasJobs(states[|steps|], ks)
    requires Enabled(c, states[|steps|], PrefetchLock)
    ensures Shaped(c, states[|steps|].view) && AllKeys(c, ks)
    ensures At(c, ss, ts, Free, {}, CommitPrefetched(c, states[|steps|].view, ks)) && ss[|ts|].phase == Idle
  {
    var s := states[|steps|];
    forall i | 0 <= i < |ks| ensures c.HasKey(ks[i]) { assert JobOk(c, s.jobs[i]); }
    ss, ts := Extend(c, states, steps, PrefetchLock);
    ss, ts := PrefetchCommitSteps(c, ss, ts, ks, s.view, |ks|);
    assert ks[..|ks|] == ks;
    ss, ts := Extend(c, ss, ts, PrefetchUnlock);
  }

  /** The loop leaves the cache within its budget if and only if it was so before or one of the slices was
      not listed: the first one evicts whatever stands in its way. Otherwise nothing changes. */
  lemma {:induction false} PrefetchFitsIff(c: Setup, v: View, ks: seq<Key>)
    requires Shaped(c, v) && Lru.Wf(v.lru, c.Sizes()) && AllKeys(c, ks)
    ensures var r := CommitPrefetched(c, v, ks);
      && Lru.Wf(r.lru, c.Sizes())
      && (r.lru.used <= c.cap <==> v.lru.used <= c.cap || exists k :: k in ks && k !in v.lru.order)
      && ((forall k :: k in ks ==> k in v.lru.order) ==> r == v)
  {
    if ks != [] {
      var t, k := ks[..|ks| - 1], ks[|ks| - 1];
      PrefetchFitsIff(c, v, t);
      assert ks == t + [k];
      var u := CommitPrefetched(c, v, t);
      if k !in u.lru.order {
        MakeRoomLeavesRoom(c, u, k);
        MakeRoomForWf(c, u, c.Size(k));
        InsertWf(MakeRoomFor(c, u, c.Size(k)).lru, k, c.Size(k), c.cap, c.Sizes());
      }
    }
  }

  lemma {:induction false} MakeRoomForWf(c: Setup, v: View, bytes: nat)
    requires Shaped(c, v) && Lru.Wf(v.lru, c.Sizes())
    ensures Lru.Wf(MakeRoomFor(c, v, bytes).lru, c.Sizes())
    decreases |v.lru.order|
  {
    if v.lru.used + bytes > c.cap && v.lru.order != [] {
      EvictBackWf(v.lru, c.Sizes());
      MakeRoomForWf(c, EvictLast(c, v), bytes);
    }
  }
}
