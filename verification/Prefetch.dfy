/** Background prefetch racing demand requests.
    The cache lock protects filtering, evictions and commits; prefetch reads run without it, a few
    bytes at a time, and may interleave with anything. */
module Prefetch {
  import opened Bytes
  import opened Lru
  import opened Residency
  import opened Batches

  /** One slice being prefetched: bytes read so far, and how many of those the most recent eviction
      of the slice zeroed again. */
  datatype Job = Job(key: Key, done: nat, lost: nat)

  datatype Lock = Free | ByDemand | ByPrefetch

  datatype Phase = Idle | Reading | Committing(next: nat)

  /** `filled` are the slices that demand has filled but not recorded yet. */
  datatype System = System(view: View, lock: Lock, filled: set<Key>, phase: Phase, jobs: seq<Job>)

  datatype Step =
    | DemandLock
    | DemandHit(k: Key)
    | DemandEvict(k: Key)
    | DemandFill(k: Key)
    | DemandCommit(k: Key)
    | DemandUnlock
    | PrefetchFilter(ks: seq<Key>)
    | PrefetchRead(i: nat, n: nat)
    | PrefetchFail
    | PrefetchLock
    | PrefetchEvict
    | PrefetchCommit
    | PrefetchUnlock

  ghost predicate Room(c: Setup, v: View, k: Key) {
    v.lru.used + c.Size(k) <= c.cap || v.lru.order == []
  }

  /** Bookkeeping invariant. */
  ghost predicate Inv(c: Setup, s: System) {
    && Shaped(c, s.view)
    && Lru.Wf(s.view.lru, c.Sizes())
    && ShieldPrefix(s.view.lru.order, s.view.shield)
    && (forall k :: k in s.filled ==> c.HasKey(k) && k !in s.view.lru.order)
    && (s.filled != {} ==> s.lock == ByDemand)
    && (s.lock == ByPrefetch <==> s.phase.Committing?)
    && (forall i :: 0 <= i < |s.jobs| ==> JobOk(c, s.jobs[i]))
    && (forall i, j :: 0 <= i < j < |s.jobs| ==> s.jobs[i].key != s.jobs[j].key)
    && (s.phase.Committing? ==>
          s.phase.next <= |s.jobs| && forall i :: 0 <= i < |s.jobs| ==> s.jobs[i].done == c.Size(s.jobs[i].key))
  }

  ghost predicate JobOk(c: Setup, j: Job) {
    c.HasKey(j.key) && j.lost <= j.done <= c.Size(j.key)
  }

  ghost predicate Enabled(c: Setup, s: System, step: Step)
    requires Inv(c, s)
  {
    match step
    case DemandLock => s.lock == Free
    case DemandHit(k) => s.lock == ByDemand && k in s.view.lru.order
    case DemandEvict(k) => s.lock == ByDemand && c.HasKey(k) && k !in s.view.lru.order && !Room(c, s.view, k)
    case DemandFill(k) =>
      s.lock == ByDemand && c.HasKey(k) && k !in s.view.lru.order && k !in s.filled && Room(c, s.view, k)
    case DemandCommit(k) => s.lock == ByDemand && k in s.filled
    case DemandUnlock => s.lock == ByDemand && s.filled == {}
    case PrefetchFilter(ks) =>
      s.lock == Free && s.phase == Idle && Distinct(ks) && forall k :: k in ks ==> c.HasKey(k) && k !in s.view.lru.order
    case PrefetchRead(i, n) =>
      s.phase == Reading && i < |s.jobs| && s.jobs[i].done + n <= c.Size(s.jobs[i].key)
    case PrefetchFail => s.phase == Reading
    case PrefetchLock =>
      s.lock == Free && s.phase == Reading && forall i :: 0 <= i < |s.jobs| ==> s.jobs[i].done == c.Size(s.jobs[i].key)
    case PrefetchEvict =>
      s.phase.Committing? && s.phase.next < |s.jobs|
      && s.jobs[s.phase.next].key !in s.view.lru.order && !Room(c, s.view, s.jobs[s.phase.next].key)
    case PrefetchCommit =>
      s.phase.Committing? && s.phase.next < |s.jobs|
      && (s.jobs[s.phase.next].key in s.view.lru.order || Room(c, s.view, s.jobs[s.phase.next].key))
    case PrefetchUnlock => s.phase.Committing? && s.phase.next == |s.jobs|
  }

  /** Everything read so far of an evicted slice is gone. */
  function Lose(jobs: seq<Job>, victim: Key): (r: seq<Job>)
    ensures |r| == |jobs|
    ensures forall i :: 0 <= i < |jobs| ==>
      r[i] == if jobs[i].key == victim then jobs[i].(lost := jobs[i].done) else jobs[i]
  {
    seq(|jobs|, i requires 0 <= i < |jobs| => if jobs[i].key == victim then jobs[i].(lost := jobs[i].done) else jobs[i])
  }

  ghost function Evict(c: Setup, s: System): System
    requires Shaped(c, s.view) && s.view.lru.order != []
  {
    var order := s.view.lru.order;
    s.(view := EvictLast(c, s.view), jobs := Lose(s.jobs, order[|order| - 1]))
  }

  function ReadMore(c: Setup, win: seq<byte>, j: Job, n: nat): (w: seq<byte>)
    requires c.Valid() && c.HasKey(j.key) && |win| == c.windowLen && j.done + n <= c.Size(j.key)
    ensures |w| == |win|
  {
    SliceBounds(c, j.key);
    Store(win, c.Addr(j.key) + j.done, Source(c, j.key)[j.done..j.done + n])
  }

  ghost function Apply(c: Setup, s: System, step: Step): System
    requires Inv(c, s) && Enabled(c, s, step)
  {
    match step
    case DemandLock => s.(lock := ByDemand)
    case DemandHit(k) => s.(view := Hit(c, s.view, k))
    case DemandEvict(k) => Evict(c, s)
    case DemandFill(k) =>
      s.(view := s.view.(win := Fill(c, s.view.win, k), lru := CountMiss(s.view.lru, c.Size(k))), filled := s.filled + {k})
    case DemandCommit(k) => s.(view := Commit(c, s.view, k), filled := s.filled - {k})
    case DemandUnlock => s.(lock := Free)
    case PrefetchFilter(ks) => s.(phase := Reading, jobs := seq(|ks|, i requires 0 <= i < |ks| => Job(ks[i], 0, 0)))
    case PrefetchRead(i, n) =>
      var j := s.jobs[i];
      s.(view := s.view.(win := ReadMore(c, s.view.win, j, n)), jobs := s.jobs[i := j.(done := j.done + n)])
    case PrefetchFail => s.(phase := Idle, jobs := [])
    case PrefetchLock => s.(lock := ByPrefetch, phase := Committing(0))
    case PrefetchEvict => Evict(c, s)
    case PrefetchCommit =>
      var k := s.jobs[s.phase.next].key;
      var v := if k in s.view.lru.order then s.view
               else Commit(c, s.view, k).(prefetched := s.view.prefetched + 1);
      s.(view := v, phase := Committing(s.phase.next + 1))
    case PrefetchUnlock => s.(lock := Free, phase := Idle, jobs := [])
  }

  // ---------------------------------------------------------------- bookkeeping survives every interleaving

  lemma {:induction false} HitInv(c: Setup, v: View, k: Key)
    requires Shaped(c, v) && Lru.Wf(v.lru, c.Sizes()) && ShieldPrefix(v.lru.order, v.shield) && k in v.lru.order
    ensures var r := Hit(c, v, k);
      && Shaped(c, r) && Lru.Wf(r.lru, c.Sizes()) && ShieldPrefix(r.lru.order, r.shield) && r.win == v.win
      && forall x :: x in r.lru.order <==> x in v.lru.order
  {
    RefreshWf(v.lru, k, c.Sizes());
    HitKeepsShieldPrefix(v.lru.order, v.shield, k);
  }

  lemma {:induction false} EvictInv(c: Setup, v: View)
    requires Shaped(c, v) && Lru.Wf(v.lru, c.Sizes()) && ShieldPrefix(v.lru.order, v.shield) && v.lru.order != []
    ensures var r := EvictLast(c, v);
      && Shaped(c, r) && Lru.Wf(r.lru, c.Sizes()) && ShieldPrefix(r.lru.order, r.shield)
      && forall x :: x in r.lru.order <==> x in v.lru.order && x != v.lru.order[|v.lru.order| - 1]
  {
    EvictBackWf(v.lru, c.Sizes());
  }

  lemma {:induction false} CommitInv(c: Setup, v: View, k: Key)
    requires Shaped(c, v) && Lru.Wf(v.lru, c.Sizes()) && ShieldPrefix(v.lru.order, v.shield)
    requires c.HasKey(k) && k !in v.lru.order
    ensures var r := Commit(c, v, k);
      && Shaped(c, r) && Lru.Wf(r.lru, c.Sizes()) && ShieldPrefix(r.lru.order, r.shield) && r.win == v.win
      && forall x :: x in r.lru.order <==> x in v.lru.order || (x == k && c.Size(k) <= c.cap)
  {
    var lru := Insert(v.lru, k, c.Size(k), c.cap);
    InsertWf(v.lru, k, c.Size(k), c.cap, c.Sizes());
    assert ShieldPrefix(lru.order, v.shield + {k});
    assert lru.order[..|lru.order|] == lru.order;
    TrimShieldFacts(lru.order, |lru.order|, v.shield + {k});
  }

  lemma {:induction false} DemandKeepsInv(c: Setup, s: System, step: Step)
    requires Inv(c, s) && Enabled(c, s, step)
    requires step.DemandHit? || step.DemandEvict? || step.DemandFill? || step.DemandCommit? || step.DemandUnlock?
    ensures Inv(c, Apply(c, s, step))
  {
    match step
    case DemandHit(k) => HitInv(c, s.view, k);
    case DemandEvict(k) => EvictInv(c, s.view);
    case DemandCommit(k) => CommitInv(c, s.view, k);
    case _ =>
  }

  /** Every step of every thread keeps the bookkeeping right: the list has no duplicates, `used` is
      the sum of the recorded sizes, and shielded keys stay in front. */
  lemma {:induction false} StepKeepsInv(c: Setup, s: System, step: Step)
    requires Inv(c, s) && Enabled(c, s, step)
    ensures Inv(c, Apply(c, s, step))
  {
    match step
    case PrefetchEvict => EvictInv(c, s.view);
    case PrefetchCommit =>
      var k := s.jobs[s.phase.next].key;
      if k !in s.view.lru.order { CommitInv(c, s.view, k); }
    case DemandLock =>
    case PrefetchFilter(ks) =>
    case PrefetchRead(i, n) =>
    case PrefetchFail =>
    case PrefetchLock =>
    case PrefetchUnlock =>
    case _ => DemandKeepsInv(c, s, step);
  }

  // ---------------------------------------------------------------- data

  /** What the window holds of a slice that is being read and is not resident:
      zeros where an eviction undid the read, source bytes where it did not. */
  ghost predicate Progress(c: Setup, win: seq<byte>, j: Job)
    requires c.Valid() && JobOk(c, j) && |win| == c.windowLen
  {
    var s := SliceOf(c, win, j.key);
    s[..j.lost] == Zeros(j.lost) && s[j.lost..j.done] == Source(c, j.key)[j.lost..j.done]
  }

  /** Jobs that have not been handled by the commit loop yet. */
  predicate Pending(s: System, i: nat) {
    i < |s.jobs| && (s.phase.Committing? ==> s.phase.next <= i)
  }

  /** Pending jobs whose slice only the prefetch has written since it was last zeroed.
      Slices above the budget are never recorded, so nothing is claimed of them. */
  ghost predicate Tracked(c: Setup, s: System, i: nat) {
    && Pending(s, i) && c.Size(s.jobs[i].key) <= c.cap
    && s.jobs[i].key !in s.view.lru.order && s.jobs[i].key !in s.filled
  }

  ghost predicate DataInv(c: Setup, s: System)
    requires Inv(c, s)
  {
    && Coherent(c, s.view)
    && (forall k :: k in s.filled ==> Served(c, s.view.win, k))
    && (forall i: nat :: Tracked(c, s, i) ==> Progress(c, s.view.win, s.jobs[i]))
  }

  /** The bytes that an eviction took from the job were zero in the file anyway. */
  ghost predicate Harmless(c: Setup, j: Job)
    requires c.Valid() && JobOk(c, j)
  {
    Source(c, j.key)[..j.lost] == Zeros(j.lost)
  }

  /** The commit about to happen records a slice whose bytes an eviction zeroed after they were read. */
  ghost predicate Harmful(c: Setup, s: System, step: Step)
    requires Inv(c, s) && Enabled(c, s, step)
  {
    && step == PrefetchCommit
    && var j := s.jobs[s.phase.next];
       j.key !in s.view.lru.order && c.Size(j.key) <= c.cap && !Harmless(c, j)
  }

  lemma {:induction false} EvictData(c: Setup, s: System)
    requires Inv(c, s) && DataInv(c, s) && s.view.lru.order != [] && Inv(c, Evict(c, s))
    ensures DataInv(c, Evict(c, s))
  {
    var r := Evict(c, s);
    var victim := s.view.lru.order[|s.view.lru.order| - 1];
    EvictInv(c, s.view);
    SliceBounds(c, victim);
    StoreAt(s.view.win, c.Addr(victim), Zeros(c.Size(victim)));
    assert SliceOf(c, r.view.win, victim) == Zeros(c.Size(victim));
    forall k | c.HasKey(k) && k != victim ensures SliceOf(c, r.view.win, k) == SliceOf(c, s.view.win, k) {
      FillSpares(c, s.view.win, victim, k);
    }
    forall i: nat | Tracked(c, r, i) ensures Progress(c, r.view.win, r.jobs[i]) {
      if s.jobs[i].key != victim { assert Tracked(c, s, i); }
    }
  }

  lemma {:induction false} FillData(c: Setup, s: System, k: Key)
    requires Inv(c, s) && DataInv(c, s) && Enabled(c, s, DemandFill(k)) && Inv(c, Apply(c, s, DemandFill(k)))
    ensures DataInv(c, Apply(c, s, DemandFill(k)))
  {
    var r := Apply(c, s, DemandFill(k));
    FillServes(c, s.view.win, k);
    forall x | c.HasKey(x) && x != k ensures SliceOf(c, r.view.win, x) == SliceOf(c, s.view.win, x) {
      FillSpares(c, s.view.win, k, x);
    }
    forall i: nat | Tracked(c, r, i) ensures Progress(c, r.view.win, r.jobs[i]) {
      assert Tracked(c, s, i);
    }
  }

  /** A partial read stores source bytes in its own slice only. */
  lemma {:induction false} ReadMoreFacts(c: Setup, win: seq<byte>, j: Job, n: nat)
    requires c.Valid() && JobOk(c, j) && |win| == c.windowLen && j.done + n <= c.Size(j.key)
    ensures var w := ReadMore(c, win, j, n);
      && SliceOf(c, w, j.key) == SliceOf(c, win, j.key)[..j.done] + Source(c, j.key)[j.done..j.done + n]
                                 + SliceOf(c, win, j.key)[j.done + n..]
      && forall x :: c.HasKey(x) && x != j.key ==> SliceOf(c, w, x) == SliceOf(c, win, x)
  {
    var w := ReadMore(c, win, j, n);
    ReadMoreWithin(c, win, j, n, w);
    forall x | c.HasKey(x) && x != j.key ensures SliceOf(c, w, x) == SliceOf(c, win, x) {
      WithinSpares(c, win, w, j.key, x);
    }
  }

  lemma {:induction false} ReadMoreWithin(c: Setup, win: seq<byte>, j: Job, n: nat, w: seq<byte>)
    requires c.Valid() && JobOk(c, j) && |win| == c.windowLen && j.done + n <= c.Size(j.key) && w == ReadMore(c, win, j, n)
    ensures c.Addr(j.key) + c.Size(j.key) <= c.windowLen && OnlyWithin(win, w, c.Addr(j.key), c.Size(j.key))
    ensures SliceOf(c, w, j.key) == SliceOf(c, win, j.key)[..j.done] + Source(c, j.key)[j.done..j.done + n]
                                    + SliceOf(c, win, j.key)[j.done + n..]
  {
    SliceBounds(c, j.key);
    StoreInRange(win, c.Addr(j.key), c.Size(j.key), j.done, Source(c, j.key)[j.done..j.done + n]);
  }

  lemma {:induction false} ReadData(c: Setup, s: System, i: nat, n: nat)
    requires Inv(c, s) && DataInv(c, s) && Enabled(c, s, PrefetchRead(i, n)) && Inv(c, Apply(c, s, PrefetchRead(i, n)))
    ensures DataInv(c, Apply(c, s, PrefetchRead(i, n)))
  {
    var r := Apply(c, s, PrefetchRead(i, n));
    var j := s.jobs[i];
    ReadMoreFacts(c, s.view.win, j, n);
    SliceBounds(c, j.key);
    var before, now, data := SliceOf(c, s.view.win, j.key), SliceOf(c, r.view.win, j.key), Source(c, j.key);
    MoreData(before, data, j.done, n);
    ReadTracked(c, s, r, i, n);
  }

  lemma {:induction false} ReadTracked(c: Setup, s: System, r: System, i: nat, n: nat)
    requires Inv(c, s) && DataInv(c, s) && Enabled(c, s, PrefetchRead(i, n)) && r == Apply(c, s, PrefetchRead(i, n)) && Inv(c, r)
    ensures forall m: nat :: Tracked(c, r, m) ==> Progress(c, r.view.win, r.jobs[m])
  {
    var j := s.jobs[i];
    ReadMoreFacts(c, s.view.win, j, n);
    forall m: nat | Tracked(c, r, m) ensures Progress(c, r.view.win, r.jobs[m]) {
      assert Tracked(c, s, m);
      if m == i { MoreProgress(SliceOf(c, s.view.win, j.key), Source(c, j.key), j.lost, j.done, n); }
    }
  }

  lemma {:induction false} MoreData(before: seq<byte>, data: seq<byte>, done: nat, n: nat)
    requires |before| == |data| && done + n <= |data|
    ensures before == data ==> before[..done] + data[done..done + n] + before[done + n..] == data
  {
  }

  lemma {:induction false} MoreProgress(before: seq<byte>, data: seq<byte>, lost: nat, done: nat, n: nat)
    requires |before| == |data| && lost <= done && done + n <= |data| && before[lost..done] == data[lost..done]
    ensures var now := before[..done] + data[done..done + n] + before[done + n..];
      now[..lost] == before[..lost] && now[lost..done + n] == data[lost..done + n]
  {
    var now := before[..done] + data[done..done + n] + before[done + n..];
    assert now[..done] == before[..done];
    assert now[lost..done + n] == before[lost..done] + data[done..done + n];
    assert data[lost..done + n] == data[lost..done] + data[done..done + n];
  }

  /** A commit serves its slice if and only if no nonzero byte was lost. */
  lemma {:induction false} CommitData(c: Setup, s: System)
    requires Inv(c, s) && DataInv(c, s) && Enabled(c, s, PrefetchCommit) && Inv(c, Apply(c, s, PrefetchCommit))
    ensures Coherent(c, Apply(c, s, PrefetchCommit).view) <==> !Harmful(c, s, PrefetchCommit)
    ensures !Harmful(c, s, PrefetchCommit) ==> DataInv(c, Apply(c, s, PrefetchCommit))
  {
    var r := Apply(c, s, PrefetchCommit);
    var j := s.jobs[s.phase.next];
    if j.key !in s.view.lru.order {
      CommitInv(c, s.view, j.key);
      assert r.view.win == s.view.win;
      if c.Size(j.key) <= c.cap {
        assert Tracked(c, s, s.phase.next);
        SliceBounds(c, j.key);
        var now, data := SliceOf(c, s.view.win, j.key), Source(c, j.key);
        assert now == now[..j.lost] + now[j.lost..j.done];
        assert data == data[..j.lost] + data[j.lost..j.done];
        if Served(c, s.view.win, j.key) { assert now[..j.lost] == data[..j.lost]; }
      }
    }
    forall i: nat | Tracked(c, r, i) ensures Progress(c, r.view.win, r.jobs[i]) {
      assert Tracked(c, s, i);
    }
  }

  /** Each step keeps every resident slice equal to its source, unless it is a harmful commit. */
  lemma {:induction false} StepData(c: Setup, s: System, step: Step)
    requires Inv(c, s) && DataInv(c, s) && Enabled(c, s, step)
    ensures Inv(c, Apply(c, s, step))
    ensures Coherent(c, Apply(c, s, step).view) <==> !Harmful(c, s, step)
    ensures !Harmful(c, s, step) ==> DataInv(c, Apply(c, s, step))
  {
    StepKeepsInv(c, s, step);
    var r := Apply(c, s, step);
    match step
    case DemandEvict(k) => EvictData(c, s);
    case PrefetchEvict => EvictData(c, s);
    case DemandFill(k) => FillData(c, s, k);
    case PrefetchRead(i, n) => ReadData(c, s, i, n);
    case PrefetchCommit => CommitData(c, s);
    case DemandHit(k) =>
      HitInv(c, s.view, k);
      forall i: nat | Tracked(c, r, i) ensures Progress(c, r.view.win, r.jobs[i]) { assert Tracked(c, s, i); }
    case DemandCommit(k) =>
      CommitInv(c, s.view, k);
      forall i: nat | Tracked(c, r, i) ensures Progress(c, r.view.win, r.jobs[i]) { assert Tracked(c, s, i); }
    case PrefetchFail => assert r.jobs == [];
    case PrefetchUnlock => assert r.jobs == [];
    case PrefetchFilter(ks) =>
      forall i: nat | Tracked(c, r, i) ensures Progress(c, r.view.win, r.jobs[i]) { assert r.jobs[i].done == 0; }
    case _ =>
      forall i: nat | Tracked(c, r, i) ensures Progress(c, r.view.win, r.jobs[i]) { assert Tracked(c, s, i); }
  }

  // ---------------------------------------------------------------- whole runs

  /** The states that a list of steps passes through, each step being enabled where it is taken. */
  ghost predicate IsRun(c: Setup, states: seq<System>, steps: seq<Step>) {
    && |states| == |steps| + 1
    && Inv(c, states[0]) && DataInv(c, states[0])
    && forall i :: 0 <= i < |steps| ==> Takes(c, states[i], steps[i], states[i + 1])
  }

  ghost predicate Takes(c: Setup, s: System, step: Step, r: System) {
    Inv(c, s) && Enabled(c, s, step) && r == Apply(c, s, step)
  }

  ghost predicate CoherentThroughout(c: Setup, states: seq<System>) {
    forall i :: 0 <= i < |states| ==> Inv(c, states[i]) && Coherent(c, states[i].view)
  }

  ghost predicate NeverHarmful(c: Setup, states: seq<System>, steps: seq<Step>)
    requires IsRun(c, states, steps)
  {
    forall i :: 0 <= i < |steps| ==> !(Takes(c, states[i], steps[i], states[i + 1]) && Harmful(c, states[i], steps[i]))
  }

  /** Bookkeeping holds in every state of every interleaving, harmful or not. */
  lemma {:induction false} RunKeepsInv(c: Setup, states: seq<System>, steps: seq<Step>, n: nat)
    requires IsRun(c, states, steps) && n < |states|
    ensures Inv(c, states[n])
  {
    if n > 0 {
      RunKeepsInv(c, states, steps, n - 1);
      assert Takes(c, states[n - 1], steps[n - 1], states[n]);
      StepKeepsInv(c, states[n - 1], steps[n - 1]);
    }
  }

  lemma {:induction false} RunKeepsData(c: Setup, states: seq<System>, steps: seq<Step>, n: nat)
    requires IsRun(c, states, steps) && n < |states|
    requires forall i :: 0 <= i < n ==> !(Takes(c, states[i], steps[i], states[i + 1]) && Harmful(c, states[i], steps[i]))
    ensures Inv(c, states[n]) && DataInv(c, states[n])
  {
    if n > 0 {
      RunKeepsData(c, states, steps, n - 1);
      assert Takes(c, states[n - 1], steps[n - 1], states[n]);
      StepData(c, states[n - 1], steps[n - 1]);
    }
  }

  /** Whatever the interleaving, all resident bytes equal the source at every moment of a run if and
      only if no commit of the run records a slice that lost nonzero bytes after they were read. */
  lemma {:induction false} CoherentIffNeverHarmful(c: Setup, states: seq<System>, steps: seq<Step>)
    requires IsRun(c, states, steps)
    ensures CoherentThroughout(c, states) <==> NeverHarmful(c, states, steps)
  {
    if NeverHarmful(c, states, steps) {
      forall i | 0 <= i < |states| ensures Inv(c, states[i]) && Coherent(c, states[i].view) {
        RunKeepsData(c, states, steps, i);
      }
    } else {
      var i := FirstHarmful(c, states, steps, 0);
      RunKeepsData(c, states, steps, i);
      assert Takes(c, states[i], steps[i], states[i + 1]);
      StepData(c, states[i], steps[i]);
    }
  }

  lemma {:induction false} FirstHarmful(c: Setup, states: seq<System>, steps: seq<Step>, from: nat) returns (i: nat)
    requires IsRun(c, states, steps) && !NeverHarmful(c, states, steps) && from <= |steps|
    requires forall j :: 0 <= j < from ==> !(Takes(c, states[j], steps[j], states[j + 1]) && Harmful(c, states[j], steps[j]))
    ensures i < |steps| && Takes(c, states[i], steps[i], states[i + 1]) && Harmful(c, states[i], steps[i])
    ensures forall j :: 0 <= j < i ==> !(Takes(c, states[j], steps[j], states[j + 1]) && Harmful(c, states[j], steps[j]))
    decreases |steps| - from
  {
    if from < |steps| && Takes(c, states[from], steps[from], states[from + 1]) && Harmful(c, states[from], steps[from]) {
      i := from;
    } else {
      i := FirstHarmful(c, states, steps, from + 1);
    }
  }

  /** The step evicts a slice that a pending job is reading. */
  ghost predicate TakesVictim(s: System, step: Step) {
    && (step.DemandEvict? || step.PrefetchEvict?) && s.view.lru.order != []
    && exists i: nat :: Pending(s, i) && s.jobs[i].key == s.view.lru.order[|s.view.lru.order| - 1]
  }

  ghost predicate NothingLost(s: System) {
    forall i: nat :: Pending(s, i) ==> s.jobs[i].lost == 0
  }

  lemma {:induction false} StepLosesNothing(c: Setup, s: System, step: Step)
    requires Inv(c, s) && Enabled(c, s, step) && NothingLost(s) && !TakesVictim(s, step)
    ensures NothingLost(Apply(c, s, step)) && !Harmful(c, s, step)
  {
    var r := Apply(c, s, step);
    forall i: nat | Pending(r, i) ensures r.jobs[i].lost == 0 {
      if !step.PrefetchFilter? { assert Pending(s, i); }
    }
    if step.PrefetchCommit? { assert Pending(s, s.phase.next); }
  }

  /** The proviso in plain terms: if no slice is evicted between its read and its commit, every moment of
      the run is coherent. */
  lemma {:induction false} CoherentWithoutVictims(c: Setup, states: seq<System>, steps: seq<Step>)
    requires IsRun(c, states, steps) && NothingLost(states[0])
    requires forall i :: 0 <= i < |steps| ==> !TakesVictim(states[i], steps[i])
    ensures CoherentThroughout(c, states)
  {
    forall i | 0 <= i < |steps|
      ensures !(Takes(c, states[i], steps[i], states[i + 1]) && Harmful(c, states[i], steps[i]))
    {
      RunLosesNothing(c, states, steps, i);
      if Takes(c, states[i], steps[i], states[i + 1]) { StepLosesNothing(c, states[i], steps[i]); }
    }
    CoherentIffNeverHarmful(c, states, steps);
  }

  lemma {:induction false} RunLosesNothing(c: Setup, states: seq<System>, steps: seq<Step>, n: nat)
    requires IsRun(c, states, steps) && NothingLost(states[0]) && n < |states|
    requires forall i :: 0 <= i < |steps| ==> !TakesVictim(states[i], steps[i])
    ensures NothingLost(states[n])
  {
    if n > 0 {
      RunLosesNothing(c, states, steps, n - 1);
      assert Takes(c, states[n - 1], steps[n - 1], states[n]);
      StepLosesNothing(c, states[n - 1], steps[n - 1]);
    }
  }

  // ---------------------------------------------------------------- the counters

  ghost predicate AllFit(c: Setup) {
    forall t :: 0 <= t < |c.tensors| ==> c.tensors[t].slice <= c.cap
  }

  /** Slices brought in, less those on record, evicted, or filled and about to be recorded. */
  function Balance(s: System): int {
    s.view.lru.misses + s.view.prefetched - |s.view.lru.order| - s.view.lru.evictions - |s.filled|
  }

  lemma {:induction false} StepBalance(c: Setup, s: System, step: Step)
    requires Inv(c, s) && Enabled(c, s, step) && AllFit(c)
    ensures Balance(Apply(c, s, step)) == Balance(s)
  {
    match step
    case DemandHit(k) => RefreshWf(s.view.lru, k, c.Sizes());
    case DemandCommit(k) => assert |s.filled - {k}| == |s.filled| - 1;
    case PrefetchCommit => PrefetchCommitBalance(c, s);
    case _ =>
  }

  lemma {:induction false} PrefetchCommitBalance(c: Setup, s: System)
    requires Inv(c, s) && Enabled(c, s, PrefetchCommit) && AllFit(c)
    ensures Balance(Apply(c, s, PrefetchCommit)) == Balance(s)
  {
  }

  /** Over any run in which every slice fits the budget, misses and prefetched slices together are the
      slices on record, evicted, or filled and about to be recorded. */
  lemma {:induction false} RunBalance(c: Setup, states: seq<System>, steps: seq<Step>, n: nat)
    requires IsRun(c, states, steps) && n < |states| && AllFit(c)
    ensures Balance(states[n]) == Balance(states[0])
  {
    if n > 0 {
      RunBalance(c, states, steps, n - 1);
      assert Takes(c, states[n - 1], steps[n - 1], states[n]);
      StepBalance(c, states[n - 1], steps[n - 1]);
    }
  }

  // ---------------------------------------------------------------- the proviso is needed

  /** Takes one more enabled step at the end of a run. */
  lemma {:induction false} Extend(c: Setup, states: seq<System>, steps: seq<Step>, step: Step) returns (ss: seq<System>, ts: seq<Step>)
    requires IsRun(c, states, steps) && Inv(c, states[|steps|]) && Enabled(c, states[|steps|], step)
    ensures IsRun(c, ss, ts) && |ts| == |steps| + 1 && ss[|ts|] == Apply(c, states[|steps|], step)
    ensures Inv(c, ss[|ts|]) && ss[|ts| - 1] == states[|steps|] && ts[|ts| - 1] == step
  {
    var r := Apply(c, states[|steps|], step);
    StepKeepsInv(c, states[|steps|], step);
    ss, ts := states + [r], steps + [step];
    assert Takes(c, states[|steps|], step, r);
    forall i | 0 <= i < |ts| ensures Takes(c, ss[i], ts[i], ss[i + 1]) {
      if i < |steps| { assert Takes(c, states[i], steps[i], states[i + 1]); }
    }
  }

  ghost predicate OneSliceBudget(c: Setup, k: Key, l: Key) {
    c.Valid() && c.HasKey(k) && c.HasKey(l) && k != l && c.Size(k) == c.cap && c.Size(l) == c.cap && c.cap > 0
  }

  /** The run so far ends unlocked, with only `resident` on record and `k` read but not committed. */
  ghost predicate EndsWith(c: Setup, states: seq<System>, steps: seq<Step>, resident: Key, job: Job) {
    && IsRun(c, states, steps)
    && var s := states[|steps|];
       Inv(c, s) && s.lock == Free && s.filled == {} && s.phase == Reading && s.jobs == [job] && s.view.lru.order == [resident]
  }

  /** Demand serves the absent slice `x`, evicting the only resident if there is one. */
  lemma {:induction false} DemandServes(c: Setup, states: seq<System>, steps: seq<Step>, x: Key, job: Job)
    returns (ss: seq<System>, ts: seq<Step>)
    requires c.Valid() && c.HasKey(x) && c.Size(x) == c.cap && c.cap > 0 && IsRun(c, states, steps)
    requires var s := states[|steps|];
      Inv(c, s) && s.lock == Free && s.filled == {} && s.phase == Reading && s.jobs == [job]
      && (s.view.lru.order == [] || (s.view.lru.order != [x] && |s.view.lru.order| == 1 && c.Size(s.view.lru.order[0]) == c.cap))
    ensures EndsWith(c, ss, ts, x,
      if states[|steps|].view.lru.order == [job.key] then job.(lost := job.done) else job)
  {
    var order := states[|steps|].view.lru.order;
    ss, ts := Extend(c, states, steps, DemandLock);
    if order != [] {
      assert Total(order, c.Sizes()) == c.Size(order[0]) + Total([], c.Sizes());
      ss, ts := Extend(c, ss, ts, DemandEvict(x));
      assert ss[|ts|].view.lru.order == [];
    }
    ss, ts := Extend(c, ss, ts, DemandFill(x));
    ss, ts := Extend(c, ss, ts, DemandCommit(x));
    assert ss[|ts|].view.lru.order == [x];
    ss, ts := Extend(c, ss, ts, DemandUnlock);
  }

  /** With two slices that each fill the budget, a slice that was read, then filled by demand, then
      evicted, is still committed: the run ends with a resident slice of zeros. */
  lemma {:induction false} StaleCommit(c: Setup, v: View, k: Key, l: Key) returns (states: seq<System>, steps: seq<Step>)
    requires IsFresh(c, v) && OneSliceBudget(c, k, l) && Source(c, k) != Zeros(c.Size(k))
    ensures IsRun(c, states, steps) && !CoherentThroughout(c, states)
  {
    states, steps := ReadWhole(c, v, k);
    states, steps := ServeBoth(c, states, steps, k, l);
    states, steps := CommitStale(c, states, steps, k, l);
  }

  lemma {:induction false} ReadWhole(c: Setup, v: View, k: Key) returns (states: seq<System>, steps: seq<Step>)
    requires IsFresh(c, v) && c.HasKey(k)
    ensures IsRun(c, states, steps)
    ensures var s := states[|steps|];
      Inv(c, s) && s.lock == Free && s.filled == {} && s.phase == Reading && s.jobs == [Job(k, c.Size(k), 0)]
      && s.view.lru.order == []
  {
    states, steps := [System(v, Free, {}, Idle, [])], [];
    states, steps := Extend(c, states, steps, PrefetchFilter([k]));
    states, steps := Extend(c, states, steps, PrefetchRead(0, c.Size(k)));
  }

  /** Demand serves the slice that was read, and then another one that displaces it. */
  lemma {:induction false} ServeBoth(c: Setup, states: seq<System>, steps: seq<Step>, k: Key, l: Key)
    returns (ss: seq<System>, ts: seq<Step>)
    requires OneSliceBudget(c, k, l) && IsRun(c, states, steps)
    requires var s := states[|steps|];
      Inv(c, s) && s.lock == Free && s.filled == {} && s.phase == Reading && s.jobs == [Job(k, c.Size(k), 0)]
      && s.view.lru.order == []
    ensures EndsWith(c, ss, ts, l, Job(k, c.Size(k), c.Size(k)))
  {
    var n := c.Size(k);
    ss, ts := DemandServes(c, states, steps, k, Job(k, n, 0));
    ss, ts := DemandServes(c, ss, ts, l, Job(k, n, 0));
  }

  lemma {:induction false} CommitStale(c: Setup, states: seq<System>, steps: seq<Step>, k: Key, l: Key)
    returns (ss: seq<System>, ts: seq<Step>)
    requires OneSliceBudget(c, k, l) && Source(c, k) != Zeros(c.Size(k))
    requires EndsWith(c, states, steps, l, Job(k, c.Size(k), c.Size(k)))
    ensures IsRun(c, ss, ts) && !CoherentThroughout(c, ss)
  {
    var n := c.Size(k);
    assert Total([l], c.Sizes()) == c.Size(l) + Total([], c.Sizes());
    ss, ts := Extend(c, states, steps, PrefetchLock);
    ss, ts := Extend(c, ss, ts, PrefetchEvict);
    assert ss[|ts|].jobs == [Job(k, n, n)];
    ss, ts := CommitLost(c, ss, ts, k);
  }

  lemma {:induction false} CommitLost(c: Setup, states: seq<System>, steps: seq<Step>, k: Key)
    returns (ss: seq<System>, ts: seq<Step>)
    requires IsRun(c, states, steps) && c.HasKey(k) && c.Size(k) == c.cap && Source(c, k) != Zeros(c.Size(k))
    requires var s := states[|steps|];
      Inv(c, s) && s.phase == Committing(0) && s.jobs == [Job(k, c.Size(k), c.Size(k))] && s.view.lru.order == []
    ensures IsRun(c, ss, ts) && !CoherentThroughout(c, ss)
  {
    var n, last := c.Size(k), states[|steps|];
    ss, ts := Extend(c, states, steps, PrefetchCommit);
    assert Source(c, k)[..n] == Source(c, k);
    assert Takes(c, ss[|ts| - 1], ts[|ts| - 1], ss[|ts|]) && Harmful(c, last, PrefetchCommit);
    CoherentIffNeverHarmful(c, ss, ts);
  }
}
