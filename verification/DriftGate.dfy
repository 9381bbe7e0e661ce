/** The trailing-repetition detector of the drift gate. */
module DriftGate {
  datatype Verdict = NoLoop | Loop(period: nat, repeats: nat, covered: nat)

  /** The last `r * p` tokens are `r` copies of one block of `p` tokens. */
  ghost predicate Repeats(t: seq<int>, p: nat, r: nat) {
    r * p <= |t| && forall i :: |t| - r * p <= i < |t| - p ==> t[i] == t[i + p]
  }

  /** A period in reach that repeats often enough. */
  ghost predicate Admissible(t: seq<int>, maxPeriod: int, minRepeats: int, p: nat, r: nat) {
    1 <= p <= maxPeriod && r >= 1 && r >= minRepeats && Repeats(t, p, r)
  }

  /** `best` is right: something is reported exactly if some admissible repetition exists; what is reported
      is admissible and cannot be extended, covers the most tokens, and has the smallest period among those
      that cover as many. */
  ghost predicate Correct(t: seq<int>, maxPeriod: int, minRepeats: int, best: Verdict) {
    match best
    case NoLoop => forall p: nat, r: nat :: !Admissible(t, maxPeriod, minRepeats, p, r)
    case Loop(period, repeats, covered) =>
      && Admissible(t, maxPeriod, minRepeats, period, repeats) && covered == repeats * period
      && !Repeats(t, period, repeats + 1)
      && forall p: nat, r: nat :: Admissible(t, maxPeriod, minRepeats, p, r) ==>
           r * p < covered || (r * p == covered && period <= p)
  }

  lemma {:induction false} TimesMonotone(a: nat, b: nat, p: nat)
    requires a <= b
    ensures a * p <= b * p
    decreases b - a
  {
    if a < b {
      TimesMonotone(a, b - 1, p);
      assert b * p == (b - 1) * p + p;
    }
  }

  /** Fewer repetitions are repetitions too. */
  lemma {:induction false} FewerRepeats(t: seq<int>, p: nat, r: nat, fewer: nat)
    requires Repeats(t, p, r) && fewer <= r
    ensures Repeats(t, p, fewer)
  {
    TimesMonotone(fewer, r, p);
  }

  /** The block in front of the last `r` ones equals the first of them. */
  predicate BlockAgain(t: seq<int>, p: nat, r: nat)
    requires r >= 1
  {
    var n := |t|;
    && n - (r + 1) * p >= 0
    && n - (r + 1) * p <= n - r * p <= n - (r - 1) * p <= n
    && t[n - r * p..n - (r - 1) * p] == t[n - (r + 1) * p..n - r * p]
  }

  /** One more repetition is one more equal block in front. */
  lemma {:induction false} OneMore(t: seq<int>, p: nat, r: nat)
    requires r >= 1 && Repeats(t, p, r)
    ensures Repeats(t, p, r + 1) <==> BlockAgain(t, p, r)
  {
    var n, lo := |t|, |t| - (r + 1) * p;
    assert lo == n - r * p - p && n - (r - 1) * p == n - r * p + p && r * p >= p by { TimesMonotone(1, r, p); }
    if lo >= 0 {
      var near, far := t[n - r * p..n - (r - 1) * p], t[lo..n - r * p];
      assert forall k :: 0 <= k < p ==> near[k] == t[lo + k + p] && far[k] == t[lo + k];
      if near == far {
        forall i | lo <= i < n - p ensures t[i] == t[i + p] {
          if i < n - r * p { assert near[i - lo] == far[i - lo]; }
        }
      }
    }
  }

  lemma {:induction false} RepeatsFit(t: seq<int>, p: nat, r: nat)
    requires Repeats(t, p, r) && p >= 1
    ensures r <= |t|
  {
    TimesMonotone(1, p, r);
  }

  /** No period above the cut-off can repeat often enough. */
  lemma {:induction false} CutOffLosesNothing(t: seq<int>, minRepeats: int, p: nat, r: nat)
    requires r >= 1 && r >= minRepeats && Repeats(t, p, r)
    ensures p <= |t| / (if minRepeats > 1 then minRepeats else 1)
  {
    var m := if minRepeats > 1 then minRepeats else 1;
    TimesMonotone(m, r, p);
    var q := |t| / m;
    assert p * m == m * p && (q + 1) * m == q * m + m;
    if p > q {
      TimesMonotone(q + 1, p, m);
      assert false;
    }
  }

  /** Counts how often the last block of `p` tokens repeats. */
  method CountRepeats(t: seq<int>, p: nat) returns (reps: nat)
    requires 1 <= p <= |t|
    ensures Repeats(t, p, reps + 1) && !Repeats(t, p, reps + 2)
  {
    reps := 0;
    while BlockAgain(t, p, reps + 1)
      invariant Repeats(t, p, reps + 1)
      decreases |t| - reps
    {
      OneMore(t, p, reps + 1);
      RepeatsFit(t, p, reps + 2);
      reps := reps + 1;
    }
    OneMore(t, p, reps + 1);
  }

  /** Taking one more period into account. */
  lemma {:induction false} NextPeriod(t: seq<int>, p: nat, minRepeats: int, best: Verdict, reps: nat, next: Verdict)
    requires 1 <= p <= |t| && Correct(t, p - 1, minRepeats, best)
    requires Repeats(t, p, reps + 1) && !Repeats(t, p, reps + 2)
    requires var total := (reps + 1) * p;
      next == if reps + 1 >= minRepeats && (best.NoLoop? || total > best.covered)
              then Loop(p, reps + 1, total) else best
    ensures Correct(t, p, minRepeats, next)
  {
    forall q: nat, r: nat | Admissible(t, p, minRepeats, q, r)
      ensures next.Loop? && (r * q < next.covered || (r * q == next.covered && next.period <= q))
    {
      if q < p {
        assert Admissible(t, p - 1, minRepeats, q, r);
      } else {
        if r >= reps + 2 { FewerRepeats(t, p, r, reps + 2); }
        TimesMonotone(r, reps + 1, p);
      }
    }
  }

  /** One turn of the outer loop. */
  method TryPeriod(t: seq<int>, p: nat, minRepeats: int, best: Verdict) returns (next: Verdict)
    requires 1 <= p && (p <= |t| || p == 1)
    ensures t != [] && Correct(t, p - 1, minRepeats, best) ==> Correct(t, p, minRepeats, next)
    ensures t == [] && best.NoLoop? ==> next == if minRepeats <= 1 then Loop(1, 1, 1) else NoLoop
  {
    var reps := 0;
    if p <= |t| { reps := CountRepeats(t, p); }
    var total := (reps + 1) * p;
    next := best;
    if reps + 1 >= minRepeats && (best.NoLoop? || total > best.covered) {
      next := Loop(p, reps + 1, total);
    }
    if t != [] && Correct(t, p - 1, minRepeats, best) { NextPeriod(t, p, minRepeats, best, reps, next); }
  }

  /** The detector. It is right for every input but one family: an empty transcript with a repeat threshold
      of at most one, where it reports one repetition of a token that is not there. */
  method DetectLoop(t: seq<int>, maxPeriod: int, minRepeats: int) returns (best: Verdict)
    ensures Correct(t, maxPeriod, minRepeats, best) <==> t != [] || minRepeats >= 2 || maxPeriod < 1
    ensures t == [] && minRepeats <= 1 && maxPeriod >= 1 ==> best == Loop(1, 1, 1)
  {
    best := NoLoop;
    var cut := |t| / (if minRepeats > 1 then minRepeats else 1);
    var reach := if cut > 1 then cut else 1;
    CutInside(|t|, if minRepeats > 1 then minRepeats else 1);
    var limit := if maxPeriod < reach then maxPeriod else reach;
    var p := 1;
    NothingYet(t, minRepeats);
    while p <= limit
      invariant 1 <= p && (p <= limit + 1 || p == 1)
      invariant t != [] || p == 1 ==> Correct(t, p - 1, minRepeats, best)
      invariant p == 1 ==> best.NoLoop?
      invariant t == [] && p == 2 ==> best == if minRepeats <= 1 then Loop(1, 1, 1) else NoLoop
    {
      best := TryPeriod(t, p, minRepeats, best);
      p := p + 1;
    }
    if t != [] || maxPeriod < 1 {
      Widen(t, p - 1, maxPeriod, minRepeats, best);
    } else if minRepeats >= 2 {
      NothingRepeats(maxPeriod, minRepeats);
    } else {
      NoPhantom(maxPeriod, minRepeats);
    }
  }

  lemma {:induction false} NothingYet(t: seq<int>, minRepeats: int)
    ensures Correct(t, 0, minRepeats, NoLoop)
  {
  }

  lemma {:induction false} CutInside(n: nat, m: nat)
    requires m >= 1
    ensures n / m <= n
  {
  }

  /** The one wrong answer: an empty transcript has no repetition. */
  lemma {:induction false} NoPhantom(maxPeriod: int, minRepeats: int)
    ensures !Correct([], maxPeriod, minRepeats, Loop(1, 1, 1))
  {
  }

  lemma {:induction false} Widen(t: seq<int>, limit: int, maxPeriod: int, minRepeats: int, best: Verdict)
    requires (Correct(t, limit, minRepeats, best) && limit <= maxPeriod) || (maxPeriod < 1 && best.NoLoop?)
    requires maxPeriod >= 1 ==> limit == maxPeriod || limit >= |t| / (if minRepeats > 1 then minRepeats else 1)
    ensures Correct(t, maxPeriod, minRepeats, best)
  {
    forall p: nat, r: nat | Admissible(t, maxPeriod, minRepeats, p, r) ensures Admissible(t, limit, minRepeats, p, r) {
      CutOffLosesNothing(t, minRepeats, p, r);
    }
  }

  lemma {:induction false} NothingRepeats(maxPeriod: int, minRepeats: int)
    requires minRepeats >= 2
    ensures Correct([], maxPeriod, minRepeats, NoLoop)
  {
    forall p: nat, r: nat | Admissible([], maxPeriod, minRepeats, p, r) ensures false {
      CutOffLosesNothing([], minRepeats, p, r);
    }
  }
}
