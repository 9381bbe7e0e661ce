/** Exact-LRU residency with a byte budget.
    `Touch` is the accounting both the trace simulator and the slice cache must realise;
    the lemmas characterise it without mentioning evictions at all. */
module Lru {

  datatype Key = Key(tensor: nat, expert: int)

  /** Bytes of each slice: fixed per key, but free to differ between keys. */
  type Sizer = Key -> nat

  /** Most recently used key first, plus the counters that the simulator prints. */
  datatype State = State(order: seq<Key>, used: int, hits: nat, misses: nat, missBytes: nat, evictions: nat)

  const EMPTY: State := State([], 0, 0, 0, 0, 0)

  function Total(order: seq<Key>, size: Sizer): nat {
    if order == [] then 0 else size(order[0]) + Total(order[1..], size)
  }

  ghost predicate Distinct(order: seq<Key>) {
    forall i, j :: 0 <= i < j < |order| ==> order[i] != order[j]
  }

  ghost predicate Wf(s: State, size: Sizer) {
    Distinct(s.order) && s.used == Total(s.order, size)
  }

  function Elements(order: seq<Key>): set<Key> {
    set k | k in order
  }

  lemma {:induction false} DistinctCount(order: seq<Key>)
    requires Distinct(order)
    ensures |Elements(order)| == |order|
  {
    if order != [] {
      var n := |order| - 1;
      DistinctCount(order[..n]);
      assert order == order[..n] + [order[n]];
      assert Elements(order) == Elements(order[..n]) + {order[n]};
    }
  }

  /** `order` without its (only) occurrence of `k`. */
  function Without(order: seq<Key>, k: Key): seq<Key> {
    if order == [] then []
    else if order[0] == k then order[1..]
    else [order[0]] + Without(order[1..], k)
  }

  function EvictBack(s: State, size: Sizer): State
    requires s.order != []
  {
    var last := |s.order| - 1;
    s.(order := s.order[..last], used := s.used - size(s.order[last]), evictions := s.evictions + 1)
  }

  /** Pops from the LRU end until `bytes` more would fit, or nothing is left. */
  function MakeRoom(s: State, bytes: nat, cap: nat, size: Sizer): State
    decreases |s.order|
  {
    if s.used + bytes > cap && s.order != [] then MakeRoom(EvictBack(s, size), bytes, cap, size) else s
  }

  function Refresh(s: State, k: Key): State {
    s.(order := [k] + Without(s.order, k), hits := s.hits + 1)
  }

  /** A slice larger than the whole budget is never recorded. */
  function Insert(s: State, k: Key, bytes: nat, cap: nat): State {
    if bytes <= cap then s.(order := [k] + s.order, used := s.used + bytes) else s
  }

  function CountMiss(s: State, bytes: nat): State {
    s.(misses := s.misses + 1, missBytes := s.missBytes + bytes)
  }

  function Touch(s: State, k: Key, cap: nat, size: Sizer): State {
    if k in s.order then Refresh(s, k)
    else Insert(CountMiss(MakeRoom(s, size(k), cap, size), size(k)), k, size(k), cap)
  }

  function Replay(trace: seq<Key>, cap: nat, size: Sizer): State {
    if trace == [] then EMPTY
    else Touch(Replay(trace[..|trace| - 1], cap, size), trace[|trace| - 1], cap, size)
  }

  // ---------------------------------------------------------------- sums and removal

  lemma {:induction false} TotalConcat(a: seq<Key>, b: seq<Key>, size: Sizer)
    ensures Total(a + b, size) == Total(a, size) + Total(b, size)
  {
    if a == [] {
      assert a + b == b;
    } else {
      assert (a + b)[1..] == a[1..] + b;
      TotalConcat(a[1..], b, size);
    }
  }

  lemma {:induction false} TotalLast(order: seq<Key>, size: Sizer)
    requires order != []
    ensures Total(order, size) == Total(order[..|order| - 1], size) + size(order[|order| - 1])
  {
    var n := |order| - 1;
    assert order == order[..n] + [order[n]];
    TotalConcat(order[..n], [order[n]], size);
  }

  /** Removal cuts `k` out and leaves both sides in place. */
  lemma {:induction false} WithoutSplit(order: seq<Key>, k: Key) returns (i: nat)
    requires k in order && Distinct(order)
    ensures i < |order| && order[i] == k && Without(order, k) == order[..i] + order[i + 1..]
  {
    if order[0] == k {
      i := 0;
    } else {
      assert k in order[1..];
      var j := WithoutSplit(order[1..], k);
      i := j + 1;
      assert order[..i] == [order[0]] + order[1..][..j];
      assert order[1..][j + 1..] == order[i + 1..];
    }
  }

  lemma {:induction false} WithoutFacts(order: seq<Key>, k: Key, size: Sizer)
    requires Distinct(order)
    ensures Distinct(Without(order, k)) && k !in Without(order, k)
    ensures forall x :: x in Without(order, k) <==> x in order && x != k
    ensures k in order ==> Total(Without(order, k), size) + size(k) == Total(order, size)
    ensures k !in order ==> Without(order, k) == order
    ensures |Without(order, k)| == |order| - (if k in order then 1 else 0)
  {
    if order != [] {
      var x, rest := order[0], order[1..];
      assert order == [x] + rest;
      assert x !in rest;
      WithoutFacts(rest, k, size);
      if x != k {
        var w := Without(order, k);
        assert w[1..] == Without(rest, k);
        assert w == [x] + w[1..];
      }
    }
  }

  // ---------------------------------------------------------------- what eviction leaves

  /** Length of the longest prefix of `order` that fits in `room` bytes. */
  function Fit(order: seq<Key>, room: int, size: Sizer): (n: nat)
    ensures n <= |order|
  {
    if order == [] || size(order[0]) > room then 0 else 1 + Fit(order[1..], room - size(order[0]), size)
  }

  /** `Fit` is exactly the maximal fitting prefix: every shorter prefix fits, no longer one does. */
  lemma {:induction false} FitIsMaximal(order: seq<Key>, room: int, size: Sizer, n: nat)
    requires n <= |order|
    ensures room >= 0 ==> (n <= Fit(order, room, size) <==> Total(order[..n], size) <= room)
    ensures room < 0 ==> Fit(order, room, size) == 0
  {
    if n > 0 {
      assert order[..n][1..] == order[1..][..n - 1];
      if size(order[0]) <= room {
        FitIsMaximal(order[1..], room - size(order[0]), size, n - 1);
      }
    }
  }

  lemma {:induction false} FitMonotone(order: seq<Key>, small: int, big: int, size: Sizer)
    requires small <= big
    ensures Fit(order, small, size) <= Fit(order, big, size)
  {
    if order != [] && size(order[0]) <= small {
      FitMonotone(order[1..], small - size(order[0]), big - size(order[0]), size);
    }
  }

  /** Popping from the back until the newcomer fits keeps exactly the maximal fitting prefix. */
  lemma {:induction false} MakeRoomIsFit(s: State, bytes: nat, cap: nat, size: Sizer)
    requires Wf(s, size)
    ensures var r := MakeRoom(s, bytes, cap, size);
      && r == s.(order := s.order[..Fit(s.order, cap - bytes, size)], used := r.used, evictions := r.evictions)
      && Wf(r, size)
      && r.evictions + |r.order| == s.evictions + |s.order|
      && r.used <= s.used
      && (forall x :: x in r.order ==> x in s.order)
      && (r.order == [] || r.used + bytes <= cap)
    decreases |s.order|
  {
    var n := |s.order|;
    assert s.order[..n] == s.order;
    FitIsMaximal(s.order, cap - bytes, size, n);
    if s.used + bytes > cap && s.order != [] {
      TotalLast(s.order, size);
      MakeRoomIsFit(EvictBack(s, size), bytes, cap, size);
      FitOfPrefix(s.order, n - 1, cap - bytes, size);
      assert s.order[..n - 1][..Fit(s.order, cap - bytes, size)] == s.order[..Fit(s.order, cap - bytes, size)];
    }
  }

  lemma {:induction false} EvictBackWf(s: State, size: Sizer)
    requires Wf(s, size) && s.order != []
    ensures Wf(EvictBack(s, size), size)
    ensures forall x :: x in EvictBack(s, size).order <==> x in s.order && x != s.order[|s.order| - 1]
  {
    TotalLast(s.order, size);
    var last := s.order[|s.order| - 1];
    assert s.order == EvictBack(s, size).order + [last];
  }

  lemma {:induction false} FitOfPrefix(order: seq<Key>, n: nat, room: int, size: Sizer)
    requires n <= |order| && Fit(order, room, size) <= n
    ensures Fit(order[..n], room, size) == Fit(order, room, size)
  {
    if order != [] && size(order[0]) <= room {
      assert order[..n][1..] == order[1..][..n - 1];
      FitOfPrefix(order[1..], n - 1, room - size(order[0]), size);
    }
  }

  lemma {:induction false} RefreshWf(s: State, k: Key, size: Sizer)
    requires Wf(s, size) && k in s.order
    ensures Wf(Refresh(s, k), size)
    ensures forall x :: x in Refresh(s, k).order <==> x in s.order
    ensures |Refresh(s, k).order| == |s.order|
  {
    WithoutFacts(s.order, k, size);
    assert Refresh(s, k).order[1..] == Without(s.order, k);
  }

  lemma {:induction false} InsertWf(s: State, k: Key, bytes: nat, cap: nat, size: Sizer)
    requires Wf(s, size) && k !in s.order && bytes == size(k)
    ensures Wf(Insert(s, k, bytes, cap), size)
    ensures forall x :: x in Insert(s, k, bytes, cap).order <==> x in s.order || (x == k && bytes <= cap)
  {
    assert ([k] + s.order)[1..] == s.order;
  }

  /** Every touch keeps the list duplicate free and `used` exact, and counts a hit or a miss with its bytes and
      evictions; a miss also restores the budget, and the touched slice ends up at the front unless it exceeds
      the whole budget. */
  lemma {:induction false} TouchKeepsWf(s: State, k: Key, cap: nat, size: Sizer)
    requires Wf(s, size)
    ensures var r := Touch(s, k, cap, size);
      && Wf(r, size)
      && (if k in s.order then
            r.hits == s.hits + 1 && r.misses == s.misses && r.missBytes == s.missBytes && r.evictions == s.evictions
          else
            r.hits == s.hits && r.misses == s.misses + 1 && r.missBytes == s.missBytes + size(k)
            && r.evictions == s.evictions + |s.order| - |r.order| + (if size(k) <= cap then 1 else 0))
      && (if k in s.order then r.used == s.used else r.used <= cap)
      && (size(k) <= cap || k in s.order ==> r.order != [] && r.order[0] == k)
      && (size(k) <= cap ==> r.misses - |r.order| - r.evictions == s.misses - |s.order| - s.evictions)
  {
    if k in s.order {
      RefreshWf(s, k, size);
    } else {
      MakeRoomIsFit(s, size(k), cap, size);
      InsertWf(CountMiss(MakeRoom(s, size(k), cap, size), size(k)), k, size(k), cap, size);
    }
  }

  lemma {:induction false} ReplayWf(trace: seq<Key>, cap: nat, size: Sizer)
    ensures var r := Replay(trace, cap, size);
      && Wf(r, size) && r.used <= cap && r.hits + r.misses == |trace|
      && forall k :: k in r.order ==> k in trace
  {
    if trace != [] {
      var t, k := trace[..|trace| - 1], trace[|trace| - 1];
      ReplayWf(t, cap, size);
      var s := Replay(t, cap, size);
      TouchKeepsWf(s, k, cap, size);
      if k in s.order { RefreshWf(s, k, size); } else { MakeRoomIsFit(s, size(k), cap, size); }
      assert trace == t + [k];
    }
  }

  // ---------------------------------------------------------------- the stack theorem

  /** All keys ever touched, most recent first: an LRU list without any budget. */
  function Recency(trace: seq<Key>): seq<Key> {
    if trace == [] then []
    else
      var k := trace[|trace| - 1];
      [k] + Without(Recency(trace[..|trace| - 1]), k)
  }

  lemma {:induction false} RecencyFacts(trace: seq<Key>)
    ensures Distinct(Recency(trace))
    ensures forall k :: k in Recency(trace) <==> k in trace
  {
    if trace != [] {
      var t, k := trace[..|trace| - 1], trace[|trace| - 1];
      RecencyFacts(t);
      WithoutFacts(Recency(t), k, _ => 0);
      assert trace == t + [k];
    }
  }

  /** Position of the last touch of `k`, or -1. */
  function LastTouch(trace: seq<Key>, k: Key): int {
    if trace == [] then -1
    else if trace[|trace| - 1] == k then |trace| - 1
    else LastTouch(trace[..|trace| - 1], k)
  }

  lemma {:induction false} LastTouchBound(trace: seq<Key>, k: Key)
    ensures -1 <= LastTouch(trace, k) < |trace|
    ensures LastTouch(trace, k) >= 0 <==> k in trace
  {
    if trace != [] {
      LastTouchBound(trace[..|trace| - 1], k);
      assert trace == trace[..|trace| - 1] + [trace[|trace| - 1]];
    }
  }

  /** Every other entry of the stack was touched before the top one, and not since. */
  lemma {:induction false} BelowTop(t: seq<Key>, k: Key, i: nat)
    requires i < |Without(Recency(t), k)|
    ensures var x := Without(Recency(t), k)[i];
      x != k && LastTouch(t + [k], x) == LastTouch(t, x) < |t| == LastTouch(t + [k], k)
  {
    var rest := Without(Recency(t), k);
    assert rest[i] != k by {
      RecencyFacts(t);
      WithoutFacts(Recency(t), k, _ => 0);
      assert rest[i] in rest;
    }
    assert (t + [k])[..|t|] == t;
    LastTouchBound(t, rest[i]);
  }

  /** The recency stack really is ordered by last touch. */
  lemma {:induction false} RecencySorted(trace: seq<Key>, i: nat, j: nat)
    requires i < j < |Recency(trace)|
    ensures LastTouch(trace, Recency(trace)[i]) > LastTouch(trace, Recency(trace)[j])
  {
    var t, k := trace[..|trace| - 1], trace[|trace| - 1];
    assert trace == t + [k] && Recency(trace) == [k] + Without(Recency(t), k);
    BelowTop(t, k, j - 1);
    if i > 0 {
      BelowTop(t, k, i - 1);
      var a, b := WithoutKeepsOrder(Recency(t), k, i - 1, j - 1);
      RecencySorted(t, a, b);
    }
  }

  /** Removing a key leaves the relative order of the others alone. */
  lemma {:induction false} WithoutKeepsOrder(order: seq<Key>, k: Key, i: nat, j: nat) returns (a: nat, b: nat)
    requires i < j < |Without(order, k)|
    ensures a < b < |order| && order[a] == Without(order, k)[i] && order[b] == Without(order, k)[j]
  {
    if order[0] == k {
      a, b := i + 1, j + 1;
    } else if i == 0 {
      var c := WithoutKeepsIndex(order[1..], k, j - 1);
      a, b := 0, c + 1;
    } else {
      var c, d := WithoutKeepsOrder(order[1..], k, i - 1, j - 1);
      a, b := c + 1, d + 1;
    }
  }

  lemma {:induction false} WithoutKeepsIndex(order: seq<Key>, k: Key, i: nat) returns (a: nat)
    requires i < |Without(order, k)|
    ensures a < |order| && order[a] == Without(order, k)[i]
  {
    if order[0] == k {
      a := i + 1;
    } else if i == 0 {
      a := 0;
    } else {
      var c := WithoutKeepsIndex(order[1..], k, i - 1);
      a := c + 1;
    }
  }

  /** Stack theorem: what an LRU cache of capacity `cap` holds after any trace is the maximal
      prefix of the recency stack that fits in `cap`, whatever it evicted on the way. */
  lemma {:induction false} StackTheorem(trace: seq<Key>, cap: nat, size: Sizer)
    ensures Replay(trace, cap, size).order == Recency(trace)[..Fit(Recency(trace), cap, size)]
  {
    if trace != [] {
      var t, k := trace[..|trace| - 1], trace[|trace| - 1];
      StackTheorem(t, cap, size);
      RecencyFacts(t);
      ReplayWf(t, cap, size);
      StackStep(Recency(t), Replay(t, cap, size), k, cap, size);
    }
  }

  /** One touch keeps the list equal to the fitting prefix of the stack. */
  lemma {:induction false} StackStep(stack: seq<Key>, s: State, k: Key, cap: nat, size: Sizer)
    requires Distinct(stack) && Wf(s, size)
    requires s.order == stack[..Fit(stack, cap, size)]
    ensures var stack' := [k] + Without(stack, k);
      Touch(s, k, cap, size).order == stack'[..Fit(stack', cap, size)]
  {
    if k in s.order {
      StackHit(stack, |s.order|, k, cap, size);
    } else {
      MakeRoomIsFit(s, size(k), cap, size);
      assert ([k] + Without(stack, k))[1..] == Without(stack, k);
      if size(k) <= cap {
        StackInsert(stack, s, k, cap, size);
      } else {
        FitIsMaximal(s.order, cap - size(k), size, 0);
      }
    }
  }

  lemma {:induction false} StackInsert(stack: seq<Key>, s: State, k: Key, cap: nat, size: Sizer)
    requires Distinct(stack) && Wf(s, size) && k !in s.order && size(k) <= cap
    requires s.order == stack[..Fit(stack, cap, size)]
    ensures var rest := Without(stack, k); var f := Fit(rest, cap - size(k), size);
      f == Fit(s.order, cap - size(k), size) && [k] + s.order[..f] == ([k] + rest)[..1 + f]
  {
    var rest := Without(stack, k);
    StackMiss(stack, |s.order|, k, cap, size);
    var f := Fit(rest, cap - size(k), size);
    FitOfPrefix(rest, |s.order|, cap - size(k), size);
    assert s.order[..f] == rest[..f];
    assert ([k] + rest)[..1 + f] == [k] + rest[..f];
  }

  lemma {:induction false} StackHit(stack: seq<Key>, n: nat, k: Key, cap: nat, size: Sizer)
    requires Distinct(stack) && n == Fit(stack, cap, size) && k in stack[..n]
    ensures var stack' := [k] + Without(stack, k);
      [k] + Without(stack[..n], k) == stack'[..Fit(stack', cap, size)]
  {
    var stack' := [k] + Without(stack, k);
    FrontMoved(stack, n, k, size);
    FitIsMaximal(stack, cap, size, n);
    FitIsMaximal(stack', cap, size, n);
    if n < |stack| {
      assert stack[..n] <= stack[..n + 1];
      FrontMoved(stack, n + 1, k, size);
      FitIsMaximal(stack, cap, size, n + 1);
      FitIsMaximal(stack', cap, size, n + 1);
    }
  }

  /** Moving `k` to the front permutes every prefix that contains `k`. */
  lemma {:induction false} FrontMoved(stack: seq<Key>, n: nat, k: Key, size: Sizer)
    requires Distinct(stack) && n <= |stack| && k in stack[..n]
    ensures var stack' := [k] + Without(stack, k);
      |stack'| == |stack| && stack'[..n] == [k] + Without(stack[..n], k)
      && Total(stack'[..n], size) == Total(stack[..n], size)
  {
    var front, back := stack[..n], stack[n..];
    assert stack == front + back;
    WithoutConcat(front, back, k);
    FrontTotal(front, k, size);
    var moved := [k] + Without(front, k);
    assert [k] + Without(stack, k) == moved + back;
    assert (moved + back)[..n] == moved;
  }

  lemma {:induction false} FrontTotal(front: seq<Key>, k: Key, size: Sizer)
    requires Distinct(front) && k in front
    ensures var moved := [k] + Without(front, k);
      |moved| == |front| && Total(moved, size) == Total(front, size)
  {
    WithoutFacts(front, k, size);
    assert ([k] + Without(front, k))[1..] == Without(front, k);
  }

  lemma {:induction false} WithoutConcat(front: seq<Key>, back: seq<Key>, k: Key)
    requires k in front
    ensures Without(front + back, k) == Without(front, k) + back
  {
    assert (front + back)[1..] == front[1..] + back;
    if front[0] != k {
      WithoutConcat(front[1..], back, k);
    }
  }

  lemma {:induction false} StackMiss(stack: seq<Key>, n: nat, k: Key, cap: nat, size: Sizer)
    requires Distinct(stack) && n == Fit(stack, cap, size) && k !in stack[..n] && size(k) <= cap
    ensures var rest := Without(stack, k);
      n <= |rest| && rest[..n] == stack[..n] && Fit(rest, cap - size(k), size) <= n
  {
    var rest := Without(stack, k);
    if k in stack {
      var c := WithoutSplit(stack, k);
      assert n <= c;
      assert rest[..n] == stack[..n];
    } else {
      assert rest == stack by { WithoutFacts(stack, k, size); }
    }
    if n < |rest| { NoRoomFor(stack, rest, n, k, cap, size); }
  }

  /** With room for `k` taken away, no more than before fits. */
  lemma {:induction false} NoRoomFor(stack: seq<Key>, rest: seq<Key>, n: nat, k: Key, cap: nat, size: Sizer)
    requires n == Fit(stack, cap, size) && n < |rest| && rest[..n] == stack[..n] && size(k) <= cap
    requires n < |stack| && (rest[n] == stack[n] || stack[n] == k)
    ensures Fit(rest, cap - size(k), size) <= n
  {
    FitIsMaximal(stack, cap, size, n + 1);
    TotalLast(stack[..n + 1], size);
    assert stack[..n + 1][..n] == stack[..n];
    TotalLast(rest[..n + 1], size);
    assert rest[..n + 1][..n] == rest[..n];
    FitIsMaximal(rest, cap - size(k), size, n + 1);
  }

  /** Inclusion: the list at a smaller capacity is always a prefix of the list at a larger one. */
  lemma {:induction false} Inclusion(trace: seq<Key>, small: nat, big: nat, size: Sizer)
    requires small <= big
    ensures Replay(trace, small, size).order <= Replay(trace, big, size).order
  {
    StackTheorem(trace, small, size);
    StackTheorem(trace, big, size);
    FitMonotone(Recency(trace), small, big, size);
  }

  /** Hits never decrease and misses never increase as the capacity grows. */
  lemma {:induction false} HitsGrowWithCapacity(trace: seq<Key>, small: nat, big: nat, size: Sizer)
    requires small <= big
    ensures Replay(trace, small, size).hits <= Replay(trace, big, size).hits
    ensures Replay(trace, small, size).misses >= Replay(trace, big, size).misses
  {
    ReplayWf(trace, small, size);
    ReplayWf(trace, big, size);
    if trace != [] {
      var t := trace[..|trace| - 1];
      HitsGrowWithCapacity(t, small, big, size);
      Inclusion(t, small, big, size);
      TouchKeepsWf(Replay(t, small, size), trace[|trace| - 1], small, size) by { ReplayWf(t, small, size); }
      MakeRoomIsFit(Replay(t, small, size), size(trace[|trace| - 1]), small, size) by { ReplayWf(t, small, size); }
      MakeRoomIsFit(Replay(t, big, size), size(trace[|trace| - 1]), big, size) by { ReplayWf(t, big, size); }
    }
  }

  /** `k` occurs in the stack, and everything down to and including it fits in `cap`. */
  ghost predicate DistanceFits(stack: seq<Key>, k: Key, cap: nat, size: Sizer) {
    exists i :: 0 <= i < |stack| && stack[i] == k && Total(stack[..i + 1], size) <= cap
  }

  lemma {:induction false} InFitIff(stack: seq<Key>, k: Key, cap: nat, size: Sizer)
    ensures k in stack[..Fit(stack, cap, size)] <==> DistanceFits(stack, k, cap, size)
  {
    var n := Fit(stack, cap, size);
    if k in stack[..n] {
      var i :| 0 <= i < n && stack[i] == k;
      FitIsMaximal(stack, cap, size, i + 1);
    }
    if DistanceFits(stack, k, cap, size) {
      var i :| 0 <= i < |stack| && stack[i] == k && Total(stack[..i + 1], size) <= cap;
      FitIsMaximal(stack, cap, size, i + 1);
      assert stack[..n][i] == k;
    }
  }

  /** Stack distance: the next touch of `k` hits iff `k` was touched before and the distinct slices
      touched since, together with `k` itself, fit in the capacity. */
  lemma {:induction false} HitIffDistanceFits(trace: seq<Key>, k: Key, cap: nat, size: Sizer)
    ensures k in Replay(trace, cap, size).order <==> DistanceFits(Recency(trace), k, cap, size)
  {
    StackTheorem(trace, cap, size);
    InFitIff(Recency(trace), k, cap, size);
  }

  // ---------------------------------------------------------------- the simulator

  /** One capacity of the trace simulator: a recency list and a table of resident sizes. */
  class Simulator {
    const cap: nat
    const size: Sizer
    var order: seq<Key>
    var cache: map<Key, nat>
    var used: int
    var hits: nat
    var misses: nat
    var missBytes: nat
    var evictions: nat

    ghost function View(): State
      reads this
    {
      State(order, used, hits, misses, missBytes, evictions)
    }

    ghost predicate Valid()
      reads this
    {
      && Wf(View(), size)
      && (forall k :: k in cache <==> k in order)
      && (forall k :: k in cache ==> cache[k] == size(k))
    }

    constructor (cap: nat, size: Sizer)
      ensures Valid() && View() == EMPTY && this.cap == cap && this.size == size
    {
      this.cap, this.size := cap, size;
      order, cache, used, hits, misses, missBytes, evictions := [], map[], 0, 0, 0, 0, 0;
    }

    /** Body of the eviction loop: drops the least recently used slice. */
    method PopVictim()
      requires Valid() && order != []
      modifies this
      ensures Valid() && View() == EvictBack(old(View()), size) && cache.Keys <= old(cache.Keys)
    {
      EvictBackWf(View(), size);
      var victim := order[|order| - 1];
      order := order[..|order| - 1];
      used := used - cache[victim];
      cache := cache - {victim};
      evictions := evictions + 1;
    }

    method EvictUntilFits(b: nat)
      requires Valid()
      modifies this
      ensures Valid() && View() == MakeRoom(old(View()), b, cap, size)
      ensures cache.Keys <= old(cache.Keys)
    {
      while used + b > cap && order != []
        invariant Valid() && cache.Keys <= old(cache.Keys)
        invariant MakeRoom(View(), b, cap, size) == MakeRoom(old(View()), b, cap, size)
        decreases |order|
      {
        PopVictim();
      }
    }

    method TouchSlice(k: Key, b: nat)
      requires Valid() && b == size(k)
      modifies this
      ensures Valid() && View() == Touch(old(View()), k, cap, size)
    {
      ghost var before := View();
      if k in cache {
        RefreshWf(before, k, size);
        hits := hits + 1;
        order := [k] + Without(order, k);
        assert View() == Refresh(before, k);
        return;
      }
      misses := misses + 1;
      missBytes := missBytes + b;
      assert View() == CountMiss(before, b);
      EvictUntilFits(b);
      ghost var roomy := View();
      assert roomy == CountMiss(MakeRoom(before, b, cap, size), b) by { MakeRoomCounted(before, b, b, cap, size); }
      Admit(k, b);
    }

    /** Records a slice unless it is larger than the whole budget. */
    method Admit(k: Key, b: nat)
      requires Valid() && b == size(k) && k !in cache
      modifies this
      ensures Valid() && View() == Insert(old(View()), k, b, cap)
    {
      ghost var before := View();
      InsertWf(before, k, b, cap, size);
      if b <= cap {
        order := [k] + order;
        cache := cache[k := b];
        used := used + b;
      }
      assert View() == Insert(before, k, b, cap);
    }

    /** Replays a whole trace from the current state. */
    method Run(trace: seq<Key>)
      requires Valid() && View() == EMPTY
      modifies this
      ensures Valid() && View() == Replay(trace, cap, size)
    {
      for i := 0 to |trace|
        invariant Valid() && View() == Replay(trace[..i], cap, size)
      {
        assert trace[..i + 1][..i] == trace[..i];
        TouchSlice(trace[i], size(trace[i]));
      }
      assert trace[..|trace|] == trace;
    }
  }

  /** Counting the miss before or after making room gives the same state. */
  lemma {:induction false} MakeRoomCounted(s: State, bytes: nat, counted: nat, cap: nat, size: Sizer)
    ensures MakeRoom(CountMiss(s, counted), bytes, cap, size) == CountMiss(MakeRoom(s, bytes, cap, size), counted)
    decreases |s.order|
  {
    if s.used + bytes > cap && s.order != [] {
      assert EvictBack(CountMiss(s, counted), size) == CountMiss(EvictBack(s, size), counted);
      MakeRoomCounted(EvictBack(s, size), bytes, counted, cap, size);
    }
  }
}
