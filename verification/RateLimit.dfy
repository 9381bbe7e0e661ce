/** The per-user sliding-window request limiter. */
module RateLimit {
  datatype User = User(name: string)

  /** One minute of the steady clock, in nanoseconds. */
  const WINDOW: int := 60_000_000_000

  /** How many of the times `h` lie in the closed window that ends `now`. */
  function InWindow(h: seq<int>, now: int): nat {
    if h == [] then 0 else InWindow(h[..|h| - 1], now) + (if now - h[|h| - 1] <= WINDOW then 1 else 0)
  }

  /** The requests made in the last minute, to the nanosecond. */
  ghost function Recent(h: seq<int>, now: int): set<nat> {
    set i: nat | i < |h| && now - h[i] <= 60_000_000_000
  }

  lemma {:induction false} InWindowIs(h: seq<int>, now: int)
    ensures InWindow(h, now) == |Recent(h, now)|
  {
    if h != [] {
      var n := |h| - 1;
      InWindowIs(h[..n], now);
      RecentStep(h, now, n, h[..n]);
    }
  }

  lemma {:induction false} RecentStep(h: seq<int>, now: int, n: nat, t: seq<int>)
    requires n == |h| - 1 && t == h[..n]
    ensures |Recent(h, now)| == |Recent(t, now)| + if now - h[n] <= 60_000_000_000 then 1 else 0
  {
    assert Recent(h, now) == Recent(t, now) + (if now - h[n] <= 60_000_000_000 then {n} else {});
  }

  function TimesOf(m: map<User, seq<int>>, u: User): seq<int> {
    if u in m then m[u] else []
  }

  ghost predicate Ordered(h: seq<int>, clock: int) {
    forall i :: 0 <= i < |h| ==> h[i] <= clock && (i > 0 ==> h[i - 1] <= h[i])
  }

  /** No closed one-minute window holds more than `rpm` of the times. */
  ghost predicate Spaced(h: seq<int>, rpm: int)
    requires rpm > 0
  {
    forall k :: rpm <= k < |h| ==> h[k] - h[k - rpm] > WINDOW
  }

  /** `q` is what is left of the history `h`: the times before it are out of every later window. */
  ghost predicate Pending(h: seq<int>, q: seq<int>, clock: int) {
    |q| <= |h| && h[|h| - |q|..] == q && forall i :: 0 <= i < |h| - |q| ==> clock - h[i] > WINDOW
  }

  lemma {:induction false} AllOut(h: seq<int>, now: int)
    requires forall i :: 0 <= i < |h| ==> now - h[i] > WINDOW
    ensures InWindow(h, now) == 0
  {
    if h != [] { AllOut(h[..|h| - 1], now); }
  }

  /** Once the front of an ordered queue is inside the window, the queue is the window's content. */
  lemma {:induction false} CountIsQueue(h: seq<int>, q: seq<int>, now: int)
    requires Pending(h, q, now) && Ordered(h, now) && (q != [] ==> now - q[0] <= WINDOW)
    ensures InWindow(h, now) == |q|
    decreases |q|
  {
    if q == [] {
      AllOut(h, now);
    } else {
      var n := |h| - 1;
      var q' := q[..|q| - 1];
      assert h[..n][n - |q'|..] == h[|h| - |q|..][..|q| - 1];
      assert h[|h| - |q|] == q[0];
      FromFront(h, now, |h| - |q|, n);
      assert now - h[n] <= WINDOW;
      CountIsQueue(h[..n], q', now);
    }
  }

  lemma {:induction false} FromFront(h: seq<int>, clock: int, i: nat, k: nat)
    requires Ordered(h, clock) && i <= k < |h|
    ensures h[i] <= h[k]
    decreases k - i
  {
    if i < k { FromFront(h, clock, i, k - 1); }
  }

  class RateLimiter {
    const rpm: int
    var hits: map<User, seq<int>>
    /** Every time at which a request of a user was recorded, over the limiter's whole life. */
    ghost var history: map<User, seq<int>>
    ghost var clock: int

    ghost predicate Valid()
      reads this
    {
      forall u: User :: Settled(TimesOf(history, u), TimesOf(hits, u))
    }

    ghost predicate Settled(h: seq<int>, q: seq<int>)
      reads this
    {
      Pending(h, q, clock) && Ordered(h, clock) && (rpm > 0 ==> Spaced(h, rpm))
    }

    constructor (rpm: int, start: int)
      ensures Valid() && this.rpm == rpm && history == map[] && clock == start
    {
      this.rpm, hits, history, clock := rpm, map[], map[], start;
    }

    /** Pops what has left the window. */
    method Expire(q: seq<int>, now: int, ghost h: seq<int>) returns (q': seq<int>)
      requires Pending(h, q, clock) && clock <= now
      ensures Pending(h, q', now) && (q' != [] ==> now - q'[0] <= WINDOW)
    {
      q' := q;
      while q' != [] && now - q'[0] > WINDOW
        invariant Pending(h, q', now)
      {
        assert q'[0] == h[|h| - |q'|];
        assert q'[1..] == h[|h| - |q'| + 1..];
        q' := q'[1..];
      }
    }

    /** Under a clock that never runs backwards, a request is allowed exactly if fewer than `rpm` recorded
        ones of the same user lie in the last closed minute of the full history; other users play no part. */
    method Allow(user: User, now: int) returns (ok: bool)
      requires Valid() && clock <= now
      modifies this
      ensures Valid() && clock == now
      ensures ok <==> rpm <= 0 || user.name == "" || |Recent(TimesOf(old(history), user), now)| < rpm
      ensures history ==
        if ok && rpm > 0 && user.name != "" then old(history)[user := TimesOf(old(history), user) + [now]] else old(history)
    {
      ghost var h := TimesOf(history, user);
      assert Settled(h, TimesOf(hits, user));
      if rpm <= 0 || user.name == "" {
        Tick(now);
        return true;
      }
      var q := Expire(TimesOf(hits, user), now, h);
      assert Ordered(h, now);
      CountIsQueue(h, q, now);
      InWindowIs(h, now);
      Tick(now);
      hits := hits[user := q];
      assert Settled(h, q);
      if |q| >= rpm { return false; }
      ghost var before := history;
      hits, history := hits[user := q + [now]], history[user := h + [now]];
      Recorded(h, q, now);
      assert Settled(h + [now], q + [now]);
      assert forall u: User :: u != user ==> TimesOf(history, u) == TimesOf(before, u);
      ok := true;
    }

    /** Time passes. */
    ghost method Tick(now: int)
      requires Valid() && clock <= now
      modifies this`clock
      ensures Valid() && clock == now
    {
      ghost var was := clock;
      assert forall u: User :: Settled(TimesOf(history, u), TimesOf(hits, u));
      clock := now;
      forall u: User ensures Settled(TimesOf(history, u), TimesOf(hits, u)) {
        assert old(Settled(TimesOf(history, u), TimesOf(hits, u)));
      }
    }

    /** Recording a request that the window has room for keeps the history spaced. */
    lemma {:induction false} Recorded(h: seq<int>, q: seq<int>, now: int)
      requires Settled(h, q) && clock == now && 0 <= |q| < rpm
      ensures Settled(h + [now], q + [now])
    {
      var h' := h + [now];
      assert h'[|h'| - |q| - 1..] == h[|h| - |q|..] + [now];
      forall k | rpm <= k < |h'| ensures h'[k] - h'[k - rpm] > WINDOW {
        if k == |h| { assert k - rpm < |h| - |q|; }
      }
    }
  }
}
