/** Misses of a batch filled by the lane pool: job `i` of the pool fills miss `i` of the batch. */
module LaneFills {
  import opened Bytes
  import opened Lru
  import opened Residency
  import opened Batches
  import opened IoScheduler

  /** The misses in the order in which the lanes executed them. */
  function Executed(log: seq<Exec>, missed: seq<Key>): (done: seq<Key>)
    requires forall e :: 0 <= e < |log| ==> log[e].i < |missed|
    ensures |done| == |log|
    ensures forall e :: 0 <= e < |log| ==> done[e] == missed[log[e].i]
  {
    seq(|log|, e requires 0 <= e < |log| => missed[log[e].i])
  }

  /** When the pool returns, in whatever order its lanes ran the fills of a batch, the window is the
      one that the inline loop leaves. */
  lemma {:induction false} LanesFillLikeInline(h: History, c: Setup, win: seq<byte>, missed: seq<Key>)
    requires Legal(h) && Now(h).caller == Checking && Now(h).pending == 0 && Now(h).count == |missed|
    requires c.Valid() && AllKeys(c, missed) && Distinct(missed) && |win| == c.windowLen
    ensures ExecutedExactlyOnce(Now(h))
    ensures var done := Executed(Now(h).log, missed);
      && AllKeys(c, done) && FillAll(c, win, done) == FillAll(c, win, missed)
      && forall k :: k in missed ==> Served(c, FillAll(c, win, done), k)
  {
    ReturnIsExact(h);
    var p := Now(h);
    var done := Executed(p.log, missed);
    forall k | k in missed ensures k in done {
      var i :| 0 <= i < |missed| && missed[i] == k;
      assert InLog(p, i);
      var e :| 0 <= e < |p.log| && p.log[e].i == i;
      assert done[e] == k;
    }
    assert Distinct(done);
    SameElements(done, missed);
    FillOrderIrrelevant(c, win, missed, done);
    forall k | k in missed ensures Served(c, FillAll(c, win, missed), k) { FillAllServes(c, win, missed, k); }
  }
}
