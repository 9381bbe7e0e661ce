/** The lane pool: N workers and one caller around a mutex and two condition variables.
    Every critical section is one step; sleeping and waking are explicit, so a lost wake-up would
    show as a deadlock. */
module IoScheduler {

  datatype Worker =
    | Testing                            // about to test its wait predicate
    | Asleep                             // waiting for work
    | Claimed(i: nat, batch: nat)        // executes job i without the lock
    | Executed(i: nat, ok: bool)         // job done, about to take the lock again
    | Exited

  datatype Caller =
    | Outside                            // not inside `run`
    | Announcing                         // batch published, workers not notified yet
    | Checking                           // about to test `pending == 0`
    | Waiting                            // asleep until the last job is finished
    | Closing                            // shutdown published, workers not notified yet
    | Joining

  datatype Exec = Exec(i: nat, ok: bool)

  /** `run` numbers the batches; `log` lists the executions of the current one in order. */
  datatype Pool = Pool(run: nat, count: nat, next: nat, pending: int, failed: bool, shutdown: bool,
                       workers: seq<Worker>, caller: Caller, log: seq<Exec>)

  datatype Step =
    | Submit(n: nat)
    | NotifyWork
    | CallerTest
    | WorkerTest(w: nat)
    | Execute(w: nat, ok: bool)
    | Finish(w: nat)
    | Shutdown
    | NotifyClose

  function Init(lanes: int): Pool {
    Pool(0, 0, 0, 0, false, false, seq(if lanes < 1 then 1 else lanes, _ => Testing), Outside, [])
  }

  predicate Enabled(p: Pool, s: Step) {
    match s
    case Submit(n) => p.caller == Outside && n > 0
    case NotifyWork => p.caller == Announcing
    case CallerTest => p.caller == Checking
    case WorkerTest(w) => w < |p.workers| && p.workers[w] == Testing
    case Execute(w, ok) => w < |p.workers| && p.workers[w].Claimed?
    case Finish(w) => w < |p.workers| && p.workers[w].Executed?
    case Shutdown => p.caller == Outside
    case NotifyClose => p.caller == Closing
  }

  function WakeAll(ws: seq<Worker>): (r: seq<Worker>)
    ensures |r| == |ws|
    ensures forall w :: 0 <= w < |ws| ==> r[w] == if ws[w] == Asleep then Testing else ws[w]
  {
    seq(|ws|, w requires 0 <= w < |ws| => if ws[w] == Asleep then Testing else ws[w])
  }

  function Apply(p: Pool, s: Step): Pool
    requires Enabled(p, s)
  {
    match s
    case Submit(n) =>
      p.(run := p.run + 1, count := n, next := 0, pending := n, failed := false, caller := Announcing, log := [])
    case NotifyWork => p.(workers := WakeAll(p.workers), caller := Checking)
    case CallerTest => p.(caller := if p.pending == 0 then Outside else Waiting)
    case WorkerTest(w) =>
      if p.shutdown then p.(workers := p.workers[w := Exited])
      else if p.next < p.count then p.(workers := p.workers[w := Claimed(p.next, p.run)], next := p.next + 1)
      else p.(workers := p.workers[w := Asleep])
    case Execute(w, ok) =>
      p.(workers := p.workers[w := Executed(p.workers[w].i, ok)], log := p.log + [Exec(p.workers[w].i, ok)])
    case Finish(w) =>
      p.(workers := p.workers[w := Testing],
         failed := p.failed || !p.workers[w].ok,
         pending := p.pending - 1,
         caller := if p.pending == 1 && p.caller == Waiting then Checking else p.caller)
    case Shutdown => p.(shutdown := true, caller := Closing)
    case NotifyClose => p.(workers := WakeAll(p.workers), caller := Joining)
  }

  // ---------------------------------------------------------------- sums over workers

  function Sum(ws: seq<Worker>, f: Worker -> nat): nat {
    if ws == [] then 0 else Sum(ws[..|ws| - 1], f) + f(ws[|ws| - 1])
  }

  lemma {:induction false} SumUpdate(ws: seq<Worker>, f: Worker -> nat, w: nat, x: Worker)
    requires w < |ws|
    ensures Sum(ws[w := x], f) == Sum(ws, f) - f(ws[w]) + f(x)
  {
    var n := |ws| - 1;
    if w == n {
      assert ws[w := x][..n] == ws[..n];
    } else {
      assert ws[w := x][..n] == ws[..n][w := x];
      SumUpdate(ws[..n], f, w, x);
    }
  }

  lemma {:induction false} SumWake(ws: seq<Worker>, f: Worker -> nat)
    requires f(Testing) <= f(Asleep) + 1
    ensures Sum(WakeAll(ws), f) <= Sum(ws, f) + |ws|
    ensures f(Testing) == f(Asleep) ==> Sum(WakeAll(ws), f) == Sum(ws, f)
  {
    if ws != [] {
      var n := |ws| - 1;
      assert WakeAll(ws)[..n] == WakeAll(ws[..n]);
      SumWake(ws[..n], f);
    }
  }

  lemma {:induction false} SumZero(ws: seq<Worker>, f: Worker -> nat)
    ensures Sum(ws, f) == 0 <==> forall w :: 0 <= w < |ws| ==> f(ws[w]) == 0
  {
    if ws != [] {
      SumZero(ws[..|ws| - 1], f);
      assert forall w :: 0 <= w < |ws| - 1 ==> ws[..|ws| - 1][w] == ws[w];
    }
  }

  /** A job has been claimed but not finished. */
  function Busy(w: Worker): nat {
    if w.Claimed? || w.Executed? then 1 else 0
  }

  // ---------------------------------------------------------------- the invariant

  predicate InRun(p: Pool) {
    p.caller == Announcing || p.caller == Checking || p.caller == Waiting
  }

  /** Claimed jobs belong to the current batch, are not executed yet, and are claimed once. */
  ghost predicate Claims(p: Pool) {
    && (forall w :: 0 <= w < |p.workers| && p.workers[w].Claimed? ==>
          p.workers[w].i < p.next && p.workers[w].batch == p.run)
    && (forall w :: 0 <= w < |p.workers| && p.workers[w].Claimed? ==>
          forall e :: 0 <= e < |p.log| ==> p.log[e].i != p.workers[w].i)
    && (forall v, w :: 0 <= v < w < |p.workers| && Busy(p.workers[v]) == 1 && Busy(p.workers[w]) == 1 ==>
          p.workers[v].i != p.workers[w].i)
  }

  /** Every claimed index is executed once or still in the hands of one worker. */
  ghost predicate Executions(p: Pool) {
    && (forall e :: 0 <= e < |p.log| ==> p.log[e].i < p.next)
    && (forall d, e :: 0 <= d < e < |p.log| ==> p.log[d].i != p.log[e].i)
    && (forall i :: 0 <= i < p.next ==> InLog(p, i) || InHand(p, i))
    && (forall w :: 0 <= w < |p.workers| && p.workers[w].Executed? ==> Exec(p.workers[w].i, p.workers[w].ok) in p.log)
  }

  ghost predicate InLog(p: Pool, i: nat) {
    exists e :: 0 <= e < |p.log| && p.log[e].i == i
  }

  ghost predicate InHand(p: Pool, i: nat) {
    exists w :: 0 <= w < |p.workers| && p.workers[w].Claimed? && p.workers[w].i == i
  }

  /** An execution whose outcome has been folded into `failed` and `pending`. */
  ghost predicate Settled(p: Pool, x: Exec) {
    x in p.log && forall w :: 0 <= w < |p.workers| && p.workers[w].Executed? ==> p.workers[w].i != x.i
  }

  /** Nobody sleeps on a condition that already holds, except while the notification is on its way. */
  ghost predicate NoLostWakeup(p: Pool) {
    && (p.caller == Waiting ==> p.pending > 0)
    && (forall w :: 0 <= w < |p.workers| && p.workers[w] == Asleep ==>
          && (p.next < p.count ==> p.caller == Announcing)
          && (p.shutdown ==> p.caller == Closing))
  }

  ghost predicate Inv(p: Pool) {
    && |p.workers| >= 1
    && p.next <= p.count
    && p.pending == p.count - p.next + Sum(p.workers, Busy)
    && (p.shutdown <==> p.caller == Closing || p.caller == Joining)
    && (!InRun(p) ==> p.pending == 0)
    && (forall w :: 0 <= w < |p.workers| && p.workers[w] == Exited ==> p.shutdown)
    && Claims(p)
    && Executions(p)
    && (p.failed <==> exists x :: Settled(p, x) && !x.ok)
    && NoLostWakeup(p)
  }

  // ---------------------------------------------------------------- every step keeps it

  lemma {:induction false} InitInv(lanes: int)
    ensures Inv(Init(lanes))
  {
    var p := Init(lanes);
    SumZero(p.workers, Busy);
  }

  /** `q` is `p` with worker `w` changed and possibly more executions logged. */
  ghost predicate Moved(p: Pool, q: Pool, w: nat) {
    w < |p.workers| && |q.workers| == |p.workers| && q.workers == p.workers[w := q.workers[w]] && p.log <= q.log
  }

  /** Whatever was executed or in the hands of another worker still is. */
  lemma {:induction false} KeepAccounted(p: Pool, q: Pool, w: nat, i: nat)
    requires Moved(p, q, w) && (InLog(p, i) || InHand(p, i))
    requires p.workers[w].Claimed? ==> p.workers[w].i != i
    ensures InLog(q, i) || InHand(q, i)
  {
    if InLog(p, i) {
      var e :| 0 <= e < |p.log| && p.log[e].i == i;
      assert q.log[e].i == i;
    } else {
      var v :| 0 <= v < |p.workers| && p.workers[v].Claimed? && p.workers[v].i == i;
      assert q.workers[v].Claimed? && q.workers[v].i == i;
    }
  }

  /** Steps that neither execute nor finish a job leave the settled executions alone. */
  lemma {:induction false} SettledKept(p: Pool, q: Pool, x: Exec, w: nat)
    requires Moved(p, q, w) && !p.workers[w].Executed? && !q.workers[w].Executed? && q.log == p.log
    ensures Settled(p, x) <==> Settled(q, x)
  {
    if Settled(p, x) {
      forall v | 0 <= v < |q.workers| && q.workers[v].Executed? ensures q.workers[v].i != x.i {
        assert p.workers[v].Executed?;
      }
    }
    if Settled(q, x) {
      forall v | 0 <= v < |p.workers| && p.workers[v].Executed? ensures p.workers[v].i != x.i {
        assert q.workers[v].Executed?;
      }
    }
  }

  lemma {:induction false} ClaimInv(p: Pool, w: nat)
    requires Inv(p) && Enabled(p, WorkerTest(w))
    ensures Inv(Apply(p, WorkerTest(w)))
  {
    var q := Apply(p, WorkerTest(w));
    SumUpdate(p.workers, Busy, w, q.workers[w]);
    assert Executions(q) by {
      forall i | 0 <= i < q.next ensures InLog(q, i) || InHand(q, i) {
        if i == p.next {
          assert q.workers[w].Claimed? && q.workers[w].i == i;
        } else {
          KeepAccounted(p, q, w, i);
        }
      }
    }
    assert Claims(q) by { ClaimIsNew(p, w); }
    forall x ensures Settled(p, x) <==> Settled(q, x) {
      SettledKept(p, q, x, w);
    }
  }

  /** The index handed out is new: nobody has executed it and nobody holds it. */
  lemma {:induction false} ClaimIsNew(p: Pool, w: nat)
    requires Inv(p) && Enabled(p, WorkerTest(w))
    ensures Claims(Apply(p, WorkerTest(w)))
  {
    var q := Apply(p, WorkerTest(w));
    forall v | 0 <= v < |p.workers| && Busy(p.workers[v]) == 1 ensures p.workers[v].i < p.next {
      if p.workers[v].Executed? { assert Exec(p.workers[v].i, p.workers[v].ok) in p.log; }
    }
    forall v | 0 <= v < |q.workers| && v != w ensures q.workers[v] == p.workers[v] {
    }
  }

  /** A fresh execution is not settled yet, and unsettles nothing. */
  lemma {:induction false} ExecuteUnsettled(p: Pool, w: nat, ok: bool, x: Exec)
    requires Inv(p) && Enabled(p, Execute(w, ok))
    ensures Settled(Apply(p, Execute(w, ok)), x) <==> Settled(p, x)
  {
    var q := Apply(p, Execute(w, ok));
    assert q.workers[w].Executed?;
    if Settled(p, x) {
      var e :| 0 <= e < |p.log| && p.log[e] == x;
      assert q.log[e] == x;
      forall v | 0 <= v < |q.workers| && q.workers[v].Executed? ensures q.workers[v].i != x.i {
        if v != w { assert p.workers[v].Executed?; }
      }
    }
    if Settled(q, x) {
      assert x in p.log;
      forall v | 0 <= v < |p.workers| && p.workers[v].Executed? ensures p.workers[v].i != x.i {
        assert q.workers[v].Executed?;
      }
    }
  }

  lemma {:induction false} ExecuteLogs(p: Pool, w: nat, ok: bool)
    requires Inv(p) && Enabled(p, Execute(w, ok))
    ensures Executions(Apply(p, Execute(w, ok)))
  {
    var q := Apply(p, Execute(w, ok));
    assert q.log[|p.log|] == Exec(p.workers[w].i, ok);
    forall j | 0 <= j < q.next ensures InLog(q, j) || InHand(q, j) {
      if j == p.workers[w].i {
        assert q.log[|p.log|].i == j;
      } else {
        KeepAccounted(p, q, w, j);
      }
    }
    forall v | 0 <= v < |q.workers| && q.workers[v].Executed?
      ensures Exec(q.workers[v].i, q.workers[v].ok) in q.log
    {
      if v != w { assert p.workers[v].Executed?; }
    }
  }

  lemma {:induction false} ExecuteClaims(p: Pool, w: nat, ok: bool)
    requires Inv(p) && Enabled(p, Execute(w, ok))
    ensures Claims(Apply(p, Execute(w, ok)))
  {
    var q := Apply(p, Execute(w, ok));
    forall v | 0 <= v < |q.workers| && q.workers[v].Claimed?
      ensures forall e :: 0 <= e < |q.log| ==> q.log[e].i != q.workers[v].i
    {
      assert v != w && p.workers[v].Claimed?;
      assert Busy(p.workers[v]) == 1 && Busy(p.workers[w]) == 1;
    }
    forall u, v | 0 <= u < v < |q.workers| && Busy(q.workers[u]) == 1 && Busy(q.workers[v]) == 1
      ensures q.workers[u].i != q.workers[v].i
    {
      assert Busy(p.workers[u]) == 1 && Busy(p.workers[v]) == 1;
    }
  }

  lemma {:induction false} ExecuteInv(p: Pool, w: nat, ok: bool)
    requires Inv(p) && Enabled(p, Execute(w, ok))
    ensures Inv(Apply(p, Execute(w, ok)))
  {
    var q := Apply(p, Execute(w, ok));
    SumUpdate(p.workers, Busy, w, q.workers[w]);
    ExecuteLogs(p, w, ok);
    ExecuteClaims(p, w, ok);
    forall x ensures Settled(q, x) <==> Settled(p, x) {
      ExecuteUnsettled(p, w, ok, x);
    }
  }

  lemma {:induction false} FinishInv(p: Pool, w: nat)
    requires Inv(p) && Enabled(p, Finish(w))
    ensures Inv(Apply(p, Finish(w)))
  {
    var q := Apply(p, Finish(w));
    var x := Exec(p.workers[w].i, p.workers[w].ok);
    assert Sum(q.workers, Busy) == Sum(p.workers, Busy) - 1 by { SumUpdate(p.workers, Busy, w, q.workers[w]); }
    forall j | 0 <= j < q.next ensures InLog(q, j) || InHand(q, j) {
      KeepAccounted(p, q, w, j);
    }
    assert x in p.log;
    FinishSettles(p, w);
    if q.failed {
      if p.failed {
        var y :| Settled(p, y) && !y.ok;
        assert Settled(q, y);
      } else {
        assert Settled(q, x) && !x.ok;
      }
    }
  }

  lemma {:induction false} LoggedOnce(p: Pool, x: Exec, y: Exec)
    requires Executions(p) && x in p.log && y in p.log && x != y
    ensures x.i != y.i
  {
    var d :| 0 <= d < |p.log| && p.log[d] == x;
    var e :| 0 <= e < |p.log| && p.log[e] == y;
    assert d < e || e < d;
  }

  /** Finishing settles exactly the execution of this worker. */
  lemma {:induction false} FinishSettles(p: Pool, w: nat)
    requires Inv(p) && Enabled(p, Finish(w))
    ensures forall y :: Settled(Apply(p, Finish(w)), y) <==>
      Settled(p, y) || y == Exec(p.workers[w].i, p.workers[w].ok)
  {
    var q := Apply(p, Finish(w));
    var x := Exec(p.workers[w].i, p.workers[w].ok);
    forall y ensures Settled(q, y) <==> Settled(p, y) || y == x {
      if Settled(p, y) || y == x {
        forall v | 0 <= v < |q.workers| && q.workers[v].Executed? ensures q.workers[v].i != y.i {
          assert p.workers[v].Executed? && v != w;
        }
      }
      if Settled(q, y) && y != x {
        assert y.i != x.i by { LoggedOnce(p, x, y); }
        forall v | 0 <= v < |p.workers| && p.workers[v].Executed? ensures p.workers[v].i != y.i {
          if v != w { assert q.workers[v].Executed?; }
        }
      }
    }
  }

  /** Steps that change neither the log nor any worker that holds a job. */
  lemma {:induction false} QuietStep(p: Pool, q: Pool)
    requires Inv(p) && q.log == p.log && |q.workers| == |p.workers| && q.next == p.next && q.run == p.run
    requires forall w :: 0 <= w < |p.workers| ==>
      (q.workers[w] == p.workers[w] || (Busy(p.workers[w]) == 0 && Busy(q.workers[w]) == 0))
    ensures Claims(q) && Executions(q)
    ensures forall x :: Settled(p, x) <==> Settled(q, x)
  {
    forall j | 0 <= j < q.next ensures InLog(q, j) || InHand(q, j) {
      assert InLog(p, j) ==> InLog(q, j);
      if InHand(p, j) {
        var v :| 0 <= v < |p.workers| && p.workers[v].Claimed? && p.workers[v].i == j;
        assert Busy(p.workers[v]) == 1 && q.workers[v].Claimed? && q.workers[v].i == j;
      }
    }
    forall x ensures Settled(p, x) <==> Settled(q, x) {
      forall w | 0 <= w < |p.workers| ensures p.workers[w].Executed? <==> q.workers[w].Executed? {
        assert Busy(p.workers[w]) == Busy(q.workers[w]);
      }
    }
  }

  lemma {:induction false} WakeInv(p: Pool, s: Step)
    requires Inv(p) && Enabled(p, s) && (s == NotifyWork || s == NotifyClose)
    ensures Inv(Apply(p, s))
  {
    SumWake(p.workers, Busy);
    QuietStep(p, Apply(p, s));
  }

  lemma {:induction false} SubmitInv(p: Pool, n: nat)
    requires Inv(p) && Enabled(p, Submit(n))
    ensures Inv(Apply(p, Submit(n)))
  {
    SumZero(p.workers, Busy);
    var q := Apply(p, Submit(n));
    forall w | 0 <= w < |q.workers| ensures !q.workers[w].Claimed? && !q.workers[w].Executed? {
      assert Busy(p.workers[w]) == 0;
    }
    assert forall x :: !Settled(q, x);
  }

  lemma {:induction false} OtherInv(p: Pool, s: Step)
    requires Inv(p) && Enabled(p, s) && (s == CallerTest || s == Shutdown)
    ensures Inv(Apply(p, s))
  {
    QuietStep(p, Apply(p, s));
  }

  /** The protocol invariant survives every step of every thread. */
  lemma {:induction false} StepKeepsInv(p: Pool, s: Step)
    requires Inv(p) && Enabled(p, s)
    ensures Inv(Apply(p, s))
  {
    match s
    case Submit(n) => SubmitInv(p, n);
    case NotifyWork => WakeInv(p, s);
    case NotifyClose => WakeInv(p, s);
    case CallerTest => OtherInv(p, s);
    case Shutdown => OtherInv(p, s);
    case WorkerTest(w) => ClaimInv(p, w);
    case Execute(w, ok) => ExecuteInv(p, w, ok);
    case Finish(w) => FinishInv(p, w);
  }

  /** Any interleaving of any number of batches, from the creation of the pool. */
  datatype History = Created(lanes: int) | Then(before: History, step: Step)

  predicate Legal(h: History)
    decreases h, 0
  {
    h.Then? ==> Legal(h.before) && Enabled(Now(h.before), h.step)
  }

  function Now(h: History): Pool
    requires Legal(h)
    decreases h, 1
  {
    match h
    case Created(lanes) => Init(lanes)
    case Then(before, step) => Apply(Now(before), step)
  }

  lemma {:induction false} HistoryInv(h: History)
    requires Legal(h)
    ensures Inv(Now(h))
  {
    match h
    case Created(lanes) => InitInv(lanes);
    case Then(before, step) =>
      HistoryInv(before);
      StepKeepsInv(Now(before), step);
  }

  // ---------------------------------------------------------------- what the history says of the pool

  /** How many lanes the pool was asked for. */
  ghost function Lanes(h: History): int {
    match h
    case Created(lanes) => lanes
    case Then(before, _) => Lanes(before)
  }

  /** The sizes of all batches so far. */
  ghost function Batches(h: History): seq<nat> {
    match h
    case Created(_) => []
    case Then(before, Submit(n)) => Batches(before) + [n]
    case Then(before, _) => Batches(before)
  }

  /** The answers of the jobs executed since the latest batch was submitted, in order. */
  ghost function Answers(h: History): seq<bool> {
    match h
    case Created(_) => []
    case Then(_, Submit(_)) => []
    case Then(before, Execute(_, ok)) => Answers(before) + [ok]
    case Then(before, _) => Answers(before)
  }

  ghost predicate ShutDown(h: History) {
    h.Then? && (h.step == Shutdown || ShutDown(h.before))
  }

  /** The pool keeps one worker for each lane it was asked for, and one if it was asked for none. It counts the
      batches, waits for the latest one, logs what each of its jobs answered, and closes only when told to. */
  lemma {:induction false} HistoryMeans(h: History)
    requires Legal(h)
    ensures |Now(h).workers| == if Lanes(h) < 1 then 1 else Lanes(h)
    ensures Now(h).run == |Batches(h)|
    ensures Now(h).count == if Batches(h) == [] then 0 else Batches(h)[|Batches(h)| - 1]
    ensures |Now(h).log| == |Answers(h)| && forall e :: 0 <= e < |Now(h).log| ==> Now(h).log[e].ok == Answers(h)[e]
    ensures Now(h).shutdown <==> ShutDown(h)
  {
    if h.Then? {
      HistoryMeans(h.before);
      var p, q := Now(h.before), Now(h);
      assert h.step.Submit? ==> q.log == [];
    }
  }

  // ---------------------------------------------------------------- what `run` guarantees

  /** A worker only ever executes a job of the batch that is being waited for. */
  lemma {:induction false} ExecutesCurrentBatch(h: History, w: nat)
    requires Legal(h) && w < |Now(h).workers| && Now(h).workers[w].Claimed?
    ensures var p := Now(h);
      p.workers[w].batch == p.run && p.workers[w].i < p.count && InRun(p)
  {
    HistoryInv(h);
    SumZero(Now(h).workers, Busy);
    assert Busy(Now(h).workers[w]) == 1;
  }

  /** Each index of the batch occurs in the log exactly once. */
  ghost predicate ExecutedExactlyOnce(p: Pool) {
    && (forall i :: 0 <= i < p.count ==> InLog(p, i))
    && (forall e :: 0 <= e < |p.log| ==> p.log[e].i < p.count)
    && (forall d, e :: 0 <= d < e < |p.log| ==> p.log[d].i != p.log[e].i)
  }

  /** When `run` is about to return, every job of the batch has been executed exactly once, no worker
      holds one any more, and the result is true iff all jobs succeeded. */
  lemma {:induction false} ReturnIsExact(h: History)
    requires Legal(h) && Now(h).caller == Checking && Now(h).pending == 0
    ensures var p := Now(h);
      && ExecutedExactlyOnce(p)
      && (forall w :: 0 <= w < |p.workers| ==> !p.workers[w].Claimed? && !p.workers[w].Executed?)
      && (!p.failed <==> forall e :: 0 <= e < |p.log| ==> p.log[e].ok)
  {
    var p := Now(h);
    HistoryInv(h);
    SumZero(p.workers, Busy);
    forall w | 0 <= w < |p.workers| ensures !p.workers[w].Claimed? && !p.workers[w].Executed? {
      assert Busy(p.workers[w]) == 0;
    }
    forall i | 0 <= i < p.count ensures InLog(p, i) {
      assert InLog(p, i) || InHand(p, i);
    }
    forall e | 0 <= e < |p.log| && !p.log[e].ok ensures p.failed {
      assert Settled(p, p.log[e]);
    }
  }

  /** At any moment `pending` counts the jobs of the batch that are not finished. */
  lemma {:induction false} PendingCountsUnfinished(h: History)
    requires Legal(h)
    ensures Now(h).pending == Now(h).count - |FinishedJobs(Now(h))|
  {
    HistoryInv(h);
    var p := Now(h);
    var done, held := FinishedJobs(p), HeldIndices(p.workers);
    HeldCount(p.workers);
    BelowCount(p.next);
    forall i: nat ensures i in Below(p.next) <==> i in done || i in held
      ensures !(i in done && i in held)
    {
      BelowMember(p.next, i);
      BelowMember(p.count, i);
      JobStatus(p, i);
    }
    assert Below(p.next) == done + held;
    assert done !! held;
  }

  /** A job is claimed iff it is finished or held by a worker, and never both. */
  lemma {:induction false} JobStatus(p: Pool, i: nat)
    requires Inv(p)
    ensures i < p.next <==> Finished(p, i) || i in HeldIndices(p.workers)
    ensures !(Finished(p, i) && i in HeldIndices(p.workers))
  {
    if i < p.next && InHand(p, i) {
      var w :| 0 <= w < |p.workers| && p.workers[w].Claimed? && p.workers[w].i == i;
      assert Busy(p.workers[w]) == 1;
    }
    if i in HeldIndices(p.workers) {
      var w :| 0 <= w < |p.workers| && Busy(p.workers[w]) == 1 && p.workers[w].i == i;
      if p.workers[w].Executed? { assert Exec(i, p.workers[w].ok) in p.log; }
    }
  }

  ghost function FinishedJobs(p: Pool): set<nat> {
    set i | i in Below(p.count) && Finished(p, i)
  }

  /** Executed, and the worker has reported back. */
  ghost predicate Finished(p: Pool, i: nat) {
    InLog(p, i) && forall w :: 0 <= w < |p.workers| && Busy(p.workers[w]) == 1 ==> p.workers[w].i != i
  }

  function HeldIndices(ws: seq<Worker>): set<nat> {
    set w | 0 <= w < |ws| && Busy(ws[w]) == 1 :: ws[w].i
  }

  lemma {:induction false} HeldSnoc(ws: seq<Worker>, x: Worker)
    ensures HeldIndices(ws + [x]) == HeldIndices(ws) + (if Busy(x) == 1 then {x.i} else {})
  {
    var all := ws + [x];
    assert forall w :: 0 <= w < |ws| ==> all[w] == ws[w];
    assert all[|ws|] == x;
  }

  lemma {:induction false} HeldCount(ws: seq<Worker>)
    requires forall v, w :: 0 <= v < w < |ws| && Busy(ws[v]) == 1 && Busy(ws[w]) == 1 ==> ws[v].i != ws[w].i
    ensures |HeldIndices(ws)| == Sum(ws, Busy)
  {
    if ws != [] {
      var n := |ws| - 1;
      assert ws == ws[..n] + [ws[n]];
      HeldCount(ws[..n]);
      HeldSnoc(ws[..n], ws[n]);
    }
  }

  function Below(n: nat): set<nat> {
    if n == 0 then {} else Below(n - 1) + {n - 1}
  }

  lemma {:induction false} BelowMember(n: nat, i: nat)
    ensures i in Below(n) <==> i < n
  {
    if n > 0 { BelowMember(n - 1, i); }
  }

  lemma {:induction false} BelowCount(n: nat)
    ensures |Below(n)| == n
  {
    if n > 0 {
      BelowCount(n - 1);
      BelowMember(n - 1, n - 1);
    }
  }

  // ---------------------------------------------------------------- `run` returns

  function Weight(w: Worker): nat {
    match w
    case Claimed(_, _) => 4
    case Executed(_, _) => 3
    case Testing => 1
    case _ => 0
  }

  function CallerWeight(p: Pool): nat {
    match p.caller
    case Announcing => |p.workers| + 2
    case Closing => |p.workers| + 1
    case Checking => 1
    case _ => 0
  }

  function Measure(p: Pool): nat
    requires p.next <= p.count
  {
    4 * (p.count - p.next) + Sum(p.workers, Weight) + CallerWeight(p)
  }

  /** Until `run` returns, some thread can always take a step of the run: nothing deadlocks and no
      wake-up is lost. */
  lemma {:induction false} NeverStuck(h: History) returns (s: Step)
    requires Legal(h) && InRun(Now(h))
    ensures Enabled(Now(h), s) && !s.Submit? && !s.Shutdown?
  {
    var p := Now(h);
    HistoryInv(h);
    SumZero(p.workers, Busy);
    if p.caller == Announcing {
      s := NotifyWork;
    } else if p.caller == Checking {
      s := CallerTest;
    } else if p.next < p.count {
      s := if p.workers[0].Claimed? then Execute(0, true)
           else if p.workers[0].Executed? then Finish(0) else WorkerTest(0);
    } else {
      var w :| 0 <= w < |p.workers| && Busy(p.workers[w]) != 0;
      s := if p.workers[w].Claimed? then Execute(w, true) else Finish(w);
    }
  }

  lemma {:induction false} WorkerStepDecreases(p: Pool, s: Step, w: nat)
    requires p.next <= p.count && Enabled(p, s) && (s == WorkerTest(w) || s == Finish(w) || (s.Execute? && s.w == w))
    ensures Apply(p, s).next <= p.count && Measure(Apply(p, s)) < Measure(p)
  {
    SumUpdate(p.workers, Weight, w, Apply(p, s).workers[w]);
  }

  lemma {:induction false} CallerStepDecreases(p: Pool, s: Step)
    requires p.next <= p.count && Enabled(p, s) && (s == NotifyWork || s == NotifyClose || s == CallerTest)
    ensures Apply(p, s).next <= p.count && Measure(Apply(p, s)) < Measure(p)
  {
    SumWake(p.workers, Weight);
  }

  /** Every step other than starting a batch or shutting down brings the end closer, so each run
      returns and each shutdown completes. */
  lemma {:induction false} StepsDecrease(p: Pool, s: Step)
    requires Inv(p) && Enabled(p, s) && !s.Submit? && !s.Shutdown?
    ensures Inv(Apply(p, s)) && Measure(Apply(p, s)) < Measure(p)
  {
    StepKeepsInv(p, s);
    match s
    case WorkerTest(w) => WorkerStepDecreases(p, s, w);
    case Execute(w, ok) => WorkerStepDecreases(p, s, w);
    case Finish(w) => WorkerStepDecreases(p, s, w);
    case _ => CallerStepDecreases(p, s);
  }

  /** Joining ends: while a worker is left after shutdown was announced it can exit at once, and none
      of them is in the middle of a job. */
  lemma {:induction false} ShutdownCompletes(h: History, w: nat)
    requires Legal(h) && Now(h).caller == Joining && w < |Now(h).workers|
    ensures var p := Now(h);
      p.workers[w] == Exited || (Enabled(p, WorkerTest(w)) && Apply(p, WorkerTest(w)).workers[w] == Exited)
  {
    HistoryInv(h);
    SumZero(Now(h).workers, Busy);
    assert Busy(Now(h).workers[w]) == 0;
  }
}
