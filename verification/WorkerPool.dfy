/**
 * `runWithConcurrency`: tasks handed out to a few workers through one shared
 * counter. Between two awaits a worker is alone, so testing and raising the
 * counter is one step; everything else interleaves freely.
 */
module WorkerPool {
  import opened Rows
  import opened Sets

  /** A JavaScript number, as `limit` may be. */
  datatype Limit = NotANumber | MinusInfinity | PlusInfinity | Finite(x: real)

  function Min(a: nat, b: nat): nat {
    if a < b then a else b
  }

  /** `max(1, floor(limit))`; None for NaN and for infinity. */
  function AtMost(limit: Limit): Option<nat> {
    match limit
    case NotANumber => None
    case PlusInfinity => None
    case MinusInfinity => Some(1)
    case Finite(x) => Some(if x.Floor < 1 then 1 else x.Floor)
  }

  /** How many loops over the tasks are started; the sequential branch is one of them. */
  function Workers(tasks: nat, limit: Limit): (w: nat)
    ensures AtMost(limit).Some? ==> w <= AtMost(limit).value
    ensures w == 0 <==> limit.NotANumber? && tasks > 1
  {
    if AtMost(limit) == Some(1) || tasks <= 1 then 1
    else if limit.NotANumber? then 0
    else Min(AtMost(limit).GetOr(tasks), tasks)
  }

  /** Where a worker's loop stands: at its test, awaiting a task, or gone. */
  datatype Worker = AtTest | Awaiting(task: nat) | Returned | Threw

  datatype Outcome = Unsettled | Resolved | Rejected

  datatype Log = Start(task: nat) | Finish(task: nat) | Fail(task: nat)

  datatype Pool = Pool(next: nat, workers: seq<Worker>, log: seq<Log>, outcome: Outcome)

  datatype Action = Test(w: nat) | TaskResolves(w: nat) | TaskRejects(w: nat) | AllReturned

  function Initial(tasks: nat, limit: Limit): Pool {
    Pool(0, seq(Workers(tasks, limit), _ => AtTest), [], Unsettled)
  }

  predicate Enabled(p: Pool, a: Action) {
    match a
    case Test(w) => w < |p.workers| && p.workers[w].AtTest?
    case TaskResolves(w) => w < |p.workers| && p.workers[w].Awaiting?
    case TaskRejects(w) => w < |p.workers| && p.workers[w].Awaiting?
    case AllReturned => p.outcome.Unsettled? && forall v :: v in p.workers ==> v.Returned?
  }

  function Step(tasks: nat, p: Pool, a: Action): Pool
    requires Enabled(p, a)
  {
    match a
    case Test(w) =>
      if p.next < tasks
      then p.(next := p.next + 1, workers := p.workers[w := Awaiting(p.next)], log := p.log + [Start(p.next)])
      else p.(workers := p.workers[w := Returned])
    case TaskResolves(w) =>
      p.(workers := p.workers[w := AtTest], log := p.log + [Finish(p.workers[w].task)])
    case TaskRejects(w) =>
      p.(workers := p.workers[w := Threw], log := p.log + [Fail(p.workers[w].task)],
         outcome := if p.outcome.Unsettled? then Rejected else p.outcome)
    case AllReturned => p.(outcome := Resolved)
  }

  /** `p` is reached by some interleaving of `n` steps. */
  ghost predicate Reachable(tasks: nat, limit: Limit, n: nat, p: Pool) {
    if n == 0 then p == Initial(tasks, limit)
    else exists q, a :: Reachable(tasks, limit, n - 1, q) && Enabled(q, a) && p == Step(tasks, q, a)
  }

  // ------------------------------------------------------------- the invariant

  /** The tasks started, in the order they were. */
  function Started(log: seq<Log>): seq<nat> {
    if log == [] then []
    else Started(log[..|log| - 1]) + if log[|log| - 1].Start? then [log[|log| - 1].task] else []
  }

  function UpTo(n: nat): seq<nat> {
    seq(n, i => i)
  }

  predicate Awaited(p: Pool, t: nat) {
    exists w :: 0 <= w < |p.workers| && p.workers[w] == Awaiting(t)
  }

  /** A task that was started is in exactly one of three places. */
  predicate TaskSound(p: Pool, t: nat) {
    if t >= p.next then !Awaited(p, t) && Start(t) !in p.log && Finish(t) !in p.log && Fail(t) !in p.log
    else if Awaited(p, t) then Finish(t) !in p.log && Fail(t) !in p.log
    else Finish(t) in p.log || Fail(t) in p.log
  }

  predicate NothingTwice(log: seq<Log>) {
    forall i, j :: 0 <= i < j < |log| ==> log[i] != log[j]
  }

  ghost predicate Hands(tasks: nat, p: Pool) {
    && p.next <= tasks
    && Started(p.log) == UpTo(p.next)
    && (forall v, w :: 0 <= v < w < |p.workers| && p.workers[v].Awaiting? ==> p.workers[v] != p.workers[w])
    && (p.next < tasks ==> forall w :: 0 <= w < |p.workers| ==> !p.workers[w].Returned?)
  }

  predicate AnyFail(log: seq<Log>) {
    exists l :: l in log && l.Fail?
  }

  predicate AnyThrew(p: Pool) {
    exists w :: 0 <= w < |p.workers| && p.workers[w].Threw?
  }

  ghost predicate Settles(p: Pool) {
    && (p.outcome.Rejected? <==> AnyFail(p.log))
    && (AnyThrew(p) <==> AnyFail(p.log))
    && (p.outcome.Resolved? ==> forall w :: 0 <= w < |p.workers| ==> p.workers[w].Returned?)
  }

  ghost predicate Tasks(p: Pool) {
    NothingTwice(p.log) && forall t: nat :: TaskSound(p, t)
  }

  ghost predicate Inv(tasks: nat, limit: Limit, p: Pool) {
    |p.workers| == Workers(tasks, limit) && Hands(tasks, p) && Settles(p) && Tasks(p)
  }

  lemma StartedSnoc(log: seq<Log>, l: Log)
    ensures Started(log + [l]) == Started(log) + if l.Start? then [l.task] else []
  {
    assert (log + [l])[..|log|] == log;
  }

  lemma UpToNext(n: nat)
    ensures UpTo(n + 1) == UpTo(n) + [n]
  {
  }

  lemma TestHandsOut(tasks: nat, p: Pool, w: nat)
    requires Hands(tasks, p) && Tasks(p) && Enabled(p, Test(w))
    ensures Hands(tasks, Step(tasks, p, Test(w)))
  {
    if p.next < tasks {
      StartedSnoc(p.log, Start(p.next));
      UpToNext(p.next);
      assert TaskSound(p, p.next);
    }
  }

  lemma HandsStep(tasks: nat, p: Pool, a: Action)
    requires Hands(tasks, p) && Tasks(p) && Enabled(p, a)
    ensures Hands(tasks, Step(tasks, p, a))
  {
    match a
    case Test(w) => TestHandsOut(tasks, p, w);
    case TaskResolves(w) => StartedSnoc(p.log, Finish(p.workers[w].task));
    case TaskRejects(w) => StartedSnoc(p.log, Fail(p.workers[w].task));
    case AllReturned =>
  }

  lemma SettlesStep(tasks: nat, p: Pool, a: Action)
    requires Settles(p) && Enabled(p, a)
    ensures Settles(Step(tasks, p, a))
  {
    var q := Step(tasks, p, a);
    match a
    case Test(w) =>
      assert forall v :: 0 <= v < |p.workers| ==> (q.workers[v].Threw? <==> p.workers[v].Threw?);
    case TaskResolves(w) =>
      assert forall v :: 0 <= v < |p.workers| ==> (q.workers[v].Threw? <==> p.workers[v].Threw?);
    case TaskRejects(w) =>
      assert q.workers[w].Threw? && q.log[|p.log|].Fail?;
    case AllReturned =>
  }

  lemma AwaitedStep(tasks: nat, p: Pool, a: Action, t: nat)
    requires Hands(tasks, p) && Enabled(p, a)
    ensures Awaited(Step(tasks, p, a), t) <==>
            match a
            case Test(w) => Awaited(p, t) || (p.next < tasks && t == p.next)
            case TaskResolves(w) => Awaited(p, t) && p.workers[w].task != t
            case TaskRejects(w) => Awaited(p, t) && p.workers[w].task != t
            case AllReturned => Awaited(p, t)
  {
    var q := Step(tasks, p, a);
    if Awaited(p, t) {
      var v :| 0 <= v < |p.workers| && p.workers[v] == Awaiting(t);
      assert q.workers[v] == Awaiting(t) || (!a.AllReturned? && a.w == v);
    }
    if a.Test? && p.next < tasks {
      assert q.workers[a.w] == Awaiting(p.next);
    }
  }

  lemma TasksStep(tasks: nat, p: Pool, a: Action)
    requires Hands(tasks, p) && Tasks(p) && Enabled(p, a)
    ensures Tasks(Step(tasks, p, a))
  {
    var q := Step(tasks, p, a);
    forall t: nat
      ensures TaskSound(q, t)
    {
      assert TaskSound(p, t);
      AwaitedStep(tasks, p, a, t);
    }
    if a.Test? {
      assert TaskSound(p, p.next);
    } else if !a.AllReturned? {
      assert TaskSound(p, p.workers[a.w].task);
      assert Awaited(p, p.workers[a.w].task);
    }
  }

  lemma {:induction false} InvHolds(tasks: nat, limit: Limit, n: nat, p: Pool)
    requires Reachable(tasks, limit, n, p)
    ensures Inv(tasks, limit, p)
    decreases n
  {
    if n > 0 {
      var q, a :| Reachable(tasks, limit, n - 1, q) && Enabled(q, a) && p == Step(tasks, q, a);
      InvHolds(tasks, limit, n - 1, q);
      HandsStep(tasks, q, a);
      SettlesStep(tasks, q, a);
      TasksStep(tasks, q, a);
    }
  }

  // -------------------------------------------------------------- main results

  /** Main result: tasks start in index order, each once, and settle at most once. */
  lemma StartsInOrderOnce(tasks: nat, limit: Limit, n: nat, p: Pool)
    requires Reachable(tasks, limit, n, p)
    ensures p.next <= tasks && Started(p.log) == UpTo(p.next) && NothingTwice(p.log)
    ensures forall t: nat :: Finish(t) in p.log || Fail(t) in p.log ==> t < p.next
  {
    InvHolds(tasks, limit, n, p);
    forall t: nat | Finish(t) in p.log || Fail(t) in p.log
      ensures t < p.next
    {
      assert TaskSound(p, t);
    }
  }

  /** Started and not settled. */
  function InFlight(p: Pool): set<nat> {
    set t | t in Started(p.log) && Finish(t) !in p.log && Fail(t) !in p.log
  }

  function TasksOf(workers: seq<Worker>): (ts: set<nat>)
    ensures |ts| <= |workers|
    ensures forall t :: t in ts <==> Awaiting(t) in workers
  {
    if workers == [] then {}
    else
      var last := workers[|workers| - 1];
      assert workers == workers[..|workers| - 1] + [last];
      TasksOf(workers[..|workers| - 1]) + if last.Awaiting? then {last.task} else {}
  }

  /** Main result: never more than `max(1, floor(limit))` tasks are in flight. */
  lemma BoundedInFlight(tasks: nat, limit: Limit, n: nat, p: Pool)
    requires Reachable(tasks, limit, n, p)
    ensures |InFlight(p)| <= tasks
    ensures limit.Finite? ==> |InFlight(p)| <= if limit.x < 1.0 then 1 else limit.x.Floor
    ensures limit.MinusInfinity? ==> |InFlight(p)| <= 1
    ensures limit.NotANumber? ==> |InFlight(p)| <= 1
  {
    InvHolds(tasks, limit, n, p);
    forall t | t in InFlight(p)
      ensures t in TasksOf(p.workers)
    {
      assert TaskSound(p, t);
      var w :| 0 <= w < |p.workers| && p.workers[w] == Awaiting(t);
      assert Awaiting(t) in p.workers;
    }
    SubsetSize(InFlight(p), TasksOf(p.workers));
  }

  /** How many tasks a limit lets run side by side. */
  predicate AllowsAtOnce(tasks: nat, limit: Limit, k: nat) {
    && k <= tasks
    && match limit
       case NotANumber => tasks <= 1 || k == 0
       case MinusInfinity => k <= 1
       case PlusInfinity => true
       case Finite(x) => k <= 1 || k as real <= x
  }

  function Starts(k: nat): (log: seq<Log>)
    ensures forall l :: l in log ==> l.Start?
  {
    if k == 0 then [] else Starts(k - 1) + [Start(k - 1)]
  }

  /** Of `n` workers the first `k` have taken a task each. */
  function Hired(n: nat, k: nat): seq<Worker> {
    seq(n, w requires 0 <= w < n => if w < k then Awaiting(w) else AtTest)
  }

  function Filled(tasks: nat, limit: Limit, k: nat): Pool {
    Pool(k, Hired(Workers(tasks, limit), k), Starts(k), Unsettled)
  }

  lemma {:induction false} FilledIsReached(tasks: nat, limit: Limit, k: nat)
    requires k <= Workers(tasks, limit) && k <= tasks
    ensures Reachable(tasks, limit, k, Filled(tasks, limit, k))
  {
    if k == 0 {
      assert Filled(tasks, limit, 0) == Initial(tasks, limit);
    } else {
      FilledIsReached(tasks, limit, k - 1);
      var q, a := Filled(tasks, limit, k - 1), Test(k - 1);
      assert Hired(Workers(tasks, limit), k) == q.workers[k - 1 := Awaiting(k - 1)];
      assert Enabled(q, a) && Filled(tasks, limit, k) == Step(tasks, q, a);
    }
  }

  lemma {:induction false} AllStarted(k: nat)
    ensures Started(Starts(k)) == UpTo(k)
  {
    if k > 0 {
      AllStarted(k - 1);
    }
  }

  lemma WorkersAllow(tasks: nat, limit: Limit, k: nat)
    requires AllowsAtOnce(tasks, limit, k)
    ensures k <= Workers(tasks, limit)
  {
    if limit.Finite? && k > 1 {
      assert k <= limit.x.Floor;
    }
  }

  lemma CountedUpTo(k: nat)
    ensures forall t: nat :: t in UpTo(k) <==> t < k
  {
    forall t: nat | t < k
      ensures t in UpTo(k)
    {
      assert UpTo(k)[t] == t;
    }
  }

  /** Main result: as many tasks as the limit allows do run side by side in some interleaving. */
  lemma LimitIsUsed(tasks: nat, limit: Limit, k: nat) returns (p: Pool)
    requires AllowsAtOnce(tasks, limit, k)
    ensures Reachable(tasks, limit, k, p) && forall t: nat :: t in InFlight(p) <==> t < k
  {
    WorkersAllow(tasks, limit, k);
    p := Filled(tasks, limit, k);
    FilledIsReached(tasks, limit, k);
    AllStarted(k);
    CountedUpTo(k);
  }

  predicate AllFinished(tasks: nat, p: Pool) {
    forall t: nat :: t < tasks ==> Finish(t) in p.log
  }

  lemma ResolvedMeansFinished(tasks: nat, limit: Limit, n: nat, p: Pool)
    requires Reachable(tasks, limit, n, p) && p.outcome.Resolved? && Workers(tasks, limit) > 0
    ensures AllFinished(tasks, p)
  {
    InvHolds(tasks, limit, n, p);
    assert p.workers[0].Returned?;
    forall t: nat | t < tasks
      ensures Finish(t) in p.log
    {
      assert TaskSound(p, t);
    }
  }

  ghost predicate ResolvesOnlyWhenFinished(tasks: nat, limit: Limit) {
    forall n: nat, p :: Reachable(tasks, limit, n, p) && p.outcome.Resolved? ==> AllFinished(tasks, p)
  }

  /**
   * Main result: it resolves only after every task has finished, exactly unless
   * the limit is not a number and there are two tasks or more: then no worker
   * starts and it resolves at once.
   */
  lemma ResolvesAfterAllUnlessNaN(tasks: nat, limit: Limit)
    ensures ResolvesOnlyWhenFinished(tasks, limit) <==> !(limit.NotANumber? && tasks > 1)
  {
    if limit.NotANumber? && tasks > 1 {
      var start := Initial(tasks, limit);
      assert Reachable(tasks, limit, 0, start) && Enabled(start, AllReturned);
      var p := Step(tasks, start, AllReturned);
      assert Reachable(tasks, limit, 1, p) && p.outcome.Resolved? && Finish(0) !in p.log;
    } else {
      forall n: nat, p | Reachable(tasks, limit, n, p) && p.outcome.Resolved?
        ensures AllFinished(tasks, p)
      {
        ResolvedMeansFinished(tasks, limit, n, p);
      }
    }
  }

  function Weight(w: Worker): nat {
    match w case AtTest => 1 case Awaiting(_) => 2 case Returned => 0 case Threw => 0
  }

  function Weights(workers: seq<Worker>): nat {
    if workers == [] then 0 else Weights(workers[..|workers| - 1]) + Weight(workers[|workers| - 1])
  }

  lemma {:induction false} WeightsUpdate(workers: seq<Worker>, i: nat, w: Worker)
    requires i < |workers|
    ensures Weights(workers[i := w]) == Weights(workers) - Weight(workers[i]) + Weight(w)
  {
    var k := |workers| - 1;
    assert workers[i := w][..k] == if i < k then workers[..k][i := w] else workers[..k];
    if i < k {
      WeightsUpdate(workers[..k], i, w);
    }
  }

  lemma {:induction false} WeightsAtFirst(n: nat)
    ensures Weights(seq(n, _ => AtTest)) == n
  {
    if n > 0 {
      WeightsAtFirst(n - 1);
      assert seq(n, _ => AtTest)[..n - 1] == seq(n - 1, _ => AtTest);
    }
  }

  function Left(tasks: nat, p: Pool): int {
    2 * (tasks - p.next) + Weights(p.workers) + if p.outcome.Unsettled? then 1 else 0
  }

  lemma StepLessens(tasks: nat, p: Pool, a: Action)
    requires Enabled(p, a)
    ensures Left(tasks, Step(tasks, p, a)) < Left(tasks, p)
  {
    var q := Step(tasks, p, a);
    if !a.AllReturned? {
      WeightsUpdate(p.workers, a.w, q.workers[a.w]);
    }
  }

  lemma {:induction false} RunLessens(tasks: nat, limit: Limit, n: nat, p: Pool)
    requires Reachable(tasks, limit, n, p)
    ensures Left(tasks, p) + n <= 2 * tasks + Workers(tasks, limit) + 1
    decreases n
  {
    if n == 0 {
      WeightsAtFirst(Workers(tasks, limit));
    } else {
      var q, a :| Reachable(tasks, limit, n - 1, q) && Enabled(q, a) && p == Step(tasks, q, a);
      RunLessens(tasks, limit, n - 1, q);
      StepLessens(tasks, q, a);
    }
  }

  /**
   * Main result: every run is finite, and where nothing can happen any more it has
   * settled, every started task is settled, and a task was left unstarted only
   * because every single worker met a rejection.
   */
  lemma RunsSettle(tasks: nat, limit: Limit, n: nat, p: Pool)
    requires Reachable(tasks, limit, n, p)
    ensures n <= 2 * tasks + Workers(tasks, limit) + 1
    ensures (forall a :: !Enabled(p, a)) ==>
              && (p.outcome.Rejected? <==> AnyFail(p.log)) && !p.outcome.Unsettled?
              && InFlight(p) == {}
              && (p.next < tasks ==> forall w :: 0 <= w < |p.workers| ==> p.workers[w].Threw?)
  {
    RunLessens(tasks, limit, n, p);
    InvHolds(tasks, limit, n, p);
    if forall a :: !Enabled(p, a) {
      forall w | 0 <= w < |p.workers|
        ensures p.workers[w].Threw? || p.workers[w].Returned?
      {
        assert !Enabled(p, Test(w)) && !Enabled(p, TaskResolves(w));
      }
      assert !Enabled(p, AllReturned);
      forall t: nat
        ensures t !in InFlight(p)
      {
        assert TaskSound(p, t);
      }
    }
  }

  // ------------------------------------------------------------- one at a time

  /** Each task finished before the next one starts. */
  function OneByOne(n: nat): seq<Log> {
    if n == 0 then [] else OneByOne(n - 1) + [Start(n - 1), Finish(n - 1)]
  }

  ghost predicate Sequential(tasks: nat, p: Pool) {
    |p.workers| == 1 && p.next <= tasks &&
    match p.workers[0]
    case AtTest => p.log == OneByOne(p.next)
    case Awaiting(t) => t + 1 == p.next && p.log == OneByOne(t) + [Start(t)]
    case Returned => p.log == OneByOne(tasks)
    case Threw => p.next > 0 && p.log == OneByOne(p.next - 1) + [Start(p.next - 1), Fail(p.next - 1)]
  }

  lemma SequentialStep(tasks: nat, p: Pool, a: Action)
    requires Sequential(tasks, p) && Enabled(p, a)
    ensures Sequential(tasks, Step(tasks, p, a))
  {
    if a.TaskResolves? {
      var t := p.workers[0].task;
      assert OneByOne(t) + [Start(t)] + [Finish(t)] == OneByOne(t + 1);
    } else if a.TaskRejects? {
      var t := p.workers[0].task;
      assert OneByOne(t) + [Start(t)] + [Fail(t)] == OneByOne(t) + [Start(t), Fail(t)];
    }
  }

  /** Main result: with a limit below two the run is the plain loop, stopping at the first rejection. */
  lemma {:induction false} LimitOneIsSequential(tasks: nat, limit: Limit, n: nat, p: Pool)
    requires Reachable(tasks, limit, n, p)
    requires tasks <= 1 || limit.MinusInfinity? || (limit.Finite? && limit.x < 2.0)
    ensures Sequential(tasks, p)
    decreases n
  {
    if n > 0 {
      var q, a :| Reachable(tasks, limit, n - 1, q) && Enabled(q, a) && p == Step(tasks, q, a);
      LimitOneIsSequential(tasks, limit, n - 1, q);
      SequentialStep(tasks, q, a);
    }
  }
}
