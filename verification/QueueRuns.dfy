/** Whole runs of the job queue with any number of workers, any of which may die between claim and mark. */
module QueueRuns {
  import opened Wrappers
  import opened Ints
  import opened JobQueue

  datatype Timed = Timed(now: int, step: Step)

  /** Every step happens when it can, on a clock that never goes back. */
  ghost predicate Legal(q: Queue, clock: int, trace: seq<Timed>)
    decreases trace
  {
    trace != [] ==>
      var t := trace[0];
      && clock <= t.now
      && Enabled(q, t.now, t.step)
      && Legal(Apply(q, t.now, t.step), t.now, trace[1..])
  }

  function Run(q: Queue, trace: seq<Timed>): Queue
    decreases trace
  {
    if trace == [] then q else Run(Apply(q, trace[0].now, trace[0].step), trace[1..])
  }

  function Count(trace: seq<Timed>, counts: Step -> bool): nat {
    if trace == [] then 0
    else
      var rest := Count(trace[1..], counts);
      if counts(trace[0].step) then 1 + rest else rest
  }

  predicate IsClaim(step: Step) { step.ClaimNext? }

  predicate IsMark(step: Step) { step.MarkSucceeded? || step.MarkFailed? }

  predicate IsEnqueue(step: Step) { step.Enqueue? }

  // ----- no job in two hands, no budget overrun -----

  /** Ending a transaction, by commit or by crash, on a row that is no longer running. */
  lemma EndKeepsValid(q: Queue, w: Worker, row: Job)
    requires Valid(q) && w in q.claims
    requires WithinBudget(row) && row.status != Running
    ensures Valid(Queue(q.rows[q.claims[w].job := row], q.claims - {w}))
  {
    var q' := Queue(q.rows[q.claims[w].job := row], q.claims - {w});
    forall j: JobId | j < |q'.rows| && q'.rows[j].status == Running ensures Locked(q', j) {
      var v :| v in q.claims && q.claims[v].job == j;
      assert v in q'.claims;
    }
  }

  lemma ClaimKeepsValid(q: Queue, w: Worker, j: JobId)
    requires Valid(q) && w !in q.claims && j < |q.rows| && q.rows[j].status == Queued && !Locked(q, j)
    ensures Valid(Queue(q.rows[j := Claimed(q.rows[j])], q.claims[w := Claim(j, q.rows[j])]))
  {
    var q' := Queue(q.rows[j := Claimed(q.rows[j])], q.claims[w := Claim(j, q.rows[j])]);
    forall i: JobId | i < |q'.rows| && q'.rows[i].status == Running ensures Locked(q', i) {
      if i == j {
        assert q'.claims[w].job == i;
      } else {
        var v :| v in q.claims && q.claims[v].job == i;
        assert v in q'.claims && q'.claims[v].job == i;
      }
    }
  }

  lemma StepKeepsValid(q: Queue, now: int, step: Step)
    requires Valid(q) && Enabled(q, now, step)
    ensures Valid(Apply(q, now, step))
  {
    match step
    case Enqueue =>
      forall j: JobId | j < |q.rows| && q.rows[j].status == Running ensures Locked(Apply(q, now, step), j) {
        var v :| v in q.claims && q.claims[v].job == j;
      }
    case ClaimNext(w, j) => ClaimKeepsValid(q, w, j);
    case MarkSucceeded(w) => EndKeepsValid(q, w, q.rows[q.claims[w].job].(status := Succeeded, lastError := None));
    case MarkFailed(w, error) => EndKeepsValid(q, w, Failing(q.rows[q.claims[w].job], error, now));
    case Crash(w) => EndKeepsValid(q, w, q.claims[w].before);
  }

  /** In every reachable state no job is held by two workers and every row is within its attempt budget. */
  lemma {:induction false} RunKeepsValid(q: Queue, clock: int, trace: seq<Timed>)
    requires Valid(q) && Legal(q, clock, trace)
    ensures Valid(Run(q, trace))
    decreases trace
  {
    if trace != [] {
      StepKeepsValid(q, trace[0].now, trace[0].step);
      RunKeepsValid(Apply(q, trace[0].now, trace[0].step), trace[0].now, trace[1..]);
    }
  }

  // ----- a crash leaves no trace -----

  /** The worker a step belongs to, if any. */
  predicate By(step: Step, w: Worker) {
    !step.Enqueue? && step.worker == w
  }

  /** `q` with worker `w` in the middle of a transaction on job `j`. */
  function Holding(q: Queue, w: Worker, j: JobId): Queue
    requires j < |q.rows|
  {
    Queue(q.rows[j := Claimed(q.rows[j])], q.claims[w := Claim(j, q.rows[j])])
  }

  lemma OthersWorkAround(q: Queue, w: Worker, j: JobId, now: int, step: Step)
    requires w !in q.claims && j < |q.rows| && Valid(Holding(q, w, j))
    requires Enabled(Holding(q, w, j), now, step) && !By(step, w)
    ensures var q' := Apply(q, now, step);
      && w !in q'.claims && j < |q'.rows|
      && Apply(Holding(q, w, j), now, step) == Holding(q', w, j)
  {
    var held := Holding(q, w, j);
    assert held.claims[w].job == j;
    if !step.Enqueue? && !step.ClaimNext? {
      assert held.claims[step.worker] == q.claims[step.worker] && q.claims[step.worker].job != j;
      assert (held.claims - {step.worker}) == (q.claims - {step.worker})[w := Claim(j, q.rows[j])];
    }
    if step.ClaimNext? {
      assert step.job != j by { assert Locked(held, j); }
      assert held.claims[step.worker := Claim(step.job, q.rows[step.job])]
        == q.claims[step.worker := Claim(step.job, q.rows[step.job])][w := Claim(j, q.rows[j])];
    }
  }

  /**
   * Whatever the other workers do between a claim and the crash that ends it, the queue is then exactly
   * what it would be had the claim never happened.
   */
  lemma {:induction false} CrashErasesTheClaim(q: Queue, w: Worker, j: JobId, clock: int, trace: seq<Timed>, now: int)
    requires w !in q.claims && j < |q.rows| && Valid(Holding(q, w, j))
    requires Legal(Holding(q, w, j), clock, trace)
    requires forall t :: t in trace ==> !By(t.step, w)
    ensures Apply(Run(Holding(q, w, j), trace), now, Crash(w)) == Run(q, trace)
    decreases trace
  {
    if trace == [] {
      assert q.claims[w := Claim(j, q.rows[j])] - {w} == q.claims;
    } else {
      var t := trace[0];
      assert !By(t.step, w);
      OthersWorkAround(q, w, j, t.now, t.step);
      StepKeepsValid(Holding(q, w, j), t.now, t.step);
      CrashErasesTheClaim(Apply(q, t.now, t.step), w, j, t.now, trace[1..], now);
    }
  }

  // ----- bounded work -----

  function Sum(rows: seq<Job>, f: Job -> int): int {
    if rows == [] then 0 else Sum(rows[..|rows| - 1], f) + f(rows[|rows| - 1])
  }

  lemma {:induction false} SumUpdate(rows: seq<Job>, f: Job -> int, j: nat, row: Job)
    requires j < |rows|
    ensures Sum(rows[j := row], f) == Sum(rows, f) - f(rows[j]) + f(row)
  {
    var front := rows[..|rows| - 1];
    if j == |rows| - 1 {
      assert rows[j := row][..|rows| - 1] == front;
    } else {
      SumUpdate(front, f, j, row);
      assert rows[j := row][..|rows| - 1] == front[j := row];
    }
  }

  lemma {:induction false} SumAtLeast(rows: seq<Job>, f: Job -> int, j: nat)
    requires j < |rows| && forall i :: 0 <= i < |rows| ==> f(rows[i]) >= 0
    ensures Sum(rows, f) >= f(rows[j])
  {
    if j == |rows| - 1 {
      if |rows| > 1 {
        SumAtLeast(rows[..j], f, j - 1);
      }
    } else {
      SumAtLeast(rows[..|rows| - 1], f, j);
    }
  }

  /** Attempts a row may still use up; a claim in progress has not used its own yet. */
  function Remaining(job: Job): int {
    match job.status
    case Queued => MAX_ATTEMPTS - job.attempts
    case Running => MAX_ATTEMPTS - job.attempts + 1
    case Succeeded => 0
    case Failed => 0
  }

  function Budget(q: Queue): int { Sum(q.rows, Remaining) }

  lemma StepSpendsBudget(q: Queue, now: int, step: Step)
    requires Valid(q) && Enabled(q, now, step)
    ensures IsMark(step) ==> Budget(Apply(q, now, step)) < Budget(q)
    ensures step.ClaimNext? || step.Crash? ==> Budget(Apply(q, now, step)) == Budget(q)
    ensures step.Enqueue? ==> Budget(Apply(q, now, step)) == Budget(q) + MAX_ATTEMPTS
  {
    var q' := Apply(q, now, step);
    match step
    case Enqueue => assert q'.rows[..|q'.rows| - 1] == q.rows;
    case ClaimNext(w, j) => SumUpdate(q.rows, Remaining, j, q'.rows[j]);
    case MarkSucceeded(w) => SumUpdate(q.rows, Remaining, q.claims[w].job, q'.rows[q.claims[w].job]);
    case MarkFailed(w, error) => SumUpdate(q.rows, Remaining, q.claims[w].job, q'.rows[q.claims[w].job]);
    case Crash(w) => SumUpdate(q.rows, Remaining, q.claims[w].job, q'.rows[q.claims[w].job]);
  }

  /** Over any run, committed claims number at most the budget there was plus five per job added. */
  lemma {:induction false} CommittedClaimsAreBounded(q: Queue, clock: int, trace: seq<Timed>)
    requires Valid(q) && Legal(q, clock, trace)
    ensures Budget(Run(q, trace)) + Count(trace, IsMark) <= Budget(q) + MAX_ATTEMPTS * Count(trace, IsEnqueue)
    decreases trace
  {
    if trace != [] {
      StepKeepsValid(q, trace[0].now, trace[0].step);
      StepSpendsBudget(q, trace[0].now, trace[0].step);
      CommittedClaimsAreBounded(Apply(q, trace[0].now, trace[0].step), trace[0].now, trace[1..]);
    }
  }

  predicate Settled(job: Job) { job.status == Succeeded || job.status == Failed }

  /** A queue has no budget left exactly when every job has succeeded or failed for good. */
  lemma {:induction false} DrainedIff(rows: seq<Job>)
    requires forall j :: 0 <= j < |rows| ==> WithinBudget(rows[j])
    ensures Sum(rows, Remaining) >= 0
    ensures Sum(rows, Remaining) == 0 <==> forall j :: 0 <= j < |rows| ==> Settled(rows[j])
  {
    if rows != [] {
      DrainedIff(rows[..|rows| - 1]);
    }
  }

  /** Until then the queue is never stuck: some worker is at work, or a free one can claim once time allows. */
  lemma NeverStuck(q: Queue, w: Worker, now: int)
    requires Valid(q) && !(forall j :: 0 <= j < |q.rows| ==> Settled(q.rows[j]))
    requires q.claims == map[]
    requires forall j :: 0 <= j < |q.rows| ==> q.rows[j].runAfter <= now
    ensures exists j: JobId :: Enabled(q, now, ClaimNext(w, j))
  {
    var j: JobId :| j < |q.rows| && !Settled(q.rows[j]);
    assert Runnable(q, now, j);
    var runnable := set i: JobId | i < |q.rows| && Runnable(q, now, i);
    assert j in runnable;
    var first := OldestExists(q, now, runnable);
    forall i: JobId | Runnable(q, now, i) ensures q.rows[first].runAfter <= q.rows[i].runAfter {
      assert i in runnable;
    }
    assert Enabled(q, now, ClaimNext(w, first));
  }

  // ----- nobody waits for ever -----

  /** A queued row due no later than `r`. */
  predicate Due(job: Job, r: int) { job.status == Queued && job.runAfter <= r }

  function DueFlag(r: int): Job -> int { job => if Due(job, r) then 1 else 0 }

  /** How many rows are due no later than `r`. */
  function Ahead(q: Queue, r: int): int { Sum(q.rows, DueFlag(r)) }

  lemma StepShrinksAhead(q: Queue, now: int, step: Step, x: JobId, r: int)
    requires Valid(q) && Enabled(q, now, step) && !step.Crash? && r < now
    requires x < |q.rows| && Due(q.rows[x], r)
    ensures forall j :: 0 <= j < |Apply(q, now, step).rows| && Due(Apply(q, now, step).rows[j], r) ==>
      j < |q.rows| && Apply(q, now, step).rows[j] == q.rows[j]
    ensures step.ClaimNext? ==> Ahead(Apply(q, now, step), r) == Ahead(q, r) - 1
    ensures !step.ClaimNext? ==> Ahead(Apply(q, now, step), r) == Ahead(q, r)
    ensures !(step.ClaimNext? && step.job == x) ==> Apply(q, now, step).rows[x] == q.rows[x]
  {
    var q' := Apply(q, now, step);
    match step
    case Enqueue => assert q'.rows[..|q'.rows| - 1] == q.rows;
    case ClaimNext(w, j) =>
      SumUpdate(q.rows, DueFlag(r), j, q'.rows[j]);
      assert Runnable(q, now, x) by {
        assert forall v :: v in q.claims ==> q.rows[q.claims[v].job].status == Running;
      }
    case MarkSucceeded(w) => SumUpdate(q.rows, DueFlag(r), q.claims[w].job, q'.rows[q.claims[w].job]);
    case MarkFailed(w, error) =>
      SumUpdate(q.rows, DueFlag(r), q.claims[w].job, q'.rows[q.claims[w].job]);
      BackoffIsTheCappedExponential(q.rows[q.claims[w].job].attempts);
  }

  /**
   * No starvation. In a crash-free run that begins once the clock is past job `x`'s time `r`, the jobs due by
   * `r` only ever get fewer, and fewer claims go to others than there were jobs due.
   */
  lemma {:induction false} NobodyStarves(q: Queue, clock: int, trace: seq<Timed>, x: JobId, r: int)
    requires Valid(q) && Legal(q, clock, trace) && r < clock
    requires x < |q.rows| && Due(q.rows[x], r)
    requires forall t :: t in trace ==> !t.step.Crash? && !(t.step.ClaimNext? && t.step.job == x)
    ensures var end := Run(q, trace);
      && x < |end.rows| && end.rows[x] == q.rows[x]
      && Count(trace, IsClaim) == Ahead(q, r) - Ahead(end, r) < Ahead(q, r)
      && forall j :: 0 <= j < |end.rows| && Due(end.rows[j], r) ==> j < |q.rows| && end.rows[j] == q.rows[j]
    decreases trace
  {
    if trace == [] {
      SumAtLeast(q.rows, DueFlag(r), x);
    } else {
      var t := trace[0];
      assert t in trace;
      StepKeepsValid(q, t.now, t.step);
      StepShrinksAhead(q, t.now, t.step, x, r);
      NobodyStarves(Apply(q, t.now, t.step), t.now, trace[1..], x, r);
    }
  }

  // ----- bounded waiting between attempts -----

  /**
   * A failed attempt with budget left requeues the job, and nobody can claim it before its backoff has passed;
   * from then on, until somebody has, anybody free can.
   */
  lemma FailedJobWaits(q: Queue, now: int, w: Worker, error: string, t: int)
    requires Valid(q) && w in q.claims && q.rows[q.claims[w].job].attempts < 5
    ensures var j, q' := q.claims[w].job, Apply(q, now, MarkFailed(w, error));
      var due := now + Min(30 * Pow2(Max(0, q.rows[j].attempts - 1)), 1800);
      && q'.rows[j] == Job(Queued, q.rows[j].attempts, due, Some(error[..Min(|error|, 120)]))
      && (Runnable(q', t, j) <==> due <= t)
  {
    BackoffIsTheCappedExponential(q.rows[q.claims[w].job].attempts);
    StepKeepsValid(q, now, MarkFailed(w, error));
    assert error[..|error|] == error;
  }

  /** After its last attempt a job fails for good; after a success it is settled and its error cleared. */
  lemma SettledJobsStaySettled(q: Queue, now: int, w: Worker, error: string, t: int)
    requires Valid(q) && w in q.claims
    ensures var j := q.claims[w].job;
      && Apply(q, now, MarkSucceeded(w)).rows[j] == Job(Succeeded, q.rows[j].attempts, q.rows[j].runAfter, None)
      && !Runnable(Apply(q, now, MarkSucceeded(w)), t, j)
      && (q.rows[j].attempts >= 5 ==>
        && Apply(q, now, MarkFailed(w, error)).rows[j]
          == Job(JobStatus.Failed, q.rows[j].attempts, q.rows[j].runAfter, Some(error[..Min(|error|, 120)]))
        && !Runnable(Apply(q, now, MarkFailed(w, error)), t, j))
  {
    assert error[..|error|] == error;
  }

  /** A new job is runnable at once. */
  lemma EnqueuedIsRunnable(q: Queue, now: int, t: int)
    requires Valid(q)
    ensures var q' := Apply(q, now, Enqueue);
      |q'.rows| == |q.rows| + 1 && q'.rows[..|q.rows|] == q.rows && (Runnable(q', t, |q.rows|) <==> now <= t)
  {
  }

  /** Not to be claimed before `r`, or `r` has passed. */
  ghost predicate Waits(q: Queue, clock: int, j: JobId, r: int) {
    && j < |q.rows|
    && (clock < r ==> q.rows[j].status == Queued && q.rows[j].runAfter >= r)
  }

  lemma StepKeepsWaiting(q: Queue, now: int, step: Step, j: JobId, r: int)
    requires Valid(q) && Enabled(q, now, step) && Waits(q, now, j, r)
    ensures Waits(Apply(q, now, step), now, j, r)
    ensures step.ClaimNext? && step.job == j ==> r <= now
  {
  }

  /** In no run does a claim of the job come before then, crashes and other workers included. */
  lemma {:induction false} NoClaimComesEarlier(q: Queue, clock: int, trace: seq<Timed>, j: JobId, r: int, i: nat)
    requires Valid(q) && Legal(q, clock, trace) && Waits(q, clock, j, r)
    requires i < |trace| && trace[i].step.ClaimNext? && trace[i].step.job == j
    ensures r <= trace[i].now
    decreases trace
  {
    var t := trace[0];
    StepKeepsWaiting(q, t.now, t.step, j, r);
    StepKeepsValid(q, t.now, t.step);
    if i > 0 {
      NoClaimComesEarlier(Apply(q, t.now, t.step), t.now, trace[1..], j, r, i - 1);
    }
  }

  /** So every later claim of a job that failed comes after its backoff. */
  lemma RetriesWaitOutTheBackoff(q: Queue, now: int, w: Worker, error: string, trace: seq<Timed>, i: nat)
    requires Valid(q) && w in q.claims && q.rows[q.claims[w].job].attempts < 5
    requires Legal(Apply(q, now, MarkFailed(w, error)), now, trace)
    requires i < |trace| && trace[i].step.ClaimNext? && trace[i].step.job == q.claims[w].job
    ensures now + Min(30 * Pow2(Max(0, q.rows[q.claims[w].job].attempts - 1)), 1800) <= trace[i].now
  {
    FailedJobWaits(q, now, w, error, now);
    StepKeepsValid(q, now, MarkFailed(w, error));
    NoClaimComesEarlier(
      Apply(q, now, MarkFailed(w, error)), now, trace, q.claims[w].job,
      now + Min(30 * Pow2(Max(0, q.rows[q.claims[w].job].attempts - 1)), 1800), i);
  }

  /** The waiting job `j` is put off for over a run: each time it is requeued, from then to its new `run_after`. */
  function Backoffs(q: Queue, trace: seq<Timed>, j: JobId): int
    decreases trace
  {
    if trace == [] then 0
    else
      var t := trace[0];
      var now := if
          && t.step.MarkFailed? && t.step.worker in q.claims && q.claims[t.step.worker].job == j < |q.rows|
          && q.rows[j].attempts < MAX_ATTEMPTS
        then Apply(q, t.now, t.step).rows[j].runAfter - t.now else 0;
      now + Backoffs(Apply(q, t.now, t.step), trace[1..], j)
  }

  /** What backoff a row's remaining attempts can still add up to. */
  function BackoffLeft(job: Job): int
    requires WithinBudget(job)
  {
    match job.status
    case Queued => TotalBackoff(4) - TotalBackoff(job.attempts)
    case Running => TotalBackoff(4) - TotalBackoff(job.attempts - 1)
    case Succeeded => 0
    case Failed => 0
  }

  lemma TotalBackoffIs450()
    ensures TotalBackoff(4) == 450
  {
    assert Pow2(3) == 8;
  }

  lemma BackoffIsPositive(n: nat)
    ensures BackoffFor(n) > 0
  {
    BackoffIsTheCappedExponential(n);
  }

  lemma {:induction false} TotalBackoffGrows(m: nat, n: nat)
    requires m <= n
    ensures TotalBackoff(m) <= TotalBackoff(n)
  {
    if m < n {
      TotalBackoffGrows(m, n - 1);
      BackoffIsPositive(n);
    }
  }

  /** Over any run a job waits out at most 450 seconds of backoff in all, and less once it has failed before. */
  lemma {:induction false} BackoffOverABudget(q: Queue, clock: int, trace: seq<Timed>, j: JobId)
    requires Valid(q) && Legal(q, clock, trace)
    ensures 0 <= Backoffs(q, trace, j) <= if j < |q.rows| then BackoffLeft(q.rows[j]) else TotalBackoff(4)
    ensures Backoffs(q, trace, j) <= 450
    decreases trace
  {
    TotalBackoffIs450();
    if j < |q.rows| {
      var n := if q.rows[j].status == Running then q.rows[j].attempts - 1 else q.rows[j].attempts;
      if !Settled(q.rows[j]) {
        TotalBackoffGrows(n, 4);
      }
    }
    if trace != [] {
      var t := trace[0];
      StepKeepsValid(q, t.now, t.step);
      BackoffOverABudget(Apply(q, t.now, t.step), t.now, trace[1..], j);
      if j < |q.rows| {
        BackoffStep(q, t.now, t.step, j);
      }
    }
  }

  lemma BackoffStep(q: Queue, now: int, step: Step, j: JobId)
    requires Valid(q) && Enabled(q, now, step) && j < |q.rows|
    ensures Valid(Apply(q, now, step))
    ensures var given := if step.MarkFailed? && q.claims[step.worker].job == j && q.rows[j].attempts < MAX_ATTEMPTS
        then Apply(q, now, step).rows[j].runAfter - now else 0;
      given + BackoffLeft(Apply(q, now, step).rows[j]) <= BackoffLeft(q.rows[j])
  {
    StepKeepsValid(q, now, step);
  }

}
