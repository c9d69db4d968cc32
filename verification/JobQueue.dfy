/**
 * The job queue held in PostgreSQL: rows mutated in place, a row lock per claim, and an undo record that
 * stands for the claiming worker's open transaction.
 */
module JobQueue {
  import opened Ints
  import opened Wrappers

  type JobId = nat
  type Worker = nat

  const BACKOFF_BASE := 30
  const BACKOFF_CAP := 30 * 60
  const MAX_BACKOFF_DOUBLINGS := 16
  const MAX_ATTEMPTS := 5

  datatype JobStatus = Queued | Running | Succeeded | Failed

  /** Times are seconds. */
  datatype Job = Job(status: JobStatus, attempts: int, runAfter: int, lastError: Option<string>)

  function Pow2(n: nat): nat { if n == 0 then 1 else 2 * Pow2(n - 1) }

  /** The delay, with the exponent clamped before the shift as the source does. */
  function BackoffFor(attempts: int): int {
    var doublings := Min(Max(0, attempts - 1), MAX_BACKOFF_DOUBLINGS);
    var delay := BACKOFF_BASE * Pow2(doublings);
    if delay < BACKOFF_CAP then delay else BACKOFF_CAP
  }

  lemma {:induction false} Pow2Grows(m: nat, n: nat)
    requires m <= n
    ensures 1 <= Pow2(m) <= Pow2(n)
  {
    if m < n {
      Pow2Grows(m, n - 1);
    } else if m > 0 {
      Pow2Grows(m - 1, n - 1);
    }
  }

  /** Clamping the exponent changes nothing: for every integer this is the capped exponential itself. */
  lemma BackoffIsTheCappedExponential(attempts: int)
    ensures BackoffFor(attempts) == Min(BACKOFF_BASE * Pow2(Max(0, attempts - 1)), BACKOFF_CAP)
    ensures BACKOFF_BASE <= BackoffFor(attempts) <= BACKOFF_CAP
  {
    Pow2Grows(0, Min(Max(0, attempts - 1), MAX_BACKOFF_DOUBLINGS));
    if Max(0, attempts - 1) > MAX_BACKOFF_DOUBLINGS {
      Pow2Grows(6, MAX_BACKOFF_DOUBLINGS);
      Pow2Grows(6, attempts - 1);
      assert Pow2(6) == 64 by { assert Pow2(3) == 8; }
    }
  }

  lemma BackoffIsMonotone(a: int, b: int)
    requires a <= b
    ensures BackoffFor(a) <= BackoffFor(b)
  {
    Pow2Grows(Min(Max(0, a - 1), MAX_BACKOFF_DOUBLINGS), Min(Max(0, b - 1), MAX_BACKOFF_DOUBLINGS));
  }

  /** All the backoff a job is given by its first `n` failures. */
  function TotalBackoff(n: nat): nat {
    if n == 0 then 0
    else
      BackoffIsTheCappedExponential(n);
      TotalBackoff(n - 1) + BackoffFor(n)
  }

  /** A worker's open transaction: the job it holds and that row as it was before the claim. */
  datatype Claim = Claim(job: JobId, before: Job)

  /** Job ids are positions; rows are only ever added. */
  datatype Queue = Queue(rows: seq<Job>, claims: map<Worker, Claim>)

  predicate Locked(q: Queue, j: JobId) {
    exists w :: w in q.claims && q.claims[w].job == j
  }

  /** `status = queued AND run_after <= now`, and not locked by another worker. */
  predicate Runnable(q: Queue, now: int, j: JobId) {
    j < |q.rows| && q.rows[j].status == Queued && q.rows[j].runAfter <= now && !Locked(q, j)
  }

  /** `ORDER BY run_after LIMIT 1`; ties are the database's to break. */
  ghost predicate Oldest(q: Queue, now: int, j: JobId) {
    Runnable(q, now, j) && forall i: JobId :: Runnable(q, now, i) ==> q.rows[j].runAfter <= q.rows[i].runAfter
  }

  function Claimed(job: Job): Job {
    job.(status := Running, attempts := job.attempts + 1)
  }

  function Failing(job: Job, error: string, now: int): Job {
    var noted := job.(lastError := Some(if |error| <= 120 then error else error[..120]));
    if job.attempts >= MAX_ATTEMPTS then noted.(status := Failed)
    else noted.(status := Queued, runAfter := now + BackoffFor(job.attempts))
  }

  datatype Step =
    | Enqueue
    | ClaimNext(worker: Worker, job: JobId)
    | MarkSucceeded(worker: Worker)
    | MarkFailed(worker: Worker, error: string)
    | Crash(worker: Worker)

  /** When a step can happen at all. One worker runs one transaction at a time. */
  ghost predicate Enabled(q: Queue, now: int, step: Step) {
    match step
    case Enqueue => true
    case ClaimNext(w, j) => w !in q.claims && Oldest(q, now, j)
    case MarkSucceeded(w) => w in q.claims
    case MarkFailed(w, error) => w in q.claims
    case Crash(w) => w in q.claims
  }

  /** The queue after a step; a crash rolls the claimed row back to what the claim found. */
  function Apply(q: Queue, now: int, step: Step): Queue {
    match step
    case Enqueue => q.(rows := q.rows + [Job(Queued, 0, now, None)])
    case ClaimNext(w, j) =>
      if j >= |q.rows| then q
      else Queue(q.rows[j := Claimed(q.rows[j])], q.claims[w := Claim(j, q.rows[j])])
    case MarkSucceeded(w) =>
      if w !in q.claims || q.claims[w].job >= |q.rows| then q
      else
        var j := q.claims[w].job;
        Queue(q.rows[j := q.rows[j].(status := Succeeded, lastError := None)], q.claims - {w})
    case MarkFailed(w, error) =>
      if w !in q.claims || q.claims[w].job >= |q.rows| then q
      else
        var j := q.claims[w].job;
        Queue(q.rows[j := Failing(q.rows[j], error, now)], q.claims - {w})
    case Crash(w) =>
      if w !in q.claims || q.claims[w].job >= |q.rows| then q
      else Queue(q.rows[q.claims[w].job := q.claims[w].before], q.claims - {w})
  }

  /** What `MAX_ATTEMPTS` promises of one row. */
  predicate WithinBudget(job: Job) {
    match job.status
    case Queued => 0 <= job.attempts < MAX_ATTEMPTS
    case Running => 1 <= job.attempts <= MAX_ATTEMPTS
    case Succeeded => 1 <= job.attempts <= MAX_ATTEMPTS
    case Failed => job.attempts == MAX_ATTEMPTS
  }

  /**
   * Budgets hold, no job is held twice, running rows are exactly the held ones, and each undo record is the
   * queued row its claim found.
   */
  ghost predicate Valid(q: Queue) {
    && (forall j :: 0 <= j < |q.rows| ==> WithinBudget(q.rows[j]))
    && (forall w, v :: w in q.claims && v in q.claims && w != v ==> q.claims[w].job != q.claims[v].job)
    && (forall w :: w in q.claims ==>
      var claim := q.claims[w];
      && claim.job < |q.rows|
      && claim.before.status == Queued && WithinBudget(claim.before)
      && q.rows[claim.job] == Claimed(claim.before))
    && forall j: JobId :: j < |q.rows| && q.rows[j].status == Running ==> Locked(q, j)
  }

  lemma OldestExists(q: Queue, now: int, among: set<JobId>) returns (j: JobId)
    requires among != {} && forall i :: i in among ==> i < |q.rows|
    ensures j in among && forall i :: i in among ==> q.rows[j].runAfter <= q.rows[i].runAfter
    decreases among
  {
    var first :| first in among;
    assert forall i :: i in among ==> i == first || i in among - {first};
    if among - {first} == {} {
      j := first;
    } else {
      var k := OldestExists(q, now, among - {first});
      j := if q.rows[k].runAfter < q.rows[first].runAfter then k else first;
    }
  }

  class JobService {
    var rows: seq<Job>
    var claims: map<Worker, Claim>

    constructor ()
      ensures State() == Queue([], map[])
    {
      rows, claims := [], map[];
    }

    function State(): Queue
      reads this
    {
      Queue(rows, claims)
    }

    /** `enqueue`: added in the caller's transaction. */
    method Enqueue(now: int) returns (job: JobId)
      modifies this`rows
      ensures State() == Apply(old(State()), now, Step.Enqueue)
      ensures job == |old(rows)|
    {
      job := |rows|;
      rows := rows + [Job(Queued, 0, now, None)];
    }

    /** `claim_next`: `FOR UPDATE SKIP LOCKED` on the oldest runnable row. */
    method ClaimNext(worker: Worker, now: int) returns (job: Option<JobId>)
      requires worker !in claims
      modifies this
      ensures job.None? ==> State() == old(State()) && forall j: JobId :: !Runnable(State(), now, j)
      ensures job.Some? ==>
        && Enabled(old(State()), now, Step.ClaimNext(worker, job.value))
        && State() == Apply(old(State()), now, Step.ClaimNext(worker, job.value))
    {
      var q := State();
      var runnable := set j: JobId | j < |rows| && Runnable(q, now, j);
      if runnable == {} {
        forall j: JobId ensures !Runnable(q, now, j) {
          assert Runnable(q, now, j) ==> j in runnable;
        }
        return None;
      }
      ghost var first := OldestExists(q, now, runnable);
      var j :| j in runnable && forall i :: i in runnable ==> rows[j].runAfter <= rows[i].runAfter;
      forall i: JobId | Runnable(q, now, i) ensures rows[j].runAfter <= rows[i].runAfter {
        assert i in runnable;
      }
      claims := claims[worker := Claim(j, rows[j])];
      rows := rows[j := rows[j].(status := Running, attempts := rows[j].attempts + 1)];
      return Some(j);
    }

    /** `mark_succeeded`, and the commit that releases the row. */
    method MarkSucceeded(worker: Worker)
      requires worker in claims && claims[worker].job < |rows|
      modifies this
      ensures State() == Apply(old(State()), 0, Step.MarkSucceeded(worker))
    {
      var j := claims[worker].job;
      rows := rows[j := rows[j].(status := Succeeded)];
      rows := rows[j := rows[j].(lastError := None)];
      claims := claims - {worker};
    }

    /** `mark_failed`, and the commit that releases the row. */
    method MarkFailed(worker: Worker, error: string, now: int)
      requires worker in claims && claims[worker].job < |rows|
      modifies this
      ensures State() == Apply(old(State()), now, Step.MarkFailed(worker, error))
    {
      var j := claims[worker].job;
      rows := rows[j := rows[j].(lastError := Some(if |error| <= 120 then error else error[..120]))];
      if rows[j].attempts >= MAX_ATTEMPTS {
        rows := rows[j := rows[j].(status := Failed)];
      } else {
        rows := rows[j := rows[j].(status := Queued)];
        rows := rows[j := rows[j].(runAfter := now + BackoffFor(rows[j].attempts))];
      }
      claims := claims - {worker};
    }
  }

}
