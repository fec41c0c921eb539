/** The durable job queue: what each statement does to the `jobs` table. */
module Jobs {
  import opened Wrappers

  datatype Status = Pending | InProgress | Completed | Dead

  /** A job's kind and the fields of its payload, which together name the work. */
  datatype JobKey = JobKey(kind: string, payload: seq<string>)

  /** Instants and delays are milliseconds. */
  datatype Job = Job(
    key: JobKey, status: Status, attempts: nat, maxAttempts: nat, nextRun: int,
    lockedBy: Option<string>, lockedAt: Option<int>)

  type Table = map<nat, Job>

  const DEFAULT_MAX_ATTEMPTS := 8
  const BATCH_SIZE := 8
  const STUCK_LOCK_MS := 45 * 60 * 1000

  /** What a worker keeps in memory of a job it claimed. */
  datatype Claimed = Claimed(id: nat, key: JobKey, attempts: nat, maxAttempts: nat)

  // ---- the statements ----

  function NewJob(key: JobKey, runAt: int): Job {
    Job(key, Pending, 0, DEFAULT_MAX_ATTEMPTS, runAt, None, None)
  }

  predicate Queued(t: Table, key: JobKey) {
    exists id <- t :: t[id].status == Pending && t[id].key == key
  }

  /** A de-duplicated enqueue looks at pending jobs only. */
  function Enqueue(t: Table, id: nat, key: JobKey, runAt: int, unlessQueued: bool): Table {
    if unlessQueued && Queued(t, key) then t else t[id := NewJob(key, runAt)]
  }

  /** FOR UPDATE SKIP LOCKED: pending, due, and locked by nobody else. */
  function Claimable(t: Table, locked: set<nat>, now: int): set<nat> {
    set id | id in t && t[id].status == Pending && t[id].nextRun <= now && id !in locked
  }

  /** ORDER BY id LIMIT n. */
  predicate LowestOf(ids: set<nat>, from: set<nat>, n: nat) {
    && ids <= from && |ids| <= n
    && (|ids| == n || ids == from)
    && forall x <- ids, y <- from :: y !in ids ==> x < y
  }

  function MarkClaimed(t: Table, ids: set<nat>, worker: string, now: int): Table {
    map id | id in t :: if id in ids
      then t[id].(status := InProgress, lockedBy := Some(worker), lockedAt := Some(now), attempts := t[id].attempts + 1)
      else t[id]
  }

  function Unlocked(j: Job, status: Status): Job {
    j.(status := status, lockedBy := None, lockedAt := None)
  }

  function Complete(t: Table, id: nat): Table {
    if id in t then t[id := Unlocked(t[id], Completed)] else t
  }

  function FailDead(t: Table, id: nat): Table {
    if id in t then t[id := Unlocked(t[id], Dead)] else t
  }

  function FailRetry(t: Table, c: Claimed, now: int, jitter: nat): Table {
    if c.id in t then t[c.id := Unlocked(t[c.id], Pending).(nextRun := now + BackoffDelay(c.attempts, jitter))] else t
  }

  predicate Stuck(j: Job, now: int) {
    j.status == InProgress && j.lockedAt.Some? && j.lockedAt.value < now - STUCK_LOCK_MS
  }

  function ReapStuck(t: Table, now: int): Table {
    map id | id in t :: if Stuck(t[id], now) then Unlocked(t[id], Pending).(nextRun := now) else t[id]
  }

  // ---- backoff ----

  function Pow2(n: nat): nat {
    if n == 0 then 1 else 2 * Pow2(n - 1)
  }

  function Clamp(n: int, lo: nat, hi: nat): nat
    requires lo <= hi
  {
    if n < lo then lo else if n > hi then hi else n
  }

  /** Exponential up to the eighth attempt, plus less than a second of jitter. */
  function BackoffDelay(attempt: int, jitter: nat): nat {
    Pow2(Clamp(attempt, 1, 8)) * 1000 + jitter
  }

  /** The smallest total wait, in seconds, between `n` + 1 successive attempts. */
  function BaseWait(n: nat): nat {
    if n == 0 then 0 else BaseWait(n - 1) + Pow2(Clamp(n, 1, 8))
  }

  /** 2^(n+1) - 2 seconds while the delay still doubles, then 256 seconds each. */
  lemma {:induction false} BaseWaitClosed(n: nat)
    ensures n <= 8 ==> BaseWait(n) == Pow2(n + 1) - 2
    ensures n > 8 ==> BaseWait(n) == 510 + 256 * (n - 8)
  {
    if n > 0 {
      BaseWaitClosed(n - 1);
      EightDoublings();
    }
  }

  lemma EightDoublings()
    ensures Pow2(8) == 256 && Pow2(9) == 512
  {
    assert Pow2(4) == 16;
    assert Pow2(6) == 64;
  }

  // ---- the queue as the program runs it ----

  class JobQueue {
    var jobs: Table
    var nextId: nat

    ghost predicate Valid()
      reads this
    {
      forall id <- jobs :: id < nextId
    }

    constructor ()
      ensures Valid() && jobs == map[]
    {
      jobs, nextId := map[], 0;
    }

    method EnqueueJob(key: JobKey, now: int, delay: nat, unlessQueued: bool)
      requires Valid()
      modifies this
      ensures Valid() && old(nextId) <= nextId
      ensures jobs == Enqueue(old(jobs), old(nextId), key, now + delay, unlessQueued)
    {
      if unlessQueued && exists id <- jobs :: jobs[id].status == Pending && jobs[id].key == key {
        return;
      }
      jobs := jobs[nextId := NewJob(key, now + delay)];
      nextId := nextId + 1;
    }

    /** Select the lowest claimable ids, skipping rows that others hold locked. */
    method SelectForUpdate(locked: set<nat>, now: int, batch: nat) returns (ids: set<nat>)
      ensures LowestOf(ids, Claimable(jobs, locked, now), batch)
    {
      var from := set id | id in jobs && jobs[id].status == Pending && jobs[id].nextRun <= now && id !in locked;
      assert from == Claimable(jobs, locked, now);
      ids := {};
      var left := from;
      while |ids| < batch && left != {}
        invariant ids <= from && left == from - ids && |ids| <= batch
        invariant forall x <- ids, y <- left :: x < y
        decreases |left|
      {
        var low := Lowest(left);
        ids := ids + {low};
        left := left - {low};
      }
      assert |ids| < batch ==> ids == from;
      assert forall y :: y in from && y !in ids ==> y in left;
    }

    static method Lowest(s: set<nat>) returns (low: nat)
      requires s != {}
      ensures low in s && forall x <- s :: low <= x
    {
      low :| low in s;
      var seen := {low};
      while seen != s
        invariant low in seen && seen <= s
        invariant forall y :: y in seen ==> low <= y
        decreases |s - seen|
      {
        var x :| x in s - seen;
        assert s - (seen + {x}) == (s - seen) - {x};
        seen := seen + {x};
        if x < low {
          low := x;
        }
      }
    }

    /** Claim a batch with nobody else claiming at the same time. */
    method ClaimBatch(worker: string, now: int, batch: nat) returns (claimed: set<Claimed>, ghost ids: set<nat>)
      modifies this`jobs
      ensures LowestOf(ids, Claimable(old(jobs), {}, now), batch)
      ensures jobs == MarkClaimed(old(jobs), ids, worker, now)
      ensures forall c :: c in claimed <==>
        c.id in ids && c.id in jobs && c == Claimed(c.id, jobs[c.id].key, jobs[c.id].attempts, jobs[c.id].maxAttempts)
    {
      var picked := SelectForUpdate({}, now, batch);
      ids := picked;
      jobs := map id | id in jobs :: if id in picked
        then jobs[id].(status := InProgress, lockedBy := Some(worker), lockedAt := Some(now),
                       attempts := jobs[id].attempts + 1)
        else jobs[id];
      claimed := set id | id in picked && id in jobs ::
        Claimed(id, jobs[id].key, jobs[id].attempts, jobs[id].maxAttempts);
    }

    method CompleteJob(id: nat)
      modifies this`jobs
      ensures jobs == Complete(old(jobs), id)
    {
      if id in jobs {
        jobs := jobs[id := jobs[id].(status := Completed, lockedBy := None, lockedAt := None)];
      }
    }

    method RetryJob(c: Claimed, now: int, jitter: nat)
      modifies this`jobs
      ensures jobs == FailRetry(old(jobs), c, now, jitter)
    {
      if c.id in jobs {
        jobs := jobs[c.id := jobs[c.id].(
          status := Pending, nextRun := now + BackoffDelay(c.attempts, jitter), lockedBy := None, lockedAt := None)];
      }
    }

    method KillJob(id: nat)
      modifies this`jobs
      ensures jobs == FailDead(old(jobs), id)
    {
      if id in jobs {
        jobs := jobs[id := jobs[id].(status := Dead, lockedBy := None, lockedAt := None)];
      }
    }

    method Reap(now: int)
      modifies this`jobs
      ensures jobs == ReapStuck(old(jobs), now)
    {
      jobs := map id | id in jobs ::
        if jobs[id].status == InProgress && jobs[id].lockedAt.Some? && jobs[id].lockedAt.value < now - STUCK_LOCK_MS
        then jobs[id].(status := Pending, nextRun := now, lockedBy := None, lockedAt := None)
        else jobs[id];
    }
  }

  // ---- the worker's batch loop ----

  /** What happens to one claimed job: released at shutdown, or dispatched. */
  datatype Outcome = Released | Succeeded | FailedTerminal | FailedRetryable

  /** The statement a worker issues for a claimed job. */
  function Settle(t: Table, c: Claimed, outcome: Outcome, now: int, jitter: nat): Table {
    match outcome
    case Released => FailRetry(t, c, now, jitter)
    case Succeeded => Complete(t, c.id)
    case FailedTerminal => FailDead(t, c.id)
    case FailedRetryable => if c.attempts >= c.maxAttempts then FailDead(t, c.id) else FailRetry(t, c, now, jitter)
  }

  /** It writes the row of the claimed id only, from that row alone. */
  lemma SettleOneRow(t: Table, u: Table, c: Claimed, outcome: Outcome, now: int, jitter: nat)
    requires c.id in t && c.id in u && t[c.id] == u[c.id]
    ensures Settle(t, c, outcome, now, jitter).Keys == t.Keys
    ensures Settle(u, c, outcome, now, jitter).Keys == u.Keys
    ensures Settle(t, c, outcome, now, jitter)[c.id] == Settle(u, c, outcome, now, jitter)[c.id]
    ensures forall id <- t :: id != c.id ==> Settle(t, c, outcome, now, jitter)[id] == t[id]
  {
    hide BackoffDelay;
  }

  method SettleJob(queue: JobQueue, c: Claimed, outcome: Outcome, now: int, jitter: nat)
    modifies queue`jobs
    ensures queue.jobs == Settle(old(queue.jobs), c, outcome, now, jitter)
  {
    match outcome {
      case Released => queue.RetryJob(c, now, jitter);
      case Succeeded => queue.CompleteJob(c.id);
      case FailedTerminal => queue.KillJob(c.id);
      case FailedRetryable =>
        if c.attempts >= c.maxAttempts {
          queue.KillJob(c.id);
        } else {
          queue.RetryJob(c, now, jitter);
        }
    }
  }

  /** Walk a claimed batch. Jobs of other ids, and claimed jobs not yet reached, keep
      their rows; each claimed job gets exactly the statement its outcome calls for. */
  method WorkBatch(queue: JobQueue, batch: seq<Claimed>, outcomes: seq<Outcome>, now: int, jitters: seq<nat>)
    requires |outcomes| == |jitters| == |batch|
    requires forall i, j | 0 <= i < j < |batch| :: batch[i].id != batch[j].id
    requires forall c <- batch :: c.id in queue.jobs
    modifies queue`jobs
    ensures queue.jobs.Keys == old(queue.jobs).Keys
    ensures forall i | 0 <= i < |batch| ::
      queue.jobs[batch[i].id] == Settle(old(queue.jobs), batch[i], outcomes[i], now, jitters[i])[batch[i].id]
    ensures forall id <- queue.jobs :: (forall c <- batch :: c.id != id) ==> queue.jobs[id] == old(queue.jobs)[id]
  {
    for i := 0 to |batch|
      invariant queue.jobs.Keys == old(queue.jobs).Keys
      invariant forall j | 0 <= j < i ::
        queue.jobs[batch[j].id] == Settle(old(queue.jobs), batch[j], outcomes[j], now, jitters[j])[batch[j].id]
      invariant forall id <- queue.jobs ::
        (forall j | 0 <= j < i :: batch[j].id != id) ==> queue.jobs[id] == old(queue.jobs)[id]
    {
      var c := batch[i];
      assert c in batch;
      SettleOneRow(queue.jobs, old(queue.jobs), c, outcomes[i], now, jitters[i]);
      SettleJob(queue, c, outcomes[i], now, jitters[i]);
    }
    forall id <- queue.jobs | forall c <- batch :: c.id != id
      ensures queue.jobs[id] == old(queue.jobs)[id]
    {
      assert forall j | 0 <= j < |batch| :: batch[j] in batch;
    }
  }
}
