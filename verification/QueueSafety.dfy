/** The queue under concurrency: workers that lock, claim, dispatch, finish, release and
    crash in any interleaving, next to enqueues and the reaper. */
module QueueSafety {
  import opened Wrappers
  import opened Jobs

  // ---- the state machine ----

  /** A live worker: rows its uncommitted claim has locked, the jobs it holds, and those of
      them that it has not dispatched yet. */
  datatype Worker = Worker(locking: set<nat>, held: map<nat, Claimed>, ready: set<nat>)

  const IDLE := Worker({}, map[], {})

  /** `unstarted` are the jobs whose latest claim was not yet dispatched, `owed` the keys requested since
      the last dispatch of a job with that key, `fails` the failed dispatches of a job and
      `waited` the milliseconds by which they have put its row off. */
  datatype Sys = Sys(
    jobs: Table, nextId: nat, now: int, workers: map<string, Worker>,
    unstarted: set<nat>, owed: set<JobKey>, fails: map<nat, nat>, waited: map<nat, nat>)

  datatype Step =
    | Tick(ms: nat)
    | StartWorker(w: string)
    | Crash(w: string)
    | Request(key: JobKey, delay: nat, unlessQueued: bool)
    | LockRows(w: string, ids: set<nat>)
    | AbortClaim(w: string)
    | CommitClaim(w: string)
    | Dispatch(w: string, id: nat)
    | Finish(w: string, id: nat, outcome: Outcome, jitter: nat)
    | LoseResult(w: string, id: nat)
    | Reap

  function LockedRows(s: Sys): set<nat> {
    set w, id | w in s.workers && id in s.workers[w].locking :: id
  }

  predicate Holds(s: Sys, w: string, id: nat) {
    w in s.workers && id in s.workers[w].held
  }

  predicate HeldByLive(s: Sys, id: nat) {
    exists w <- s.workers :: id in s.workers[w].held
  }

  function Count(m: map<nat, nat>, id: nat): nat {
    if id in m then m[id] else 0
  }

  function WithWorker(s: Sys, w: string, x: Worker): Sys {
    s.(workers := s.workers[w := x])
  }

  function Forget(s: Sys, w: string, id: nat): Sys
    requires w in s.workers
  {
    WithWorker(s, w, s.workers[w].(held := s.workers[w].held - {id}, ready := s.workers[w].ready - {id}))
  }

  /** The row is in progress and locked by the worker: nobody has reaped it. */
  predicate LockedBy(s: Sys, w: string, id: nat) {
    id in s.jobs && s.jobs[id].status == InProgress && s.jobs[id].lockedBy == Some(w)
  }

  /** A released job must still be undispatched, any other outcome follows a dispatch. What a
      worker does depends on what it holds, not on the row. */
  predicate Enabled(s: Sys, step: Step) {
    match step
    case Tick(_) => true
    case StartWorker(w) => w !in s.workers && forall id <- s.jobs :: s.jobs[id].lockedBy != Some(w)
    case Crash(w) => w in s.workers
    case Request(_, _, _) => true
    case LockRows(w, ids) =>
      w in s.workers && s.workers[w] == IDLE
      && LowestOf(ids, Claimable(s.jobs, LockedRows(s), s.now), BATCH_SIZE)
    case AbortClaim(w) => w in s.workers
    case CommitClaim(w) => w in s.workers
    case Dispatch(w, id) => Holds(s, w, id) && id in s.workers[w].ready
    case Finish(w, id, outcome, jitter) =>
      Holds(s, w, id) && (id in s.workers[w].ready <==> outcome == Released) && jitter < 1000
    case LoseResult(w, id) => Holds(s, w, id)
    case Reap => true
  }

  function HeldAfterCommit(jobs: Table, ids: set<nat>): map<nat, Claimed> {
    map id | id in ids && id in jobs :: Claimed(id, jobs[id].key, jobs[id].attempts, jobs[id].maxAttempts)
  }

  function FinishStep(s: Sys, w: string, id: nat, outcome: Outcome, jitter: nat): Sys
    requires Holds(s, w, id)
  {
    var c := s.workers[w].held[id];
    var failed := outcome == FailedRetryable || outcome == FailedTerminal;
    var backsOff := outcome == FailedRetryable && c.attempts < c.maxAttempts && c.id in s.jobs;
    var jobs := Settle(s.jobs, c, outcome, s.now, jitter);
    Forget(s, w, id).(
      jobs := jobs,
      unstarted := s.unstarted - {id},
      fails := if failed then s.fails[id := Count(s.fails, id) + 1] else s.fails,
      waited := if backsOff then s.waited[id := Count(s.waited, id) + (jobs[c.id].nextRun - s.now)] else s.waited)
  }

  function Next(s: Sys, step: Step): Sys
    requires Enabled(s, step)
  {
    match step
    case Tick(ms) => s.(now := s.now + ms)
    case StartWorker(w) => WithWorker(s, w, IDLE)
    case Crash(w) => s.(workers := s.workers - {w})
    case Request(key, delay, unlessQueued) =>
      s.(jobs := Enqueue(s.jobs, s.nextId, key, s.now + delay, unlessQueued),
         nextId := s.nextId + 1, owed := s.owed + {key})
    case LockRows(w, ids) => WithWorker(s, w, IDLE.(locking := ids))
    case AbortClaim(w) => WithWorker(s, w, s.workers[w].(locking := {}))
    case CommitClaim(w) =>
      var ids := s.workers[w].locking;
      var jobs := MarkClaimed(s.jobs, ids, w, s.now);
      WithWorker(s, w, Worker({}, s.workers[w].held + HeldAfterCommit(jobs, ids), s.workers[w].ready + ids)).(
        jobs := jobs, unstarted := s.unstarted + ids)
    case Dispatch(w, id) =>
      WithWorker(s, w, s.workers[w].(ready := s.workers[w].ready - {id})).(
        unstarted := if LockedBy(s, w, id) then s.unstarted - {id} else s.unstarted,
        owed := s.owed - {s.workers[w].held[id].key})
    case Finish(w, id, outcome, jitter) => FinishStep(s, w, id, outcome, jitter)
    case LoseResult(w, id) => Forget(s, w, id)
    case Reap =>
      s.(jobs := ReapStuck(s.jobs, s.now),
         unstarted := set id | id in s.unstarted && !(id in s.jobs && Stuck(s.jobs[id], s.now)))
  }

  /** The hypothesis on the reaper: what it takes back, no live worker still holds. */
  predicate ReapsOnlyOrphans(s: Sys) {
    forall id <- s.jobs :: Stuck(s.jobs[id], s.now) ==> !HeldByLive(s, id)
  }

  predicate Guarded(s: Sys, step: Step) {
    Enabled(s, step) && (step.Reap? ==> ReapsOnlyOrphans(s))
  }

  // ---- the invariant ----

  predicate LocksMatchStatus(j: Job) {
    && (j.status == InProgress <==> j.lockedBy.Some?)
    && (j.status == InProgress <==> j.lockedAt.Some?)
  }

  /** A held job is in progress, locked by its holder, with the attempts it was claimed at,
      and its holder knows whether it was dispatched. */
  predicate HeldOk(s: Sys, w: string, id: nat)
    requires Holds(s, w, id)
  {
    && LockedBy(s, w, id) && (id in s.workers[w].ready <==> id in s.unstarted)
    && s.workers[w].held[id] == Claimed(id, s.jobs[id].key, s.jobs[id].attempts, s.jobs[id].maxAttempts)
  }

  /** Locked rows are pending, and each is locked by one worker. */
  ghost predicate LocksOk(s: Sys) {
    && (forall w <- s.workers, id <- s.workers[w].locking :: id in s.jobs && s.jobs[id].status == Pending)
    && (forall v <- s.workers, w <- s.workers :: v != w ==> s.workers[v].locking !! s.workers[w].locking)
  }

  /** Ownership: who may touch which row. */
  ghost predicate Owned(s: Sys) {
    && (forall id <- s.jobs :: id < s.nextId && LocksMatchStatus(s.jobs[id]))
    && (forall w, id | Holds(s, w, id) :: HeldOk(s, w, id))
    && LocksOk(s)
    && (forall id <- s.unstarted :: id in s.jobs && s.jobs[id].status == InProgress)
  }

  /** The job will still be dispatched: it is pending, or claimed and not yet dispatched
      (by a live worker, or by one that crashed or lost it and awaits the reaper). */
  predicate Awaiting(s: Sys, id: nat, key: JobKey) {
    id in s.jobs && s.jobs[id].key == key
    && (s.jobs[id].status == Pending || (s.jobs[id].status == InProgress && id in s.unstarted))
  }

  ghost predicate NothingLost(s: Sys) {
    forall key <- s.owed :: exists id :: Awaiting(s, id, key)
  }

  /** Failures against attempts and the maximum. */
  predicate FailsOk(s: Sys, id: nat)
    requires id in s.jobs
  {
    var j, f := s.jobs[id], Count(s.fails, id);
    && j.maxAttempts >= 1
    && match j.status
       case Pending => f <= j.attempts && f < j.maxAttempts
       case InProgress => f < j.attempts && f < j.maxAttempts
       case _ => f <= j.maxAttempts
  }

  ghost predicate FailuresBounded(s: Sys) {
    && (forall id <- s.jobs :: FailsOk(s, id))
    && (forall id <- s.fails :: id in s.jobs)
  }

  ghost predicate Inv(s: Sys) {
    Owned(s) && NothingLost(s) && FailuresBounded(s)
  }

  // ---- ownership ----

  lemma CommitKeepsOwned(s: Sys, w: string)
    requires Owned(s) && w in s.workers
    ensures Owned(Next(s, CommitClaim(w)))
  {
    var ids := s.workers[w].locking;
    var t := Next(s, CommitClaim(w));
    assert forall x <- ids :: s.jobs[x].status == Pending;
    forall v, id | Holds(t, v, id)
      ensures HeldOk(t, v, id)
    {
      if v != w || id !in ids {
        assert Holds(s, v, id) && HeldOk(s, v, id);
      }
    }
  }

  lemma LockKeepsOwned(s: Sys, w: string, ids: set<nat>)
    requires Owned(s) && Enabled(s, LockRows(w, ids))
    ensures Owned(Next(s, LockRows(w, ids)))
  {
    var t := Next(s, LockRows(w, ids));
    LockedTogether(s, ids);
    LocksStayOk(s, w, ids);
    hide LocksOk, LowestOf, Claimable, LockedRows;
    forall v, id | Holds(t, v, id)
      ensures HeldOk(t, v, id)
    {
      assert Holds(s, v, id) && HeldOk(s, v, id);
    }
  }

  lemma LocksStayOk(s: Sys, w: string, ids: set<nat>)
    requires LocksOk(s) && w in s.workers
    requires forall id <- ids :: id in s.jobs && s.jobs[id].status == Pending
    requires forall v <- s.workers :: s.workers[v].locking !! ids
    ensures LocksOk(WithWorker(s, w, IDLE.(locking := ids)))
  {
    var t := WithWorker(s, w, IDLE.(locking := ids));
    assert forall v <- t.workers :: v != w ==> t.workers[v] == s.workers[v];
  }

  /** Rows locked next are pending, and no worker has locked them. */
  lemma LockedTogether(s: Sys, ids: set<nat>)
    requires LowestOf(ids, Claimable(s.jobs, LockedRows(s), s.now), BATCH_SIZE)
    ensures forall id <- ids :: id in s.jobs && s.jobs[id].status == Pending
    ensures forall v <- s.workers :: s.workers[v].locking !! ids
  {
    forall v, id | v in s.workers && id in s.workers[v].locking
      ensures id !in ids
    {
      assert id in LockedRows(s);
    }
  }

  lemma FinishKeepsOwned(s: Sys, w: string, id: nat, outcome: Outcome, jitter: nat)
    requires Owned(s) && Enabled(s, Finish(w, id, outcome, jitter))
    ensures Owned(Next(s, Finish(w, id, outcome, jitter)))
  {
    var t := Next(s, Finish(w, id, outcome, jitter));
    assert HeldOk(s, w, id);
    forall v, x | Holds(t, v, x)
      ensures HeldOk(t, v, x)
    {
      assert Holds(s, v, x) && HeldOk(s, v, x);
    }
  }

  lemma ReapKeepsOwned(s: Sys)
    requires Owned(s) && ReapsOnlyOrphans(s)
    ensures Owned(Next(s, Reap))
  {
    var t := Next(s, Reap);
    forall v, x | Holds(t, v, x)
      ensures HeldOk(t, v, x)
    {
      assert Holds(s, v, x) && HeldOk(s, v, x) && HeldByLive(s, x);
    }
  }

  lemma RequestKeepsOwned(s: Sys, step: Step)
    requires Owned(s) && step.Request?
    ensures Owned(Next(s, step))
  {
    var t := Next(s, step);
    assert forall id <- s.jobs :: id in t.jobs && t.jobs[id] == s.jobs[id];
    assert forall id <- t.jobs :: id in s.jobs || id == s.nextId;
    hide Enqueue;
    forall v, x | Holds(t, v, x)
      ensures HeldOk(t, v, x)
    {
      assert Holds(s, v, x) && HeldOk(s, v, x);
    }
  }

  lemma OtherKeepsOwned(s: Sys, step: Step)
    requires Owned(s) && Guarded(s, step)
    requires !step.CommitClaim? && !step.LockRows? && !step.Finish? && !step.Reap? && !step.Request?
    ensures Owned(Next(s, step))
  {
    var t := Next(s, step);
    forall v, x | Holds(t, v, x)
      ensures HeldOk(t, v, x)
    {
      assert Holds(s, v, x) && HeldOk(s, v, x);
    }
  }

  lemma StepKeepsOwned(s: Sys, step: Step)
    requires Owned(s) && Guarded(s, step)
    ensures Owned(Next(s, step))
  {
    hide Owned;
    match step {
      case CommitClaim(w) => CommitKeepsOwned(s, w);
      case LockRows(w, ids) => LockKeepsOwned(s, w, ids);
      case Finish(w, id, outcome, jitter) => FinishKeepsOwned(s, w, id, outcome, jitter);
      case Reap => ReapKeepsOwned(s);
      case Request(_, _, _) => RequestKeepsOwned(s, step);
      case _ => OtherKeepsOwned(s, step);
    }
  }

  // ---- no lost request ----

  /** A step that neither dispatches nor requests keeps every waiting job waiting. */
  lemma StaysAwaiting(s: Sys, step: Step, id: nat, key: JobKey)
    requires Owned(s) && Guarded(s, step) && Awaiting(s, id, key)
    requires step.Dispatch? ==> step.id != id
    ensures Awaiting(Next(s, step), id, key)
  {
    match step {
      case Finish(w, x, outcome, jitter) => assert HeldOk(s, w, x);
      case Request(_, _, _) => assert id < s.nextId;
      case _ =>
    }
  }

  lemma StepLosesNothing(s: Sys, step: Step)
    requires Owned(s) && NothingLost(s) && Guarded(s, step)
    ensures NothingLost(Next(s, step))
  {
    var t := Next(s, step);
    forall key <- t.owed
      ensures exists id :: Awaiting(t, id, key)
    {
      if step.Request? && step.key == key {
        if step.unlessQueued && Queued(s.jobs, key) {
          var id :| id in s.jobs && s.jobs[id].status == Pending && s.jobs[id].key == key;
          assert Awaiting(t, id, key);
        } else {
          assert Awaiting(t, s.nextId, key);
        }
      } else {
        var id :| Awaiting(s, id, key);
        if step.Dispatch? {
          assert HeldOk(s, step.w, step.id);
        }
        hide Awaiting, Guarded, Next, Owned;
        StaysAwaiting(s, step, id, key);
      }
    }
  }

  // ---- bounded failure ----

  lemma FinishBoundsFailures(s: Sys, w: string, id: nat, outcome: Outcome, jitter: nat)
    requires Owned(s) && FailuresBounded(s) && Enabled(s, Finish(w, id, outcome, jitter))
    ensures FailuresBounded(Next(s, Finish(w, id, outcome, jitter)))
  {
    var t := Next(s, Finish(w, id, outcome, jitter));
    assert HeldOk(s, w, id) && FailsOk(s, id);
    hide Owned, BackoffDelay;
    forall x <- t.jobs
      ensures FailsOk(t, x)
    {
      assert FailsOk(s, x);
    }
  }

  lemma CommitBoundsFailures(s: Sys, w: string)
    requires Owned(s) && FailuresBounded(s) && w in s.workers
    ensures FailuresBounded(Next(s, CommitClaim(w)))
  {
    var t := Next(s, CommitClaim(w));
    assert forall x <- s.workers[w].locking :: s.jobs[x].status == Pending;
    hide Owned;
    forall x <- t.jobs
      ensures FailsOk(t, x)
    {
      assert FailsOk(s, x);
    }
  }

  lemma OtherBoundsFailures(s: Sys, step: Step)
    requires Owned(s) && FailuresBounded(s) && Guarded(s, step) && !step.Finish? && !step.CommitClaim?
    ensures FailuresBounded(Next(s, step))
  {
    var t := Next(s, step);
    assert s.nextId !in s.jobs;
    assert t.fails == s.fails && s.jobs.Keys <= t.jobs.Keys;
    hide Owned;
    forall x <- t.jobs
      ensures FailsOk(t, x)
    {
      assert x in s.jobs ==> FailsOk(s, x);
    }
  }

  lemma StepBoundsFailures(s: Sys, step: Step)
    requires Owned(s) && FailuresBounded(s) && Guarded(s, step)
    ensures FailuresBounded(Next(s, step))
  {
    hide Owned, FailuresBounded;
    match step {
      case Finish(w, id, outcome, jitter) => FinishBoundsFailures(s, w, id, outcome, jitter);
      case CommitClaim(w) => CommitBoundsFailures(s, w);
      case _ => OtherBoundsFailures(s, step);
    }
  }

  // ---- whole runs ----

  ghost predicate GuardedRun(s: Sys, run: seq<Step>)
    decreases |run|
  {
    run == [] || (Guarded(s, run[0]) && GuardedRun(Next(s, run[0]), run[1..]))
  }

  ghost function Play(s: Sys, run: seq<Step>): Sys
    requires GuardedRun(s, run)
    decreases |run|
  {
    if run == [] then s else Play(Next(s, run[0]), run[1..])
  }

  const EMPTY := Sys(map[], 0, 0, map[], {}, {}, map[], map[])

  lemma {:induction false} RunKeepsInv(s: Sys, run: seq<Step>)
    requires Inv(s) && GuardedRun(s, run)
    ensures Inv(Play(s, run))
    decreases |run|
  {
    hide Owned, NothingLost, FailuresBounded, Next;
    if run != [] {
      StepKeepsOwned(s, run[0]);
      StepLosesNothing(s, run[0]);
      StepBoundsFailures(s, run[0]);
      RunKeepsInv(Next(s, run[0]), run[1..]);
    }
  }

  /** In every reachable state: a request not yet covered by a dispatch that started
      after it still has a job that will be dispatched. */
  lemma NoRequestIsLost(run: seq<Step>, key: JobKey)
    requires GuardedRun(EMPTY, run)
    ensures var s := Play(EMPTY, run); key in s.owed ==> exists id :: Awaiting(s, id, key)
  {
    RunKeepsInv(EMPTY, run);
  }

  /** In every reachable state: lock columns are set exactly while in progress, a live
      claim is on an in-progress job locked by its holder, no job has two live claims, and
      rows being claimed by different workers are disjoint. */
  lemma ClaimsAreExclusive(run: seq<Step>, v: string, w: string, id: nat)
    requires GuardedRun(EMPTY, run)
    ensures var s := Play(EMPTY, run);
      && (id in s.jobs ==> LocksMatchStatus(s.jobs[id]))
      && (Holds(s, w, id) ==> HeldOk(s, w, id))
      && (Holds(s, v, id) && Holds(s, w, id) ==> v == w)
      && (v in s.workers && w in s.workers && v != w ==> s.workers[v].locking !! s.workers[w].locking)
  {
    RunKeepsInv(EMPTY, run);
    var s := Play(EMPTY, run);
    if Holds(s, v, id) && Holds(s, w, id) {
      assert HeldOk(s, v, id) && HeldOk(s, w, id);
    }
  }

  /** Over any interleaving, with releases and crash reaps, a job suffers at most
      `maxAttempts` failed dispatches. */
  lemma FailuresNeverExceedMaximum(run: seq<Step>, id: nat)
    requires GuardedRun(EMPTY, run)
    ensures var s := Play(EMPTY, run); id in s.jobs ==> Count(s.fails, id) <= s.jobs[id].maxAttempts
  {
    RunKeepsInv(EMPTY, run);
    var s := Play(EMPTY, run);
    assert id in s.jobs ==> FailsOk(s, id);
  }

  /** Completed and dead jobs are never touched again. */
  lemma TerminalIsAbsorbing(s: Sys, step: Step, id: nat)
    requires Owned(s) && Guarded(s, step)
    requires id in s.jobs && (s.jobs[id].status == Completed || s.jobs[id].status == Dead)
    ensures id in Next(s, step).jobs && Next(s, step).jobs[id] == s.jobs[id]
  {
    match step {
      case Finish(w, x, outcome, jitter) => assert HeldOk(s, w, x);
      case CommitClaim(w) => assert forall x <- s.workers[w].locking :: s.jobs[x].status == Pending;
      case Request(_, _, _) => assert id < s.nextId;
      case _ =>
    }
  }
}
