/** The queue against the clock: when a row can be claimed, what finishing and reaping write,
    and how long a job lives before it dies. */
module QueueTiming {
  import opened Wrappers
  import opened Jobs
  import opened QueueSafety

  // ---- what may be claimed ----

  /** A claim takes pending rows that are due and that nobody has locked, the lowest ids first,
      and leaves such a row out only when it has eight lower ones. */
  lemma ClaimTakesLowestDue(s: Sys, v: string, ids: set<nat>, id: nat)
    requires Enabled(s, LockRows(v, ids)) && id in s.jobs
    ensures var due := s.jobs[id].status == Pending && s.jobs[id].nextRun <= s.now
                       && forall w <- s.workers :: id !in s.workers[w].locking;
      && (id in ids ==> due)
      && (due && id !in ids ==> |ids| == 8 && forall x <- ids :: x < id)
  {
    if w :| w in s.workers && id in s.workers[w].locking {
      assert id in LockedRows(s);
    }
    if id in LockedRows(s) {
      var w :| w in s.workers && id in s.workers[w].locking;
    }
    assert id in Claimable(s.jobs, LockedRows(s), s.now) <==>
      s.jobs[id].status == Pending && s.jobs[id].nextRun <= s.now && id !in LockedRows(s);
  }

  /** What a claim has locked is due. */
  ghost predicate LocksDue(s: Sys) {
    forall w <- s.workers, id <- s.workers[w].locking :: id in s.jobs && s.jobs[id].nextRun <= s.now
  }

  lemma StepKeepsLocksDue(s: Sys, step: Step)
    requires Owned(s) && LocksDue(s) && Guarded(s, step)
    ensures LocksDue(Next(s, step))
  {
    var t := Next(s, step);
    forall w, id | w in t.workers && id in t.workers[w].locking
      ensures id in t.jobs && t.jobs[id].nextRun <= t.now
    {
      if step.LockRows? && w == step.w {
        assert id in Claimable(s.jobs, LockedRows(s), s.now);
      } else if w in s.workers && id in s.workers[w].locking {
        UntouchedRow(s, step, w, id);
      }
    }
  }

  /** A locked row keeps its due time, whatever the others do. */
  lemma UntouchedRow(s: Sys, step: Step, w: string, id: nat)
    requires Owned(s) && Guarded(s, step) && w in s.workers && id in s.workers[w].locking
    ensures id in s.jobs && id in Next(s, step).jobs && Next(s, step).jobs[id].nextRun == s.jobs[id].nextRun
  {
    assert s.jobs[id].status == Pending && id < s.nextId;
    match step {
      case Finish(v, x, outcome, jitter) => assert HeldOk(s, v, x);
      case _ =>
    }
  }

  lemma {:induction false} RunKeepsLocksDue(s: Sys, run: seq<Step>)
    requires Owned(s) && LocksDue(s) && GuardedRun(s, run)
    ensures Owned(Play(s, run)) && LocksDue(Play(s, run))
    decreases |run|
  {
    hide Owned, LocksDue, Next;
    if run != [] {
      StepKeepsOwned(s, run[0]);
      StepKeepsLocksDue(s, run[0]);
      RunKeepsLocksDue(Next(s, run[0]), run[1..]);
    }
  }

  lemma WaitingStep(s: Sys, step: Step, id: nat)
    requires Owned(s) && LocksDue(s) && Guarded(s, step)
    requires id in s.jobs && s.jobs[id].status == Pending && s.now < s.jobs[id].nextRun
    ensures id in Next(s, step).jobs && Next(s, step).jobs[id] == s.jobs[id] && s.now <= Next(s, step).now
  {
    match step {
      case Finish(w, x, outcome, jitter) => assert HeldOk(s, w, x);
      case CommitClaim(w) => assert id !in s.workers[w].locking;
      case Request(_, _, _) => assert id < s.nextId;
      case _ =>
    }
  }

  lemma {:induction false} ClockGoesOn(s: Sys, run: seq<Step>)
    requires GuardedRun(s, run)
    ensures s.now <= Play(s, run).now
    decreases |run|
  {
    if run != [] {
      assert s.now <= Next(s, run[0]).now;
      hide Next, Guarded;
      ClockGoesOn(Next(s, run[0]), run[1..]);
    }
  }

  /** A pending row stays as it is, in every run, until the clock reaches its due time. */
  lemma {:induction false} WaitsUntilDue(s: Sys, run: seq<Step>, id: nat)
    requires Owned(s) && LocksDue(s) && GuardedRun(s, run)
    requires id in s.jobs && s.jobs[id].status == Pending
    ensures var t := Play(s, run);
      t.now < s.jobs[id].nextRun ==> id in t.jobs && t.jobs[id] == s.jobs[id]
    decreases |run|
  {
    ClockGoesOn(s, run);
    if run != [] && Play(s, run).now < s.jobs[id].nextRun {
      WaitingStep(s, run[0], id);
      StepKeepsOwned(s, run[0]);
      StepKeepsLocksDue(s, run[0]);
      hide Owned, LocksDue, Next, Guarded;
      WaitsUntilDue(Next(s, run[0]), run[1..], id);
    }
  }

  // ---- what the statements write ----

  /** A finished job is done, dead, or pending again: after a release or a retryable failure
      below the maximum it is put off by 2^attempts seconds, 256 at most, and less than one
      second more. */
  lemma FinishedRow(s: Sys, w: string, id: nat, outcome: Outcome, jitter: nat)
    requires Owned(s) && Enabled(s, Finish(w, id, outcome, jitter))
    ensures var t := Next(s, Finish(w, id, outcome, jitter));
      && id in s.jobs && id in t.jobs
      && var j, k := s.jobs[id], t.jobs[id];
         var again := outcome == Released || (outcome == FailedRetryable && j.attempts < j.maxAttempts);
         && k.status == (if outcome == Succeeded then Completed else if again then Pending else Dead)
         && k.lockedBy == None && k.lockedAt == None
         && k.key == j.key && k.attempts == j.attempts && k.maxAttempts == j.maxAttempts
         && (again ==>
               s.now + 1000 * Pow2(Clamp(j.attempts, 1, 8)) <= k.nextRun
               < s.now + 1000 * Pow2(Clamp(j.attempts, 1, 8)) + 1000)
  {
    assert HeldOk(s, w, id);
    hide Pow2, Clamp, Owned;
  }

  /** So it cannot be claimed before then. */
  lemma RetryWaits(s: Sys, w: string, id: nat, jitter: nat, run: seq<Step>, v: string, ids: set<nat>)
    requires Owned(s) && LocksDue(s) && Enabled(s, Finish(w, id, FailedRetryable, jitter))
    requires id in s.jobs && s.jobs[id].attempts < s.jobs[id].maxAttempts
    requires GuardedRun(Next(s, Finish(w, id, FailedRetryable, jitter)), run)
    ensures var t := Play(Next(s, Finish(w, id, FailedRetryable, jitter)), run);
      t.now < s.now + 1000 * Pow2(Clamp(s.jobs[id].attempts, 1, 8)) && id in ids ==> !Enabled(t, LockRows(v, ids))
  {
    var step := Finish(w, id, FailedRetryable, jitter);
    var u := Next(s, step);
    FinishedRow(s, w, id, FailedRetryable, jitter);
    StepKeepsOwned(s, step);
    StepKeepsLocksDue(s, step);
    WaitsUntilDue(u, run, id);
    var t := Play(u, run);
    hide Pow2, Clamp, Owned, LocksDue, Next, GuardedRun, Play;
    if t.now < s.now + 1000 * Pow2(Clamp(s.jobs[id].attempts, 1, 8)) && id in ids && Enabled(t, LockRows(v, ids)) {
      ClaimTakesLowestDue(t, v, ids, id);
    }
  }

  /** A request finds its work already pending, or adds one row: pending, due after its delay,
      never tried, with eight attempts. */
  lemma RequestedRow(s: Sys, key: JobKey, delay: nat, unlessQueued: bool)
    requires Owned(s)
    ensures var t := Next(s, Request(key, delay, unlessQueued));
      var waiting := exists id <- s.jobs :: s.jobs[id].status == Pending && s.jobs[id].key == key;
      if unlessQueued && waiting then t.jobs == s.jobs
      else
        && s.nextId !in s.jobs && t.jobs.Keys == s.jobs.Keys + {s.nextId}
        && t.jobs[s.nextId] == Job(key, Pending, 0, 8, s.now + delay, None, None)
        && forall id <- s.jobs :: t.jobs[id] == s.jobs[id]
  {
  }

  /** The reaper takes back, due at once, exactly the rows in progress that have been locked for
      more than 45 minutes. */
  lemma ReapedRow(s: Sys, id: nat)
    requires Owned(s) && id in s.jobs
    ensures var t := Next(s, Reap);
      && id in t.jobs
      && var j, k := s.jobs[id], t.jobs[id];
         if j.status == InProgress && j.lockedAt.value < s.now - 2_700_000 then
           k == Job(j.key, Pending, j.attempts, j.maxAttempts, s.now, None, None)
         else k == j
  {
  }

  // ---- the life of a job ----

  /** The job was first claimed no earlier than `start`, and every claim since then came after
      the backoff of the one before. */
  predicate Spaced(s: Sys, id: nat, start: int) {
    && id in s.jobs && s.jobs[id].attempts >= 1
    && var j := s.jobs[id];
       if j.status == Pending then start + 1000 * BaseWait(j.attempts) <= j.nextRun
       else start + 1000 * BaseWait(j.attempts - 1) <= s.now
  }

  lemma FinishKeepsSpaced(s: Sys, w: string, id: nat, outcome: Outcome, jitter: nat, start: int)
    requires Owned(s) && Enabled(s, Finish(w, id, outcome, jitter)) && Spaced(s, id, start)
    ensures Spaced(Next(s, Finish(w, id, outcome, jitter)), id, start)
  {
    FinishedRow(s, w, id, outcome, jitter);
    var n := s.jobs[id].attempts;
    assert BaseWait(n) == BaseWait(n - 1) + Pow2(Clamp(n, 1, 8));
    assert HeldOk(s, w, id);
    assert Next(s, Finish(w, id, outcome, jitter)).now == s.now;
    hide Pow2, Clamp, BaseWait, Owned, Next;
  }

  lemma StepKeepsSpaced(s: Sys, step: Step, id: nat, start: int)
    requires Owned(s) && LocksDue(s) && Guarded(s, step) && !step.Reap? && Spaced(s, id, start)
    ensures Spaced(Next(s, step), id, start)
  {
    hide BaseWait, BackoffDelay;
    if step.Finish? {
      if step.id == id {
        FinishKeepsSpaced(s, step.w, id, step.outcome, step.jitter, start);
      } else {
        OtherRow(s, step.w, step.id, step.outcome, step.jitter, id);
        hide Owned, Settle;
      }
    } else if step.CommitClaim? {
      assert id in s.workers[step.w].locking ==> s.jobs[id].status == Pending;
      hide Owned;
    } else {
      assert id < s.nextId;
      hide Owned, LocksDue;
    }
  }

  lemma OtherRow(s: Sys, w: string, x: nat, outcome: Outcome, jitter: nat, id: nat)
    requires Owned(s) && Enabled(s, Finish(w, x, outcome, jitter)) && id in s.jobs && id != x
    ensures id in Next(s, Finish(w, x, outcome, jitter)).jobs
    ensures Next(s, Finish(w, x, outcome, jitter)).jobs[id] == s.jobs[id]
  {
    assert HeldOk(s, w, x);
    hide BackoffDelay, Owned;
  }

  lemma {:induction false} RunKeepsSpaced(s: Sys, run: seq<Step>, id: nat, start: int)
    requires Owned(s) && LocksDue(s) && GuardedRun(s, run) && Spaced(s, id, start)
    requires forall step <- run :: !step.Reap?
    ensures Spaced(Play(s, run), id, start)
    decreases |run|
  {
    hide Owned, LocksDue, Next, Spaced;
    if run != [] {
      StepKeepsOwned(s, run[0]);
      StepKeepsLocksDue(s, run[0]);
      StepKeepsSpaced(s, run[0], id, start);
      RunKeepsSpaced(Next(s, run[0]), run[1..], id, start);
    }
  }

  /** Every job has eight attempts. */
  predicate EightAttempts(s: Sys) {
    forall id <- s.jobs :: s.jobs[id].maxAttempts == 8
  }

  lemma StepKeepsEight(s: Sys, step: Step)
    requires Guarded(s, step) && EightAttempts(s)
    ensures EightAttempts(Next(s, step))
  {
    hide BackoffDelay, LowestOf, Queued, LockedRows, HeldByLive;
    var t := Next(s, step);
    forall id <- t.jobs
      ensures t.jobs[id].maxAttempts == 8
    {
      assert id in s.jobs ==> t.jobs[id].maxAttempts == s.jobs[id].maxAttempts;
    }
  }

  lemma {:induction false} RunKeepsEight(s: Sys, run: seq<Step>)
    requires GuardedRun(s, run) && EightAttempts(s)
    ensures EightAttempts(Play(s, run))
    decreases |run|
  {
    if run != [] {
      StepKeepsEight(s, run[0]);
      hide Next, EightAttempts;
      RunKeepsEight(Next(s, run[0]), run[1..]);
    }
  }

  /** From a job's first claim on, with any interleaving of claims, crashes, releases and
      failures but no reap: when it is claimed or finished for the n-th time, the clock has moved on by
      at least 2^n - 2 seconds. A job that has used up its attempts, which are eight, has
      lived for at least 254 seconds. */
  lemma ClockBeforeDead(before: seq<Step>, run: seq<Step>, id: nat)
    requires GuardedRun(EMPTY, before) && GuardedRun(Play(EMPTY, before), run)
    requires id in Play(EMPTY, before).jobs && Play(EMPTY, before).jobs[id].attempts == 1
    requires Play(EMPTY, before).jobs[id].status == InProgress && forall step <- run :: !step.Reap?
    ensures var s, t := Play(EMPTY, before), Play(Play(EMPTY, before), run);
      && id in t.jobs
      && var j := t.jobs[id];
         && (j.status != Pending && 1 <= j.attempts <= 9 ==> t.now - s.now >= 1000 * (Pow2(j.attempts) - 2))
         && (j.status == Dead && j.attempts == j.maxAttempts ==> t.now - s.now >= 254_000)
  {
    RunKeepsLocksDue(EMPTY, before);
    RunKeepsEight(EMPTY, before);
    var s := Play(EMPTY, before);
    RunKeepsEight(s, run);
    assert BaseWait(0) == 0;
    RunKeepsSpaced(s, run, id, s.now);
    var n := Play(s, run).jobs[id].attempts;
    BaseWaitClosed(n - 1);
    EightDoublings();
  }
}
