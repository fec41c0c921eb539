/** Runs without releases and reaps, where attempts and waits are exact, and the run that
    loses a request once the reaper takes a job from a live worker. */
module QueueRuns {
  import opened Wrappers
  import opened Jobs
  import opened QueueSafety

  // ---- exact attempts and waits ----

  /** No job is released at shutdown and none is reaped. */
  predicate Plain(step: Step) {
    !step.Reap? && (step.Finish? ==> step.outcome != Released)
  }

  /** How often the job has backed off. */
  function Backoffs(j: Job): int {
    if j.status == Pending then j.attempts else j.attempts - 1
  }

  /** Every claim but the current or last one ended in a failed dispatch. */
  predicate Exact(s: Sys, id: nat)
    requires id in s.jobs
  {
    var j, f, n, waited := s.jobs[id], Count(s.fails, id), Backoffs(s.jobs[id]), Count(s.waited, id);
    && j.attempts <= j.maxAttempts && (j.status == Pending ==> j.attempts < j.maxAttempts)
    && (j.status != Pending ==> j.attempts >= 1)
    && f == (if j.status == Pending || j.status == Dead then j.attempts else j.attempts - 1)
    && n >= 0 && 1000 * BaseWait(n) <= waited <= 1000 * BaseWait(n) + 999 * n
  }

  ghost predicate AllExact(s: Sys) {
    && (forall id <- s.jobs :: Exact(s, id))
    && (forall id <- s.fails.Keys + s.waited.Keys :: id in s.jobs)
  }

  /** A job whose row and counters are as before is as exact as before. */
  lemma SameRow(s: Sys, t: Sys, x: nat)
    requires x in s.jobs && Exact(s, x) && x in t.jobs && t.jobs[x] == s.jobs[x]
    requires Count(t.fails, x) == Count(s.fails, x) && Count(t.waited, x) == Count(s.waited, x)
    ensures Exact(t, x)
  {
  }

  lemma FinishedRow(s: Sys, w: string, id: nat, outcome: Outcome, jitter: nat)
    requires Holds(s, w, id) && HeldOk(s, w, id) && Exact(s, id) && jitter < 1000 && outcome != Released
    ensures Exact(FinishStep(s, w, id, outcome, jitter), id)
  {
    var n := s.jobs[id].attempts;
    assert BaseWait(n) == BaseWait(n - 1) + Pow2(Clamp(n, 1, 8));
    hide Pow2, BaseWait, Clamp;
  }

  lemma FinishKeepsExact(s: Sys, w: string, id: nat, outcome: Outcome, jitter: nat)
    requires Owned(s) && AllExact(s) && Enabled(s, Finish(w, id, outcome, jitter)) && outcome != Released
    ensures AllExact(Next(s, Finish(w, id, outcome, jitter)))
  {
    var t := Next(s, Finish(w, id, outcome, jitter));
    assert HeldOk(s, w, id) && Exact(s, id);
    FinishedRow(s, w, id, outcome, jitter);
    hide Owned, Exact, BackoffDelay;
    forall x <- t.jobs
      ensures Exact(t, x)
    {
      if x != id {
        SameRow(s, t, x);
      }
    }
  }

  lemma CommitKeepsExact(s: Sys, w: string)
    requires Owned(s) && AllExact(s) && w in s.workers
    ensures AllExact(Next(s, CommitClaim(w)))
  {
    var t := Next(s, CommitClaim(w));
    assert forall x <- s.workers[w].locking :: s.jobs[x].status == Pending;
    hide Owned, BaseWait;
    forall x <- t.jobs
      ensures Exact(t, x)
    {
      assert Exact(s, x);
    }
  }

  lemma StepKeepsExact(s: Sys, step: Step)
    requires Owned(s) && AllExact(s) && Enabled(s, step) && Plain(step)
    ensures AllExact(Next(s, step))
  {
    if step.Finish? {
      FinishKeepsExact(s, step.w, step.id, step.outcome, step.jitter);
    } else if step.CommitClaim? {
      CommitKeepsExact(s, step.w);
    } else if step.Request? {
      RequestKeepsExact(s, step);
    } else {
      var t := Next(s, step);
      hide Owned, Exact;
      forall x <- t.jobs
        ensures Exact(t, x)
      {
        SameRow(s, t, x);
      }
    }
  }

  lemma RequestKeepsExact(s: Sys, step: Step)
    requires Owned(s) && AllExact(s) && step.Request?
    ensures AllExact(Next(s, step))
  {
    var t := Next(s, step);
    assert s.nextId !in s.jobs && BaseWait(0) == 0;
    assert s.nextId !in s.fails && s.nextId !in s.waited;
    if s.nextId in t.jobs {
      assert Exact(t, s.nextId);
    }
    hide Owned, Exact;
    forall x <- t.jobs
      ensures Exact(t, x)
    {
      if x != s.nextId {
        SameRow(s, t, x);
      }
    }
  }

  lemma {:induction false} RunKeepsExact(s: Sys, run: seq<Step>)
    requires Owned(s) && AllExact(s) && GuardedRun(s, run) && forall step <- run :: Plain(step)
    ensures AllExact(Play(s, run))
    decreases |run|
  {
    hide Owned, AllExact, Next;
    if run != [] {
      StepKeepsOwned(s, run[0]);
      StepKeepsExact(s, run[0]);
      RunKeepsExact(Next(s, run[0]), run[1..]);
    }
  }

  /** Without releases and reaps a claim never exceeds the maximum, and a job that died of
      its last attempt, with a maximum m of at most 9, has waited between 2^m - 2 and
      2^m - 2 + (m - 1) seconds. */
  lemma WaitBeforeDead(s: Sys, run: seq<Step>, id: nat)
    requires Owned(s) && AllExact(s) && GuardedRun(s, run) && forall step <- run :: Plain(step)
    requires id in Play(s, run).jobs
    ensures var j := Play(s, run).jobs[id];
      var waited := Count(Play(s, run).waited, id);
      && j.attempts <= j.maxAttempts
      && (j.status == Dead && j.attempts == j.maxAttempts <= 9 ==>
            1000 * (Pow2(j.maxAttempts) - 2) <= waited
            <= 1000 * (Pow2(j.maxAttempts) - 2 + (j.maxAttempts - 1)))
  {
    RunKeepsExact(s, run);
    var j := Play(s, run).jobs[id];
    assert Exact(Play(s, run), id);
    if j.status == Dead && j.attempts == j.maxAttempts <= 9 {
      BaseWaitClosed(j.maxAttempts - 1);
    }
  }

  // ---- a reap of a live worker's job ----

  /** The hypothesis on the reaper is exact: of all steps, only a reap of a job that some live
      worker holds breaks the ownership of rows. */
  lemma GuardIsExact(s: Sys, step: Step)
    requires Owned(s) && Enabled(s, step)
    ensures Owned(Next(s, step)) <==> Guarded(s, step)
  {
    if Guarded(s, step) {
      StepKeepsOwned(s, step);
    } else {
      ReapBreaksOwned(s);
    }
  }

  lemma ReapBreaksOwned(s: Sys)
    requires Owned(s) && !ReapsOnlyOrphans(s)
    ensures !Owned(Next(s, Reap))
  {
    var id :| id in s.jobs && Stuck(s.jobs[id], s.now) && HeldByLive(s, id);
    var w :| w in s.workers && id in s.workers[w].held;
    var t := Next(s, Reap);
    assert Holds(t, w, id) && !HeldOk(t, w, id);
  }

  /** Nothing that others do changes what a worker holds. */
  lemma Bystander(s: Sys, step: Step, w: string)
    requires Enabled(s, step) && w in s.workers
    requires step.Reap? || ((step.LockRows? || step.CommitClaim? || step.Dispatch?) && step.w != w)
    ensures w in Next(s, step).workers && Next(s, step).workers[w] == s.workers[w]
  {
    hide LowestOf, MarkClaimed, ReapStuck, HeldAfterCommit, LockedBy;
  }

  lemma ClaimedIsReady(s: Sys, v: string, ids: set<nat>, id: nat)
    requires Enabled(s, LockRows(v, ids)) && id in ids && id in s.jobs
    ensures var b := Next(s, LockRows(v, ids));
      Enabled(b, CommitClaim(v)) && Enabled(Next(b, CommitClaim(v)), Dispatch(v, id))
  {
    hide LowestOf;
  }

  /** The worker goes on with what it holds: a job reaped before its dispatch is dispatched by
      it all the same, and also by whoever claims it next. */
  lemma ReapedJobRunsTwice(s: Sys, w: string, v: string, id: nat, ids: set<nat>)
    requires Owned(s) && Holds(s, w, id) && id in s.workers[w].ready && Stuck(s.jobs[id], s.now)
    requires v != w && id in ids && Enabled(Next(s, Reap), LockRows(v, ids))
    ensures Enabled(Next(s, Reap), Dispatch(w, id))
    ensures var b := Next(Next(s, Reap), LockRows(v, ids));
      && Enabled(b, CommitClaim(v))
      && var c := Next(b, CommitClaim(v));
         && Enabled(c, Dispatch(w, id)) && Enabled(c, Dispatch(v, id))
         && Enabled(Next(c, Dispatch(w, id)), Dispatch(v, id))
  {
    assert HeldOk(s, w, id);
    var a := Next(s, Reap);
    assert id in a.jobs;
    Bystander(s, Reap, w);
    ClaimedIsReady(a, v, ids, id);
    hide Next, Owned, LowestOf;
    Bystander(a, LockRows(v, ids), w);
    var b := Next(a, LockRows(v, ids));
    Bystander(b, CommitClaim(v), w);
    Bystander(Next(b, CommitClaim(v)), Dispatch(w, id), v);
  }

  /** When finishing a job loses a request: the row leaves the queue for good, and some owed key
      had no other job waiting. By id alone this can be a row that was reaped and requested
      again meanwhile. */
  lemma FinishLosesExactly(s: Sys, w: string, id: nat, outcome: Outcome, jitter: nat)
    requires NothingLost(s) && Enabled(s, Finish(w, id, outcome, jitter)) && id in s.jobs
    requires s.workers[w].held[id].id == id
    ensures NothingLost(Next(s, Finish(w, id, outcome, jitter))) <==>
      || Requeues(s.workers[w].held[id], outcome)
      || forall key <- s.owed :: exists x :: x != id && Awaiting(s, x, key)
  {
    var t := Next(s, Finish(w, id, outcome, jitter));
    hide BackoffDelay;
    forall x, key
      ensures x != id ==> (Awaiting(t, x, key) <==> Awaiting(s, x, key))
      ensures Awaiting(s, id, key) && Requeues(s.workers[w].held[id], outcome) ==> Awaiting(t, id, key)
      ensures Awaiting(t, id, key) ==> Requeues(s.workers[w].held[id], outcome)
    {
    }
    hide Awaiting, Next, Enabled;
    if NothingLost(t) && !Requeues(s.workers[w].held[id], outcome) {
      forall key <- s.owed
        ensures exists x :: x != id && Awaiting(s, x, key)
      {
        var x :| Awaiting(t, x, key);
      }
    }
    if forall key <- s.owed :: exists x :: x != id && Awaiting(s, x, key) {
      forall key <- t.owed
        ensures exists x :: Awaiting(t, x, key)
      {
        var x :| x != id && Awaiting(s, x, key);
        assert Awaiting(t, x, key);
      }
    }
    if Requeues(s.workers[w].held[id], outcome) {
      forall key <- t.owed
        ensures exists x :: Awaiting(t, x, key)
      {
        var x :| Awaiting(s, x, key);
        assert Awaiting(t, x, key);
      }
    }
  }

  /** The outcome puts the row back. */
  predicate Requeues(c: Claimed, outcome: Outcome) {
    outcome == Released || (outcome == FailedRetryable && c.attempts < c.maxAttempts)
  }

  /** A worker is still running a dispatched job whose lock went stale; the reaper takes the
      job back; a new request finds it pending and adds nothing; then the worker finishes,
      by id. Nothing is left that would serve the request. */
  lemma ReapingALiveJobLosesARequest(s: Sys, w: string, id: nat, jitter: nat)
    requires Owned(s) && Holds(s, w, id) && id !in s.workers[w].ready && jitter < 1000
    requires Stuck(s.jobs[id], s.now)
    requires forall x <- s.jobs :: x != id && s.jobs[x].key == s.jobs[id].key ==>
      s.jobs[x].status == Completed || s.jobs[x].status == Dead
    ensures !ReapsOnlyOrphans(s)
    ensures var key := s.jobs[id].key;
      var a := Next(s, Reap);
      var b := Next(a, Request(key, 0, true));
      && Enabled(b, Finish(w, id, Succeeded, jitter))
      && var c := Next(b, Finish(w, id, Succeeded, jitter));
         key in c.owed && !exists x :: Awaiting(c, x, key)
  {
    assert HeldOk(s, w, id) && HeldByLive(s, id);
    var key := s.jobs[id].key;
    var a := Next(s, Reap);
    assert a.jobs[id].status == Pending && Queued(a.jobs, key);
    var b := Next(a, Request(key, 0, true));
    var c := Next(b, Finish(w, id, Succeeded, jitter));
    forall x
      ensures !Awaiting(c, x, key)
    {
      if x in c.jobs && x != id && c.jobs[x].key == key {
        assert c.jobs[x] == a.jobs[x] && a.jobs[x].status == s.jobs[x].status;
      }
    }
  }

  // ---- such a state is reachable ----

  const KEY := JobKey("config_sync", ["g", "r"])
  const W := "worker"
  const FIRST := NewJob(KEY, 0)
  const RUNNING := FIRST.(status := InProgress, attempts := 1, lockedBy := Some(W), lockedAt := Some(0))
  const MINE := Claimed(0, KEY, 1, DEFAULT_MAX_ATTEMPTS)
  const TO_STALE_LOCK := [
    Request(KEY, 0, true), StartWorker(W), LockRows(W, {0}), CommitClaim(W), Dispatch(W, 0),
    Tick(STUCK_LOCK_MS + 1)]

  const S1 := Sys(map[0 := FIRST], 1, 0, map[], {}, {KEY}, map[], map[])
  const S2 := S1.(workers := map[W := IDLE])
  const S3 := S1.(workers := map[W := IDLE.(locking := {0})])
  const S4 := S3.(jobs := map[0 := RUNNING], workers := map[W := Worker({}, map[0 := MINE], {0})], unstarted := {0})
  const S5 := S4.(workers := map[W := Worker({}, map[0 := MINE], {})], unstarted := {}, owed := {})
  const S6 := S5.(now := STUCK_LOCK_MS + 1)

  lemma FirstSteps()
    ensures Guarded(EMPTY, Request(KEY, 0, true)) && Next(EMPTY, Request(KEY, 0, true)) == S1
    ensures Guarded(S1, StartWorker(W)) && Next(S1, StartWorker(W)) == S2
  {
    assert map[][0 := FIRST] == map[0 := FIRST];
  }

  lemma ClaimSteps()
    ensures Guarded(S2, LockRows(W, {0})) && Next(S2, LockRows(W, {0})) == S3
    ensures Guarded(S3, CommitClaim(W)) && Next(S3, CommitClaim(W)) == S4
  {
    assert LockedRows(S2) == {};
    assert Claimable(S2.jobs, {}, 0) == {0};
    assert MarkClaimed(map[0 := FIRST], {0}, W, 0) == map[0 := RUNNING];
    assert HeldAfterCommit(map[0 := RUNNING], {0}) == map[0 := MINE];
    assert map[] + map[0 := MINE] == map[0 := MINE];
  }

  lemma LastSteps()
    ensures Guarded(S4, Dispatch(W, 0)) && Next(S4, Dispatch(W, 0)) == S5
    ensures Guarded(S5, Tick(STUCK_LOCK_MS + 1)) && Next(S5, Tick(STUCK_LOCK_MS + 1)) == S6
  {
    assert {0} - {0} == {} && {KEY} - {KEY} == {};
  }

  lemma PlayStep(s: Sys, step: Step, rest: seq<Step>)
    requires Guarded(s, step) && GuardedRun(Next(s, step), rest)
    ensures GuardedRun(s, [step] + rest) && Play(s, [step] + rest) == Play(Next(s, step), rest)
  {
    assert ([step] + rest)[1..] == rest;
  }

  /** A guarded run from the empty queue reaches the premise of the lemma above. */
  lemma StaleLockIsReachable()
    ensures GuardedRun(EMPTY, TO_STALE_LOCK)
    ensures var s := Play(EMPTY, TO_STALE_LOCK);
      && Owned(s) && Holds(s, W, 0) && 0 !in s.unstarted && Stuck(s.jobs[0], s.now)
      && forall x <- s.jobs :: x == 0
  {
    FirstSteps();
    ClaimSteps();
    LastSteps();
    hide Next, Guarded;
    var xs := TO_STALE_LOCK;
    PlayStep(S5, xs[5], []);
    PlayStep(S4, xs[4], xs[5..]);
    PlayStep(S3, xs[3], xs[4..]);
    PlayStep(S2, xs[2], xs[3..]);
    PlayStep(S1, xs[1], xs[2..]);
    PlayStep(EMPTY, xs[0], xs[1..]);
    assert [xs[5]] + [] == xs[5..] && [xs[4]] + xs[5..] == xs[4..] && [xs[3]] + xs[4..] == xs[3..];
    assert [xs[2]] + xs[3..] == xs[2..] && [xs[1]] + xs[2..] == xs[1..] && [xs[0]] + xs[1..] == xs;
    assert Play(EMPTY, xs) == S6;
    RunKeepsInv(EMPTY, xs);
  }
}
