/** The local mirror agrees with the remote sets over every run, and the bulk path and
    the single-member path agree with each other. */
module SyncProperties {
  import opened Wrappers
  import opened Rules
  import opened ConditionEval
  import opened Seqs
  import opened RoleLogic
  import opened Sql
  import opened RuleValidator
  import opened RuleEquivalence
  import opened BulkQuery
  import opened Sync
  import Jobs

  // ---- mirror equality over runs ----

  /** Every live link's assignments are the remote user set. */
  ghost predicate MirrorsRemote(st: State) {
    && st.assignments.Keys == st.links.Keys
    && forall k <- st.links :: k in st.remote && st.assignments[k] == st.remote[k]
  }

  /** A job, a registration (which keeps the assignments of a known link, whatever list the
      remote side starts it with), a saved rule or account, or a deletion. The facts, opt-outs
      and answers of each job are arbitrary. */
  datatype Step =
    | PlayerJob(d: string, guilds: set<string>, facts: FactsTable, w: World, answers: LinkKey -> Answer)
    | BulkJob(k: LinkKey, limit: Result<nat, ApiError>, ids: seq<string>, put: Answer)
    | Register(k: LinkKey, users: set<string>)
    | Configure(k: LinkKey, link: RoleLink)
    | Unregister(k: LinkKey)

  function Next(st: State, step: Step): State {
    match step
    case PlayerJob(d, guilds, facts, w, answers) => PlayerStep(st, d, guilds, facts, w, answers)
    case BulkJob(k, limit, ids, put) => BulkStep(st, k, limit, ids, put).0
    case Register(k, users) =>
      if k in st.links then st.(remote := st.remote[k := users])
      else State(st.links[k := RoleLink(None, RuleTree(false, []))], st.assignments[k := {}], st.remote[k := users])
    case Configure(k, link) => if k in st.links then st.(links := st.links[k := link]) else st
    case Unregister(k) => Orphaned(st, k)
  }

  function RunSteps(st: State, steps: seq<Step>): State
    decreases |steps|
  {
    if steps == [] then st else RunSteps(Next(st, steps[0]), steps[1..])
  }

  // ---- how far the mirror is off ----

  function Apart(a: set<string>, b: set<string>): set<string> {
    (a - b) + (b - a)
  }

  /** The members on whom the assignments and the remote set of a link differ. */
  function Drift(st: State, k: LinkKey): set<string> {
    Apart(SetAt(st.assignments, k), SetAt(st.remote, k))
  }

  /** What the program itself can see. */
  function Local(st: State): State {
    st.(remote := map[])
  }

  /** The whole set a bulk job writes, if it makes the call. */
  function BulkWrite(st: State, k: LinkKey, limit: Result<nat, ApiError>, ids: seq<string>): Option<set<string>> {
    if k !in st.links then None
    else if Nobody(st.links[k]) then (if SetAt(st.assignments, k) == {} then None else Some({}))
    else if limit.Err? || SetAt(st.assignments, k) == Elements(ids) then None
    else Some(Elements(ids))
  }

  /** The drift after a step, from the local tables and the fate of the step's writes alone: an
      acknowledged write of one member settles that member, an unrecorded one sets it apart;
      an acknowledged write of the whole set settles everyone, an unrecorded one leaves what
      the two lists differ by, and so does a remote list that was created anew. */
  function DriftAfter(local: State, k: LinkKey, drift: set<string>, step: Step): set<string> {
    match step
    case PlayerJob(d, guilds, facts, w, answers) =>
      if k !in Considered(local, guilds) || answers(k).Rejected? then drift
      else if PlayerAction(local, k, d, facts, w) == Keep then drift
      else if answers(k).Accepted? then drift - {d}
      else drift + {d}
    case BulkJob(x, limit, ids, put) =>
      var users := BulkWrite(local, k, limit, ids);
      if x != k || users.None? || put.Rejected? then drift
      else if put.Accepted? then {}
      else Apart(SetAt(local.assignments, k), users.value)
    case Register(x, users) =>
      if x != k then drift
      else Apart(if k in local.links then SetAt(local.assignments, k) else {}, users)
    case _ => drift
  }

  function RunDrift(st: State, steps: seq<Step>, k: LinkKey, drift: set<string>): set<string>
    decreases |steps|
  {
    if steps == [] then drift
    else RunDrift(Next(st, steps[0]), steps[1..], k, DriftAfter(Local(st), k, drift, steps[0]))
  }

  /** The two sets of one link after a member's job. */
  lemma PlayerSets(st: State, k: LinkKey, d: string, guilds: set<string>, facts: FactsTable, w: World,
                   answers: LinkKey -> Answer)
    requires k in st.links
    ensures var u := PlayerStep(st, d, guilds, facts, w, answers);
      var calls := k.guild in guilds && PlayerAction(st, k, d, facts, w) != Keep;
      k in u.links ==>
        && SetAt(u.assignments, k) ==
             (if calls && answers(k).Accepted? then Act(SetAt(st.assignments, k), d, PlayerAction(st, k, d, facts, w))
              else SetAt(st.assignments, k))
        && SetAt(u.remote, k) ==
             (if calls && !answers(k).Rejected? then Act(SetAt(st.remote, k), d, PlayerAction(st, k, d, facts, w))
              else SetAt(st.remote, k))
  {
    hide PlayerAction, Act;
  }

  lemma PlayerDrift(st: State, k: LinkKey, d: string, guilds: set<string>, facts: FactsTable, w: World,
                    answers: LinkKey -> Answer)
    requires k in st.links
    ensures var u := PlayerStep(st, d, guilds, facts, w, answers);
      k in u.links ==>
        Drift(u, k) == DriftAfter(Local(st), k, Drift(st, k), PlayerJob(d, guilds, facts, w, answers))
  {
    var a, b := SetAt(st.assignments, k), SetAt(st.remote, k);
    LocalAction(st, k, d, facts, w);
    ActionChanges(st, k, d, facts, w);
    ApartLaws(a, b, d);
    hide Apart, PlayerAction, PlayerStep;
    PlayerSets(st, k, d, guilds, facts, w, answers);
  }

  lemma LocalAction(st: State, k: LinkKey, d: string, facts: FactsTable, w: World)
    requires k in st.links
    ensures PlayerAction(Local(st), k, d, facts, w) == PlayerAction(st, k, d, facts, w)
  {
    hide Qualifies;
  }

  lemma ActionChanges(st: State, k: LinkKey, d: string, facts: FactsTable, w: World)
    requires k in st.links
    ensures PlayerAction(st, k, d, facts, w) == Add ==> d !in SetAt(st.assignments, k)
    ensures PlayerAction(st, k, d, facts, w) == Remove ==> d in SetAt(st.assignments, k)
  {
    hide Qualifies;
  }

  lemma ApartLaws(a: set<string>, b: set<string>, d: string)
    ensures Apart(a + {d}, b + {d}) == Apart(a, b) - {d}
    ensures Apart(a - {d}, b - {d}) == Apart(a, b) - {d}
    ensures d !in a ==> Apart(a, b + {d}) == Apart(a, b) + {d}
    ensures d in a ==> Apart(a, b - {d}) == Apart(a, b) + {d}
  {
  }

  lemma ReplaceSets(st: State, x: LinkKey, users: set<string>, put: Answer, k: LinkKey)
    ensures var u := Replace(st, x, users, put).0;
      k in u.links ==>
        && SetAt(u.assignments, k) == (if x == k && put.Accepted? then users else SetAt(st.assignments, k))
        && SetAt(u.remote, k) == (if x == k && !put.Rejected? then users else SetAt(st.remote, k))
  {
  }

  /** A bulk job of another link changes neither set; one of this link that writes nothing
      leaves the state; the others replace both sets, or the remote one, or neither. */
  lemma BulkSets(st: State, k: LinkKey, x: LinkKey, limit: Result<nat, ApiError>, ids: seq<string>, put: Answer)
    requires k in st.links
    ensures var u := BulkStep(st, x, limit, ids, put).0;
      var users := BulkWrite(st, k, limit, ids);
      k in u.links ==>
        && SetAt(u.assignments, k) ==
             (if x == k && users.Some? && put.Accepted? then users.value else SetAt(st.assignments, k))
        && SetAt(u.remote, k) ==
             (if x == k && users.Some? && !put.Rejected? then users.value else SetAt(st.remote, k))
  {
    BulkIsReplace(st, x, limit, ids, put);
    var users := BulkWrite(st, x, limit, ids);
    hide Elements, Replace, BulkStep, BulkWrite;
    if users.Some? {
      ReplaceSets(st, x, users.value, put, k);
    }
  }

  lemma BulkIsReplace(st: State, x: LinkKey, limit: Result<nat, ApiError>, ids: seq<string>, put: Answer)
    ensures var u := BulkStep(st, x, limit, ids, put).0;
      var users := BulkWrite(st, x, limit, ids);
      && (users.Some? ==> u == Replace(st, x, users.value, put).0)
      && (users.None? ==> u == st || u == Orphaned(st, x))
  {
    hide Elements, Replace, Orphaned;
  }

  lemma BulkDrift(st: State, k: LinkKey, x: LinkKey, limit: Result<nat, ApiError>, ids: seq<string>, put: Answer)
    requires k in st.links
    ensures var u := BulkStep(st, x, limit, ids, put).0;
      k in u.links ==> Drift(u, k) == DriftAfter(Local(st), k, Drift(st, k), BulkJob(x, limit, ids, put))
  {
    var users := BulkWrite(st, k, limit, ids);
    assert users.Some? ==> Apart(users.value, users.value) == {};
    assert BulkWrite(Local(st), k, limit, ids) == users;
    BulkSets(st, k, x, limit, ids, put);
    hide BulkStep, BulkWrite, Elements, Apart;
  }

  /** One step changes the drift of a live link exactly as `DriftAfter` says. */
  lemma StepDrift(st: State, k: LinkKey, drift: set<string>, step: Step)
    requires k in st.links ==> Drift(st, k) == drift
    ensures k in Next(st, step).links ==> Drift(Next(st, step), k) == DriftAfter(Local(st), k, drift, step)
  {
    hide Apart, PlayerAction, Elements;
    match step {
      case PlayerJob(d, guilds, facts, w, answers) =>
        if k in st.links {
          PlayerDrift(st, k, d, guilds, facts, w, answers);
        }
      case BulkJob(x, limit, ids, put) =>
        if k in st.links {
          BulkDrift(st, k, x, limit, ids, put);
        }
      case _ =>
    }
  }

  lemma {:induction false} RunDrifts(st: State, steps: seq<Step>, k: LinkKey, drift: set<string>)
    requires k in st.links ==> Drift(st, k) == drift
    ensures k in RunSteps(st, steps).links ==> Drift(RunSteps(st, steps), k) == RunDrift(st, steps, k, drift)
    decreases |steps|
  {
    hide Next, Drift, DriftAfter, Local;
    if steps != [] {
      StepDrift(st, k, drift, steps[0]);
      RunDrifts(Next(st, steps[0]), steps[1..], k, DriftAfter(Local(st), k, drift, steps[0]));
    }
  }

  const EMPTY := State(map[], map[], map[])

  lemma EmptyDrift(a: set<string>, b: set<string>)
    ensures Apart(a, b) == {} <==> a == b
  {
    if Apart(a, b) == {} {
      forall x
        ensures x in a <==> x in b
      {
        assert x !in Apart(a, b);
      }
    }
  }

  /** Over every run from the empty tables, with player syncs, bulk syncs, drains, holds, inactive
      links, limit errors, orphan deletions, configuration changes, lost replies, failed local
      writes and lists created anew: a live link's assignments equal the remote set if and only
      if the drift, followed from the program's side, is empty. */
  lemma MirrorEqualsExactly(steps: seq<Step>, k: LinkKey)
    ensures var st := RunSteps(EMPTY, steps);
      k in st.links ==> (SetAt(st.assignments, k) == SetAt(st.remote, k) <==> RunDrift(EMPTY, steps, k, {}) == {})
  {
    RunDrifts(EMPTY, steps, k, {});
    var st := RunSteps(EMPTY, steps);
    EmptyDrift(SetAt(st.assignments, k), SetAt(st.remote, k));
  }

  /** When a bulk job skips its upload because the lists are equal, the remote set is the computed
      set if and only if the drift is empty. */
  lemma SkippedUploadExactly(steps: seq<Step>, k: LinkKey, ids: seq<string>)
    ensures var st := RunSteps(EMPTY, steps);
      k in st.links && SetAt(st.assignments, k) == Elements(ids) ==>
        (SetAt(st.remote, k) == Elements(ids) <==> RunDrift(EMPTY, steps, k, {}) == {})
  {
    MirrorEqualsExactly(steps, k);
    hide RunSteps, RunDrift;
  }

  /** The step loses no write to the link and leaves its remote list alone. */
  predicate Recorded(local: State, k: LinkKey, step: Step) {
    match step
    case PlayerJob(_, _, _, _, answers) => !answers(k).Unrecorded?
    case BulkJob(x, _, _, put) => x == k ==> !put.Unrecorded?
    case Register(x, users) => x == k ==> users == if k in local.links then SetAt(local.assignments, k) else {}
    case _ => true
  }

  predicate AllRecorded(st: State, steps: seq<Step>, k: LinkKey)
    decreases |steps|
  {
    steps == [] || (Recorded(Local(st), k, steps[0]) && AllRecorded(Next(st, steps[0]), steps[1..], k))
  }

  lemma {:induction false} RecordedKeepsSettled(st: State, steps: seq<Step>, k: LinkKey)
    requires AllRecorded(st, steps, k)
    ensures RunDrift(st, steps, k, {}) == {}
    decreases |steps|
  {
    if steps != [] {
      assert DriftAfter(Local(st), k, {}, steps[0]) == {};
      hide Next, DriftAfter, Recorded, Local;
      RecordedKeepsSettled(Next(st, steps[0]), steps[1..], k);
    }
  }

  /** Whatever was lost before, after an acknowledged write of the whole set the mirror is equal
      for as long as nothing is lost again. */
  lemma ReplaceSettles(st: State, k: LinkKey, limit: Result<nat, ApiError>, ids: seq<string>, rest: seq<Step>)
    requires BulkWrite(st, k, limit, ids).Some?
    requires AllRecorded(Next(st, BulkJob(k, limit, ids, Accepted)), rest, k)
    ensures var u := RunSteps(st, [BulkJob(k, limit, ids, Accepted)] + rest);
      k in u.links ==> SetAt(u.assignments, k) == SetAt(u.remote, k)
  {
    var step := BulkJob(k, limit, ids, Accepted);
    var steps := [step] + rest;
    assert steps[1..] == rest;
    RunDrifts(st, steps, k, Drift(st, k));
    assert DriftAfter(Local(st), k, Drift(st, k), step) == {};
    RecordedKeepsSettled(Next(st, step), rest, k);
    var u := RunSteps(st, steps);
    EmptyDrift(SetAt(u.assignments, k), SetAt(u.remote, k));
    hide Next, DriftAfter, RunSteps;
  }

  /** Hence, if no write of a run was lost and no list created anew, every live link's assignments
      equal the remote user set. */
  lemma RunKeepsMirror(steps: seq<Step>)
    requires forall k: LinkKey :: AllRecorded(EMPTY, steps, k)
    ensures MirrorsRemote(RunSteps(EMPTY, steps))
  {
    var st := RunSteps(EMPTY, steps);
    KeysAgree(EMPTY, steps);
    forall k <- st.links
      ensures SetAt(st.assignments, k) == SetAt(st.remote, k)
    {
      RecordedKeepsSettled(EMPTY, steps, k);
      MirrorEqualsExactly(steps, k);
    }
  }

  lemma StepKeepsKeys(st: State, step: Step)
    requires st.assignments.Keys == st.links.Keys <= st.remote.Keys
    ensures Next(st, step).assignments.Keys == Next(st, step).links.Keys <= Next(st, step).remote.Keys
  {
    hide PlayerAction, Act, Elements;
  }

  lemma {:induction false} KeysAgree(st: State, steps: seq<Step>)
    requires st.assignments.Keys == st.links.Keys <= st.remote.Keys
    ensures var u := RunSteps(st, steps); u.assignments.Keys == u.links.Keys <= u.remote.Keys
    decreases |steps|
  {
    hide Next;
    if steps != [] {
      StepKeepsKeys(st, steps[0]);
      KeysAgree(Next(st, steps[0]), steps[1..]);
    }
  }

  /** The shortcut is sound: whenever a bulk job skips its upload because the lists are equal, and
      nothing was lost, the remote set already is the computed set. */
  lemma SkippedUploadIsRedundant(steps: seq<Step>, k: LinkKey, ids: seq<string>)
    requires AllRecorded(EMPTY, steps, k)
    ensures var st := RunSteps(EMPTY, steps);
      k in st.links && SetAt(st.assignments, k) == Elements(ids) ==> SetAt(st.remote, k) == Elements(ids)
  {
    RecordedKeepsSettled(EMPTY, steps, k);
    SkippedUploadExactly(steps, k, ids);
  }

  /** A held write leaves exactly one more pending re-check of its link, or the one already
      waiting. */
  lemma HeldWriteIsRechecked(jobs: Jobs.Table, nextId: nat, k: LinkKey, now: int)
    requires forall id <- jobs :: id < nextId
    ensures var after := Rechecked(jobs, nextId, k, now, HeldForOwner);
      && Jobs.Queued(after, ConfigSync(k))
      && (if Jobs.Queued(jobs, ConfigSync(k)) then after == jobs
          else after.Keys == jobs.Keys + {nextId} && after[nextId].nextRun == now + HELD_RECHECK_MS)
  {
    if !Jobs.Queued(jobs, ConfigSync(k)) {
      var after := Rechecked(jobs, nextId, k, now, HeldForOwner);
      assert after[nextId].key == ConfigSync(k) && after[nextId].status == Jobs.Pending;
    }
  }

  // ---- what the bulk query selects ----

  /** On a saved rule the executed query selects exactly the account's members who have
      not opted out and on whom the clause's verdict is positive. */
  lemma SelectedMembers(tree: RuleTree, account: int, optouts: seq<string>, limit: nat, facts: FactsTable, w: World)
    requires ValidTree(tree, w)
    ensures forall d :: d in Selected(tree, account, optouts, limit, facts, w) <==>
      (account, d) in facts && d !in optouts && ClauseVerdict(tree, facts[(account, d)], w)
  {
    hide ClauseVerdict, ValidTree;
    forall key <- facts
      ensures RowSelected(tree, account, optouts, limit, key, facts[key], w)
        <==> key.0 == account && key.1 !in optouts && ClauseVerdict(tree, facts[key], w)
    {
      QueryParsesBack(tree);
      QuerySelects(tree, account, optouts, limit, Row(key.0, key.1, facts[key]), w);
    }
    hide RowSelected;
    forall d
      ensures d in Selected(tree, account, optouts, limit, facts, w) <==>
        (account, d) in facts && d !in optouts && ClauseVerdict(tree, facts[(account, d)], w)
    {
      if (account, d) in facts && d !in optouts && ClauseVerdict(tree, facts[(account, d)], w) {
        assert (account, d) in SelectedRows(tree, account, optouts, limit, facts, w);
      }
    }
  }

  /** The cut list: selected members only, and all of them unless it is full. */
  lemma {:induction false} CutList(ids: seq<string>, users: set<string>, limit: nat)
    requires FirstIds(ids, users, limit)
    ensures Elements(ids) <= users && |Elements(ids)| == |ids| <= limit
    ensures Elements(ids) == users || |ids| == limit
    ensures forall x <- ids, y <- users :: y !in ids ==> Less(x, y)
  {
    var full :| Lists(full, users) && ids == if |full| <= limit then full else full[..limit];
    StrictSize(ids);
    assert forall j | 0 <= j < |ids| :: full[j] == ids[j] && full[j] in ids;
    forall x <- ids, y <- users | y !in ids
      ensures Less(x, y)
    {
      assert y in full;
      var i :| 0 <= i < |ids| && ids[i] == x;
      var j :| 0 <= j < |full| && full[j] == y;
      assert full[i] == x;
    }
  }

  lemma {:induction false} StrictSize(ids: seq<string>)
    requires StrictlyAscending(ids)
    ensures |Elements(ids)| == |ids|
  {
    if ids != [] {
      var init, last := ids[..|ids| - 1], ids[|ids| - 1];
      StrictSize(init);
      forall i | 0 <= i < |init|
        ensures init[i] != last
      {
        assert Less(ids[i], ids[|ids| - 1]);
        LessTrichotomy(last, last);
      }
      assert forall x :: x in ids <==> x in init || x == last;
      assert Elements(ids) == Elements(init) + {last};
    }
  }

  // ---- bulk against single member ----

  /** What a successful bulk sync establishes for its link. */
  ghost predicate BulkSynced(st: State, k: LinkKey, facts: FactsTable, optouts: seq<string>, limit: nat, w: World) {
    && k in st.links
    && if Nobody(st.links[k]) then SetAt(st.assignments, k) == {}
       else
         var link := st.links[k];
         exists ids: seq<string> ::
           && FirstIds(ids, Selected(link.tree, link.account.value, optouts, limit, facts, w), limit)
           && SetAt(st.assignments, k) == Elements(ids)
  }

  /** The bulk job of a link, with the query's result, ends in success. */
  ghost predicate BulkSucceeds(st: State, k: LinkKey, limit: nat, ids: seq<string>, put: Answer,
                               facts: FactsTable, optouts: seq<string>, w: World)
  {
    QueryOk(st, k, Ok(limit), ids, facts, optouts, w) && BulkStep(st, k, Ok(limit), ids, put).1 == Synced
  }

  lemma BulkStepSyncs(st: State, k: LinkKey, limit: nat, ids: seq<string>, put: Answer,
                      facts: FactsTable, optouts: seq<string>, w: World)
    requires BulkSucceeds(st, k, limit, ids, put, facts, optouts, w)
    ensures var u := BulkStep(st, k, Ok(limit), ids, put).0;
      BulkSynced(u, k, facts, optouts, limit, w) && k in st.links && u.links == st.links
  {
    hide Selected, FirstIds;
  }

  /** On the member's row the clause and the evaluator decide alike. */
  ghost predicate DecidedAlike(link: RoleLink, d: string, facts: FactsTable, w: World) {
    link.account.Some? && (link.account.value, d) in facts ==>
      var f := facts[(link.account.value, d)];
      ClauseVerdict(link.tree, f, w) <==> Evaluate(link.tree, f, w)
  }

  lemma SafeRowsDecideAlike(link: RoleLink, d: string, facts: FactsTable, w: World)
    requires link.account.Some? && (link.account.value, d) in facts ==>
      forall g <- link.tree.groups, c <- g.conditions :: !Diverges(c, facts[(link.account.value, d)], w.now)
    ensures DecidedAlike(link, d, facts, w)
  {
    hide Evaluate, ClauseVerdict, Diverges;
    if link.account.Some? && (link.account.value, d) in facts {
      VerdictsAgree(link.tree, facts[(link.account.value, d)], w);
    }
  }

  lemma SyncedActions(st: State, k: LinkKey, facts: FactsTable, optouts: seq<string>, limit: nat, w: World, d: string)
    requires BulkSynced(st, k, facts, optouts, limit, w) && ValidTree(st.links[k].tree, w)
    requires d !in optouts && DecidedAlike(st.links[k], d, facts, w)
    ensures var action := PlayerAction(st, k, d, facts, w);
      action != Keep ==> action == Add && !Nobody(st.links[k]) && |SetAt(st.assignments, k)| == limit
  {
    var link := st.links[k];
    hide Evaluate, ClauseVerdict, Selected, FirstIds, ValidTree;
    if Nobody(link) {
      NobodyQualifies(link, d, facts, w);
    } else {
      var ids :| FirstIds(ids, Selected(link.tree, link.account.value, optouts, limit, facts, w), limit)
        && SetAt(st.assignments, k) == Elements(ids);
      SelectedMembers(link.tree, link.account.value, optouts, limit, facts, w);
      CutList(ids, Selected(link.tree, link.account.value, optouts, limit, facts, w), limit);
    }
  }

  lemma NobodyQualifies(link: RoleLink, d: string, facts: FactsTable, w: World)
    requires Nobody(link)
    ensures !Qualifies(link, d, facts, w)
  {
  }

  /** After a successful bulk sync, with facts, rule and opt-outs fixed, a single-member
      sync makes no call for the link, except one add when the limit cut the member off. */
  lemma OnlyTruncatedAdds(st: State, k: LinkKey, limit: nat, ids: seq<string>, put: Answer,
                          facts: FactsTable, optouts: seq<string>, w: World, d: string)
    requires BulkSucceeds(st, k, limit, ids, put, facts, optouts, w)
    requires k in st.links && ValidTree(st.links[k].tree, w) && d !in optouts && DecidedAlike(st.links[k], d, facts, w)
    ensures var u := BulkStep(st, k, Ok(limit), ids, put).0;
      && k in u.links
      && var action := PlayerAction(u, k, d, facts, w);
         action != Keep ==> action == Add && !Nobody(u.links[k]) && |SetAt(u.assignments, k)| == limit
  {
    BulkStepSyncs(st, k, limit, ids, put, facts, optouts, w);
    hide BulkSynced, BulkSucceeds, BulkStep, ValidTree, DecidedAlike, PlayerAction;
    SyncedActions(BulkStep(st, k, Ok(limit), ids, put).0, k, facts, optouts, limit, w, d);
  }

  /** An honest remote refuses an add for its limit once the set is full. */
  predicate RefusesWhenFull(st: State, k: LinkKey, limit: nat, answer: Answer) {
    |SetAt(st.remote, k)| >= limit ==> answer == Rejected(LimitReached)
  }

  lemma BulkKeepsSettled(st: State, k: LinkKey, limit: nat, ids: seq<string>, put: Answer)
    requires Drift(st, k) == {} && k in st.links && BulkStep(st, k, Ok(limit), ids, put).1 == Synced
    ensures var u := BulkStep(st, k, Ok(limit), ids, put).0; SetAt(u.assignments, k) == SetAt(u.remote, k)
  {
    EmptyDrift(SetAt(st.assignments, k), SetAt(st.remote, k));
    hide Apart, Elements;
  }

  /** Hence, on a link without drift, a single-member sync that follows leaves the link, its
      assignments and its remote set as the bulk sync made them. */
  lemma SingleMemberSyncAgrees(st: State, k: LinkKey, limit: nat, ids: seq<string>, put: Answer,
                               facts: FactsTable, optouts: seq<string>, w: World,
                               d: string, guilds: set<string>, answers: LinkKey -> Answer)
    requires BulkSucceeds(st, k, limit, ids, put, facts, optouts, w)
    requires k in st.links && ValidTree(st.links[k].tree, w) && Drift(st, k) == {}
    requires k.guild in guilds ==> d !in optouts
    requires DecidedAlike(st.links[k], d, facts, w)
    requires RefusesWhenFull(BulkStep(st, k, Ok(limit), ids, put).0, k, limit, answers(k))
    ensures var u := BulkStep(st, k, Ok(limit), ids, put).0;
      var after := PlayerStep(u, d, guilds, facts, w, answers);
      && k in after.links && after.links[k] == st.links[k]
      && SetAt(after.assignments, k) == SetAt(u.assignments, k)
      && SetAt(after.remote, k) == SetAt(u.remote, k)
  {
    var u := BulkStep(st, k, Ok(limit), ids, put).0;
    BulkStepSyncs(st, k, limit, ids, put, facts, optouts, w);
    BulkKeepsSettled(st, k, limit, ids, put);
    if k.guild in guilds {
      OnlyTruncatedAdds(st, k, limit, ids, put, facts, optouts, w, d);
    }
    hide BulkSynced, BulkSucceeds, BulkStep, ValidTree, DecidedAlike, PlayerAction, Act, Drift;
    UncalledLink(u, k, d, guilds, facts, w, answers);
  }

  /** A member's job leaves a link alone that it makes no call for, or whose add is refused. */
  lemma UncalledLink(st: State, k: LinkKey, d: string, guilds: set<string>, facts: FactsTable, w: World,
                     answers: LinkKey -> Answer)
    requires k in st.links
    requires k.guild in guilds && PlayerAction(st, k, d, facts, w) != Keep ==> answers(k) == Rejected(LimitReached)
    ensures var after := PlayerStep(st, d, guilds, facts, w, answers);
      && k in after.links && after.links[k] == st.links[k]
      && SetAt(after.assignments, k) == SetAt(st.assignments, k)
      && SetAt(after.remote, k) == SetAt(st.remote, k)
  {
    hide PlayerAction, Act;
  }
}
