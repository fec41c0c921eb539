/** What one job leaves on a link: who holds the role after a member's sync and after a bulk sync,
    and what becomes of a link whose remote write is refused. */
module SyncOutcomes {
  import opened Wrappers
  import opened Rules
  import opened ConditionEval
  import opened Seqs
  import opened RoleLogic
  import opened RuleValidator
  import opened RuleEquivalence
  import opened Sync
  import opened SyncProperties
  import Jobs

  // ---- one member ----

  /** The member is to hold the role of the link. */
  predicate Deserves(link: RoleLink, d: string, facts: FactsTable, w: World) {
    match link.account
    case None => false
    case Some(account) => (account, d) in facts && Evaluate(link.tree, facts[(account, d)], w)
  }

  /** The member's place among the assignments is wrong. */
  predicate Misplaced(st: State, k: LinkKey, d: string, facts: FactsTable, w: World)
    requires k in st.links
  {
    (d in SetAt(st.assignments, k)) != Deserves(st.links[k], d, facts, w)
  }

  lemma ActionOnMisplaced(st: State, k: LinkKey, d: string, facts: FactsTable, w: World)
    requires k in st.links
    ensures var action := PlayerAction(st, k, d, facts, w);
      && (action == Keep <==> !Misplaced(st, k, d, facts, w))
      && (action == Add ==> Deserves(st.links[k], d, facts, w))
      && (action == Remove ==> !Deserves(st.links[k], d, facts, w))
  {
    hide Evaluate;
  }

  /** After a member's sync, on a link of one of the member's guilds whose call, if one was needed,
      was accepted: the member is assigned exactly when the link's account has a facts row of the
      member that the link's rule grants, and everybody else is assigned as before; on a link
      without drift the same holds of the remote set. */
  lemma PlayerPlaces(st: State, k: LinkKey, d: string, guilds: set<string>, facts: FactsTable, w: World,
                     answers: LinkKey -> Answer)
    requires k in st.links && k.guild in guilds && answers(k) == Accepted
    ensures var u := PlayerStep(st, d, guilds, facts, w, answers);
      var link := st.links[k];
      var granted := link.account.Some? && (link.account.value, d) in facts
                     && Evaluate(link.tree, facts[(link.account.value, d)], w);
      && k in u.links && u.links[k] == link
      && (d in SetAt(u.assignments, k) <==> granted)
      && (forall x :: x != d ==> (x in SetAt(u.assignments, k) <==> x in SetAt(st.assignments, k)))
      && (forall x :: x != d ==> (x in SetAt(u.remote, k) <==> x in SetAt(st.remote, k)))
      && (SetAt(st.assignments, k) == SetAt(st.remote, k) ==> SetAt(u.assignments, k) == SetAt(u.remote, k))
  {
    KeptLink(st, k, d, guilds, facts, w, answers);
    ActionOnMisplaced(st, k, d, facts, w);
    hide PlayerAction, PlayerStep, Evaluate;
    PlayerSets(st, k, d, guilds, facts, w, answers);
  }

  /** A link disappears in a member's sync exactly when a needed call found no such link; nothing
      else about the links changes. */
  lemma KeptLink(st: State, k: LinkKey, d: string, guilds: set<string>, facts: FactsTable, w: World,
                 answers: LinkKey -> Answer)
    requires k in st.links
    ensures var u := PlayerStep(st, d, guilds, facts, w, answers);
      && (k in u.links <==>
            !(k.guild in guilds && Misplaced(st, k, d, facts, w) && answers(k) == Rejected(LinkNotFound)))
      && (k in u.links ==> u.links[k] == st.links[k])
      && (k !in u.links ==> k !in u.assignments)
  {
    ActionOnMisplaced(st, k, d, facts, w);
    hide PlayerAction, Misplaced, Act;
  }

  /** A link is left alone whose guild the member is not in, where the member is placed right
      already, or whose call is refused for another reason; a call whose answer is lost changes
      the remote set only. */
  lemma PlayerLeaves(st: State, k: LinkKey, d: string, guilds: set<string>, facts: FactsTable, w: World,
                     answers: LinkKey -> Answer)
    requires k in st.links
    ensures var u := PlayerStep(st, d, guilds, facts, w, answers);
      var called := k.guild in guilds && Misplaced(st, k, d, facts, w);
      && (!called || (answers(k).Rejected? && answers(k).e != LinkNotFound) ==>
            && k in u.links && SetAt(u.assignments, k) == SetAt(st.assignments, k)
            && SetAt(u.remote, k) == SetAt(st.remote, k))
      && (called && answers(k) == Unrecorded ==>
            && k in u.links && SetAt(u.assignments, k) == SetAt(st.assignments, k)
            && SetAt(u.remote, k) == (if Deserves(st.links[k], d, facts, w) then SetAt(st.remote, k) + {d}
                                      else SetAt(st.remote, k) - {d}))
  {
    KeptLink(st, k, d, guilds, facts, w, answers);
    ActionOnMisplaced(st, k, d, facts, w);
    hide PlayerAction, PlayerStep, Misplaced, Deserves;
    PlayerSets(st, k, d, guilds, facts, w, answers);
  }

  /** So once every call of a sync was accepted, syncing the same member again on the same facts
      makes no call: whatever the remote would answer, nothing changes. */
  lemma SecondSyncIsIdle(st: State, d: string, guilds: set<string>, facts: FactsTable, w: World,
                         answers: LinkKey -> Answer, again: LinkKey -> Answer)
    requires forall k <- st.links :: k.guild in guilds ==> answers(k) == Accepted
    ensures var u := PlayerStep(st, d, guilds, facts, w, answers);
      && (forall k <- u.links :: k.guild in guilds ==> PlayerAction(u, k, d, facts, w) == Keep)
      && PlayerStep(u, d, guilds, facts, w, again) == u
  {
    var u := PlayerStep(st, d, guilds, facts, w, answers);
    assert u.links.Keys <= st.links.Keys;
    forall k <- u.links | k.guild in guilds
      ensures PlayerAction(u, k, d, facts, w) == Keep
    {
      PlayerPlaces(st, k, d, guilds, facts, w, answers);
      ActionOnMisplaced(u, k, d, facts, w);
    }
    hide PlayerAction, Act;
    NoCallsNoChange(u, d, guilds, facts, w, again);
  }

  lemma NoCallsNoChange(st: State, d: string, guilds: set<string>, facts: FactsTable, w: World,
                        answers: LinkKey -> Answer)
    requires forall k <- st.links :: k.guild in guilds ==> PlayerAction(st, k, d, facts, w) == Keep
    ensures PlayerStep(st, d, guilds, facts, w, answers) == st
  {
    NoneAnswered(st, d, guilds, facts, w, answers, Rejected(LinkNotFound));
    NoneAnswered(st, d, guilds, facts, w, answers, Accepted);
    NoneAnswered(st, d, guilds, facts, w, answers, Unrecorded);
    hide PlayerAction, Act, Answered, Considered, Settled;
    NothingDone(st, d, facts, w, answers);
  }

  lemma NoneAnswered(st: State, d: string, guilds: set<string>, facts: FactsTable, w: World,
                     answers: LinkKey -> Answer, answer: Answer)
    requires forall k <- st.links :: k.guild in guilds ==> PlayerAction(st, k, d, facts, w) == Keep
    ensures Answered(st, d, Considered(st, guilds), facts, w, answers, answer)
         == Answered(st, d, {}, facts, w, answers, answer)
  {
    hide PlayerAction;
    assert Answered(st, d, Considered(st, guilds), facts, w, answers, answer) == {};
  }

  // ---- one link ----

  /** After a bulk sync that succeeds, of a link whose rule was saved by the validator: every
      assigned member has a facts row of the link's account on which the clause's verdict is
      positive, and did not opt out; such a member is left out only when the limit is reached by
      members with lower ids. On a link without an account, or without a rule, nobody is. */
  lemma BulkPlaces(st: State, k: LinkKey, limit: nat, ids: seq<string>, put: Answer,
                   facts: FactsTable, optouts: seq<string>, w: World, d: string)
    requires BulkSucceeds(st, k, limit, ids, put, facts, optouts, w) && k in st.links
    ensures var u := BulkStep(st, k, Ok(limit), ids, put).0;
      var link := st.links[k];
      && u.links == st.links
      && (link.account.None? || link.tree == RuleTree(false, []) ==> d !in SetAt(u.assignments, k))
      && (link.account.Some? && ValidTree(link.tree, w) ==>
            var granted := (link.account.value, d) in facts && d !in optouts
                           && ClauseVerdict(link.tree, facts[(link.account.value, d)], w);
            && (d in SetAt(u.assignments, k) ==> granted)
            && (granted && d !in SetAt(u.assignments, k) ==>
                  |SetAt(u.assignments, k)| == limit && forall x <- SetAt(u.assignments, k) :: Less(x, d)))
  {
    BulkStepSyncs(st, k, limit, ids, put, facts, optouts, w);
    var link := st.links[k];
    assert link.account.None? || link.tree == RuleTree(false, []) ==> Nobody(link);
    assert link.account.Some? && ValidTree(link.tree, w) ==> !Nobody(link);
    hide BulkSucceeds, BulkStep, ClauseVerdict, Selected, FirstIds, ValidTree, Nobody;
    var u := BulkStep(st, k, Ok(limit), ids, put).0;
    if link.account.Some? && ValidTree(link.tree, w) {
      var selected := Selected(link.tree, link.account.value, optouts, limit, facts, w);
      var got :| FirstIds(got, selected, limit) && SetAt(u.assignments, k) == Elements(got);
      SelectedMembers(link.tree, link.account.value, optouts, limit, facts, w);
      CutList(got, selected, limit);
    }
  }

  /** The remote's refusals of a bulk write: a missing link is deleted with its assignments, and all
      other refusals leave the tables; a disabled link and a held removal are no failures. */
  lemma BulkRefused(st: State, k: LinkKey, limit: Result<nat, ApiError>, ids: seq<string>, e: ApiError)
    requires BulkWrite(st, k, limit, ids).Some?
    ensures var (u, outcome) := BulkStep(st, k, limit, ids, Rejected(e));
      && u.remote == st.remote
      && u.links == (if e == LinkNotFound then st.links - {k} else st.links)
      && u.assignments == (if e == LinkNotFound then st.assignments - {k} else st.assignments)
      && outcome == match e
                    case LinkNotFound => Gone
                    case LinkDisabled => Inactive
                    case RemovalHeld => HeldForOwner
                    case LimitReached => Failed(LimitReached)
                    case OtherError => Failed(OtherError)
  {
    hide Elements;
  }

  /** When the link's limit cannot be read nothing is written. */
  lemma LimitRefused(st: State, k: LinkKey, ids: seq<string>, e: ApiError, put: Answer)
    requires k in st.links && !Nobody(st.links[k])
    ensures var (u, outcome) := BulkStep(st, k, Err(e), ids, put);
      && u.remote == st.remote
      && u.links == (if e == LinkNotFound then st.links - {k} else st.links)
      && u.assignments == (if e == LinkNotFound then st.assignments - {k} else st.assignments)
      && outcome == if e == LinkNotFound then Gone else if e == LinkDisabled then Inactive else Failed(e)
  {
  }

  /** A write that is held for the owner, and no other end of a bulk job, enqueues: the link's
      own job, in twenty minutes, unless one is pending. */
  lemma OnlyHeldIsRechecked(st: State, k: LinkKey, limit: Result<nat, ApiError>, ids: seq<string>, put: Answer,
                            jobs: Jobs.Table, nextId: nat, now: int)
    requires (forall id <- jobs :: id < nextId) && BulkWrite(st, k, limit, ids).Some?
    ensures var after := Rechecked(jobs, nextId, k, now, BulkStep(st, k, limit, ids, put).1);
      var key := Jobs.JobKey("config_sync", [k.guild, k.role]);
      var waiting := exists id <- jobs :: jobs[id].status == Jobs.Pending && jobs[id].key == key;
      after == if put == Rejected(RemovalHeld) && !waiting
               then jobs[nextId := Jobs.Job(key, Jobs.Pending, 0, 8, now + 1_200_000, None, None)] else jobs
  {
    hide Elements;
  }
}
