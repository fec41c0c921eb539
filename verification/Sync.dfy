/** The sync engine: the per-member path and the per-link bulk path, each keeping the
    local `role_assignments` mirror next to the remote user sets. A job is one atomic
    step; each of its remote writes may take effect without the local write that is to
    follow. */
module Sync {
  import opened Wrappers
  import opened Rules
  import opened ConditionEval
  import opened Seqs
  import opened RoleLogic
  import opened Sql
  import opened BulkQuery
  import opened Jobs

  datatype LinkKey = LinkKey(guild: string, role: string)

  datatype RoleLink = RoleLink(account: Option<int>, tree: RuleTree)

  /** `stripe_member_facts`, by account and member. */
  type FactsTable = map<(int, string), Facts>

  /** The local tables, and the user set that the remote side holds for each link. */
  datatype State = State(
    links: map<LinkKey, RoleLink>,
    assignments: map<LinkKey, set<string>>,
    remote: map<LinkKey, set<string>>)

  /** A remote write took effect and was recorded; it was refused and changed nothing; or it
      took effect, but its reply was lost or the local write after it failed. */
  datatype Answer = Accepted | Rejected(e: ApiError) | Unrecorded

  function SetAt(m: map<LinkKey, set<string>>, k: LinkKey): set<string> {
    if k in m then m[k] else {}
  }

  /** Deleting a link cascades to its assignments. */
  function Orphaned(st: State, k: LinkKey): State {
    State(st.links - {k}, st.assignments - {k}, st.remote)
  }

  // ---- one member ----

  datatype Action = Keep | Add | Remove

  predicate Qualifies(link: RoleLink, d: string, facts: FactsTable, w: World) {
    && link.account.Some? && (link.account.value, d) in facts
    && Evaluate(link.tree, facts[(link.account.value, d)], w)
  }

  function PlayerAction(st: State, k: LinkKey, d: string, facts: FactsTable, w: World): Action
    requires k in st.links
  {
    var q := Qualifies(st.links[k], d, facts, w);
    var a := d in SetAt(st.assignments, k);
    if q && !a then Add else if !q && a then Remove else Keep
  }

  function Act(users: set<string>, d: string, action: Action): set<string> {
    match action
    case Keep => users
    case Add => users + {d}
    case Remove => users - {d}
  }

  /** One action with the remote's answer to it. */
  function Perform(st: State, k: LinkKey, d: string, action: Action, answer: Answer): State {
    if action == Keep then st
    else match answer
      case Accepted =>
        st.(assignments := st.assignments[k := Act(SetAt(st.assignments, k), d, action)],
            remote := st.remote[k := Act(SetAt(st.remote, k), d, action)])
      case Rejected(e) => if e == LinkNotFound then Orphaned(st, k) else st
      case Unrecorded => st.(remote := st.remote[k := Act(SetAt(st.remote, k), d, action)])
  }

  /** The links in the member's guilds. */
  function Considered(st: State, guilds: set<string>): set<LinkKey> {
    set k | k in st.links && k.guild in guilds
  }

  /** The links of `done` decided on `st`; every other link as it was. */
  function PlayerStepOn(st: State, d: string, done: set<LinkKey>, facts: FactsTable, w: World,
                        answers: LinkKey -> Answer): State
  {
    Settled(st, d,
            Answered(st, d, done, facts, w, answers, Rejected(LinkNotFound)),
            Answered(st, d, done, facts, w, answers, Accepted),
            Answered(st, d, done, facts, w, answers, Unrecorded), facts, w)
  }

  /** The calls for the links of `gone` found no link, those of `written` were recorded, those
      of `unrecorded` took effect remotely only. */
  function Settled(st: State, d: string, gone: set<LinkKey>, written: set<LinkKey>, unrecorded: set<LinkKey>,
                   facts: FactsTable, w: World): State
    requires written <= st.links.Keys && unrecorded <= st.links.Keys
  {
    State(
      st.links - gone,
      Rewritten(st, st.assignments, d, written, facts, w) - gone,
      Rewritten(st, st.remote, d, written + unrecorded, facts, w))
  }

  /** The links of `done` with a call to make that was answered `answer`. */
  function Answered(st: State, d: string, done: set<LinkKey>, facts: FactsTable, w: World,
                    answers: LinkKey -> Answer, answer: Answer): (r: set<LinkKey>)
    ensures r <= st.links.Keys
  {
    set k | k in st.links && k in done && PlayerAction(st, k, d, facts, w) != Keep && answers(k) == answer
  }

  function Rewritten(st: State, m: map<LinkKey, set<string>>, d: string, written: set<LinkKey>, facts: FactsTable,
                     w: World)
    : map<LinkKey, set<string>>
    requires written <= st.links.Keys
  {
    map k | k in m.Keys + written ::
      if k in written then Act(SetAt(m, k), d, PlayerAction(st, k, d, facts, w)) else m[k]
  }

  function PlayerStep(st: State, d: string, guilds: set<string>, facts: FactsTable, w: World,
                      answers: LinkKey -> Answer): State
  {
    PlayerStepOn(st, d, Considered(st, guilds), facts, w, answers)
  }

  /** Actions on different links commute, so any completion order gives the same state. */
  lemma PlayerStepExtends(st: State, d: string, done: set<LinkKey>, k: LinkKey, facts: FactsTable, w: World,
                          answers: LinkKey -> Answer)
    requires k !in done && k in st.links
    ensures PlayerStepOn(st, d, done + {k}, facts, w, answers)
         == Perform(PlayerStepOn(st, d, done, facts, w, answers), k, d,
                    PlayerAction(st, k, d, facts, w), answers(k))
  {
    var gone := Answered(st, d, done, facts, w, answers, Rejected(LinkNotFound));
    var written := Answered(st, d, done, facts, w, answers, Accepted);
    var unrecorded := Answered(st, d, done, facts, w, answers, Unrecorded);
    var gone1 := Answered(st, d, done + {k}, facts, w, answers, Rejected(LinkNotFound));
    var written1 := Answered(st, d, done + {k}, facts, w, answers, Accepted);
    var unrecorded1 := Answered(st, d, done + {k}, facts, w, answers, Unrecorded);
    AnsweredExtends(st, d, done, k, facts, w, answers, Rejected(LinkNotFound));
    AnsweredExtends(st, d, done, k, facts, w, answers, Accepted);
    AnsweredExtends(st, d, done, k, facts, w, answers, Unrecorded);
    SettledMore(st, d, gone, written, unrecorded, k, facts, w);
    assert PlayerStepOn(st, d, done + {k}, facts, w, answers)
        == Settled(st, d, gone1, written1, unrecorded1, facts, w);
    hide Answered, PlayerAction, Act, Settled;
    var action, answer := PlayerAction(st, k, d, facts, w), answers(k);
    if action == Keep {
      assert gone1 == gone && written1 == written && unrecorded1 == unrecorded;
    } else if answer.Accepted? {
      assert gone1 == gone && written1 == written + {k} && unrecorded1 == unrecorded;
    } else if answer.Unrecorded? {
      assert gone1 == gone && written1 == written && unrecorded1 == unrecorded + {k};
    } else if answer.e == LinkNotFound {
      assert gone1 == gone + {k} && written1 == written && unrecorded1 == unrecorded;
    } else {
      assert gone1 == gone && written1 == written && unrecorded1 == unrecorded;
    }
  }

  /** What one more call does. */
  lemma SettledMore(st: State, d: string, gone: set<LinkKey>, written: set<LinkKey>, unrecorded: set<LinkKey>,
                    k: LinkKey, facts: FactsTable, w: World)
    requires written <= st.links.Keys && unrecorded <= st.links.Keys
    requires k in st.links && k !in gone && k !in written && k !in unrecorded
    ensures var u := Settled(st, d, gone, written, unrecorded, facts, w);
      var action := PlayerAction(st, k, d, facts, w);
      && Settled(st, d, gone + {k}, written, unrecorded, facts, w) == Orphaned(u, k)
      && Settled(st, d, gone, written + {k}, unrecorded, facts, w)
         == u.(assignments := u.assignments[k := Act(SetAt(u.assignments, k), d, action)],
               remote := u.remote[k := Act(SetAt(u.remote, k), d, action)])
      && Settled(st, d, gone, written, unrecorded + {k}, facts, w)
         == u.(remote := u.remote[k := Act(SetAt(u.remote, k), d, action)])
  {
    RewrittenExtends(st, st.assignments, d, written, k, facts, w);
    RewrittenExtends(st, st.remote, d, written + unrecorded, k, facts, w);
    RewrittenAt(st, st.assignments, d, written, k, facts, w);
    RewrittenAt(st, st.remote, d, written + unrecorded, k, facts, w);
    assert (written + {k}) + unrecorded == (written + unrecorded) + {k};
    assert written + (unrecorded + {k}) == (written + unrecorded) + {k};
    hide Rewritten, PlayerAction, Act;
    var rows := Rewritten(st, st.assignments, d, written, facts, w);
    KeysMinus(rows, gone, k, Act(SetAt(st.assignments, k), d, PlayerAction(st, k, d, facts, w)));
    KeysMinus(st.links, gone, k, st.links[k]);
    assert SetAt(rows - gone, k) == SetAt(rows, k);
  }

  lemma KeysMinus<V>(m: map<LinkKey, V>, gone: set<LinkKey>, k: LinkKey, v: V)
    requires k !in gone
    ensures m[k := v] - gone == (m - gone)[k := v]
    ensures m - (gone + {k}) == m - gone - {k}
  {
  }

  lemma AnsweredExtends(st: State, d: string, done: set<LinkKey>, k: LinkKey, facts: FactsTable, w: World,
                        answers: LinkKey -> Answer, answer: Answer)
    requires k !in done && k in st.links
    ensures k !in Answered(st, d, done, facts, w, answers, answer)
    ensures Answered(st, d, done + {k}, facts, w, answers, answer)
         == Answered(st, d, done, facts, w, answers, answer)
          + if PlayerAction(st, k, d, facts, w) != Keep && answers(k) == answer then {k} else {}
  {
    hide PlayerAction;
  }

  lemma RewrittenExtends(st: State, m: map<LinkKey, set<string>>, d: string, written: set<LinkKey>, k: LinkKey,
                         facts: FactsTable, w: World)
    requires written <= st.links.Keys && k in st.links && k !in written
    ensures Rewritten(st, m, d, written + {k}, facts, w)
         == Rewritten(st, m, d, written, facts, w)[k := Act(SetAt(m, k), d, PlayerAction(st, k, d, facts, w))]
    ensures written + {} == written
  {
    hide PlayerAction, Act;
  }

  lemma RewrittenAt(st: State, m: map<LinkKey, set<string>>, d: string, written: set<LinkKey>, k: LinkKey,
                    facts: FactsTable, w: World)
    requires written <= st.links.Keys && k !in written
    ensures SetAt(Rewritten(st, m, d, written, facts, w), k) == SetAt(m, k)
  {
    hide PlayerAction, Act;
  }

  // ---- one link ----

  datatype BulkOutcome = Synced | NoLink | Gone | Inactive | HeldForOwner | Failed(e: ApiError)

  /** The executed statement keeps the row: its text parses, and the clause is TRUE. */
  predicate RowSelected(tree: RuleTree, account: int, optouts: seq<string>, limit: nat, key: (int, string),
                        f: Facts, w: World)
  {
    var p := ParseOr(QueryTokens(tree));
    p.Got? && p.rest == [] && Keeps(p.e, Row(key.0, key.1, f), QueryParams(tree, account, optouts, limit), w)
  }

  function SelectedRows(tree: RuleTree, account: int, optouts: seq<string>, limit: nat, facts: FactsTable, w: World)
    : set<(int, string)>
  {
    set key | key in facts && RowSelected(tree, account, optouts, limit, key, facts[key], w)
  }

  function Selected(tree: RuleTree, account: int, optouts: seq<string>, limit: nat, facts: FactsTable,
                    w: World): set<string> {
    set key | key in SelectedRows(tree, account, optouts, limit, facts, w) :: key.1
  }

  ghost predicate Lists(ids: seq<string>, users: set<string>) {
    StrictlyAscending(ids) && Elements(ids) == users
  }

  /** ORDER BY discord_id LIMIT limit. */
  ghost predicate FirstIds(ids: seq<string>, users: set<string>, limit: nat) {
    exists full: seq<string> :: Lists(full, users) && ids == if |full| <= limit then full else full[..limit]
  }

  predicate Nobody(link: RoleLink) {
    link.account.None? || (!link.tree.grantOnAnyRelation && link.tree.groups == [])
  }

  /** Replace the whole set, remotely and then locally. */
  function Replace(st: State, k: LinkKey, users: set<string>, put: Answer): (State, BulkOutcome) {
    match put
    case Accepted => (st.(assignments := st.assignments[k := users], remote := st.remote[k := users]), Synced)
    case Rejected(LinkNotFound) => (Orphaned(st, k), Gone)
    case Rejected(LinkDisabled) => (st, Inactive)
    case Rejected(RemovalHeld) => (st, HeldForOwner)
    case Rejected(e) => (st, Failed(e))
    case Unrecorded => (st.(remote := st.remote[k := users]), Failed(OtherError))
  }

  function DrainStep(st: State, k: LinkKey, put: Answer): (State, BulkOutcome) {
    if SetAt(st.assignments, k) == {} then (st, Synced) else Replace(st, k, {}, put)
  }

  /** `limit` is what the remote reports for the link, `ids` the query's result. */
  function BulkStep(st: State, k: LinkKey, limit: Result<nat, ApiError>, ids: seq<string>, put: Answer)
    : (State, BulkOutcome)
  {
    if k !in st.links then (st, NoLink)
    else if Nobody(st.links[k]) then DrainStep(st, k, put)
    else match limit
      case Err(LinkNotFound) => (Orphaned(st, k), Gone)
      case Err(LinkDisabled) => (st, Inactive)
      case Err(e) => (st, Failed(e))
      case Ok(_) =>
        if SetAt(st.assignments, k) == Elements(ids) then (st, Synced)
        else Replace(st, k, Elements(ids), put)
  }

  /** `ids` is what the query returns for the link. */
  ghost predicate QueryOk(st: State, k: LinkKey, limit: Result<nat, ApiError>, ids: seq<string>,
                          facts: FactsTable, optouts: seq<string>, w: World)
  {
    k in st.links && !Nobody(st.links[k]) && limit.Ok? ==>
      var link := st.links[k];
      FirstIds(ids, Selected(link.tree, link.account.value, optouts, limit.value, facts, w), limit.value)
  }

  // ---- a held write ----

  const HELD_RECHECK_MS := 20 * 60 * 1000

  /** The bulk job of one link. */
  function ConfigSync(k: LinkKey): JobKey {
    JobKey("config_sync", [k.guild, k.role])
  }

  /** The queue after a bulk job: a write held for the owner is looked at again later, by one
      pending job. */
  function Rechecked(jobs: Table, nextId: nat, k: LinkKey, now: int, outcome: BulkOutcome): Table {
    if outcome.HeldForOwner? then Enqueue(jobs, nextId, ConfigSync(k), now + HELD_RECHECK_MS, true) else jobs
  }

  // ---- the engine as the program runs it ----

  class Engine {
    var links: map<LinkKey, RoleLink>
    var assignments: map<LinkKey, set<string>>
    var remote: map<LinkKey, set<string>>

    ghost function Contents(): State
      reads this
    {
      State(links, assignments, remote)
    }

    constructor ()
      ensures Contents() == State(map[], map[], map[])
    {
      links, assignments, remote := map[], map[], map[];
    }

    method DeleteOrphan(k: LinkKey)
      modifies this
      ensures Contents() == Orphaned(old(Contents()), k)
    {
      links := links - {k};
      assignments := assignments - {k};
    }

    method Execute(k: LinkKey, d: string, action: Action, answer: Answer)
      modifies this
      ensures Contents() == Perform(old(Contents()), k, d, action, answer)
    {
      if action == Keep {
        return;
      }
      if answer.Rejected? {
        if answer.e == LinkNotFound {
          DeleteOrphan(k);
        }
        return;
      }
      remote := remote[k := Act(SetAt(remote, k), d, action)];
      if answer.Accepted? {
        assignments := assignments[k := Act(SetAt(assignments, k), d, action)];
      }
    }

    /** Decide every link first, then let the remote calls complete in any order. */
    method SyncForPlayer(d: string, guilds: set<string>, facts: FactsTable, w: World, answers: LinkKey -> Answer)
      modifies this
      ensures Contents() == PlayerStep(old(Contents()), d, guilds, facts, w, answers)
    {
      hide PlayerAction, PlayerStepOn, Perform;
      ghost var start := Contents();
      var considered := set k | k in links && k.guild in guilds;
      var decided := Decide(considered, d, facts, w);
      NothingDone(start, d, facts, w, answers);
      var left := considered;
      assert considered - left == {};
      while left != {}
        invariant left <= considered
        invariant Contents() == PlayerStepOn(start, d, considered - left, facts, w, answers)
        decreases |left|
      {
        var k :| k in left;
        PlayerStepExtends(start, d, considered - left, k, facts, w, answers);
        assert considered - (left - {k}) == (considered - left) + {k};
        Execute(k, d, decided[k], answers(k));
        left := left - {k};
      }
      assert considered - left == Considered(start, guilds);
    }

    method Decide(considered: set<LinkKey>, d: string, facts: FactsTable, w: World)
      returns (decided: map<LinkKey, Action>)
      requires considered <= links.Keys
      ensures decided.Keys == considered
      ensures forall k <- considered :: decided[k] == PlayerAction(Contents(), k, d, facts, w)
    {
      hide Evaluate;
      decided := map k | k in considered ::
        (var q := Qualifies(links[k], d, facts, w);
         var a := d in SetAt(assignments, k);
         if q && !a then Add else if !q && a then Remove else Keep);
    }

    method ReplaceAll(k: LinkKey, users: set<string>, put: Answer, queue: JobQueue, now: int)
      returns (outcome: BulkOutcome)
      requires queue.Valid()
      modifies this, queue
      ensures (Contents(), outcome) == Replace(old(Contents()), k, users, put)
      ensures queue.Valid() && queue.jobs == Rechecked(old(queue.jobs), old(queue.nextId), k, now, outcome)
    {
      if !put.Rejected? {
        remote := remote[k := users];
        if put.Unrecorded? {
          return Failed(OtherError);
        }
        assignments := assignments[k := users];
        return Synced;
      }
      match put.e {
        case LinkNotFound =>
          DeleteOrphan(k);
          outcome := Gone;
        case LinkDisabled => outcome := Inactive;
        case RemovalHeld =>
          outcome := HeldForOwner;
          queue.EnqueueJob(ConfigSync(k), now, HELD_RECHECK_MS, true);
        case e => outcome := Failed(e);
      }
    }

    method DrainToEmpty(k: LinkKey, put: Answer, queue: JobQueue, now: int) returns (outcome: BulkOutcome)
      requires queue.Valid()
      modifies this, queue
      ensures (Contents(), outcome) == DrainStep(old(Contents()), k, put)
      ensures queue.Valid() && queue.jobs == Rechecked(old(queue.jobs), old(queue.nextId), k, now, outcome)
    {
      if SetAt(assignments, k) == {} {
        return Synced;
      }
      outcome := ReplaceAll(k, {}, put, queue, now);
    }

    /** Run the query: collect the selected members in order, and cut at the limit. */
    method FetchQualifying(link: RoleLink, account: int, limit: nat, facts: FactsTable, optouts: seq<string>, w: World)
      returns (ids: seq<string>)
      ensures FirstIds(ids, Selected(link.tree, account, optouts, limit, facts, w), limit)
    {
      hide RowSelected, ParseOr, Keeps;
      var rows := set key | key in facts && RowSelected(link.tree, account, optouts, limit, key, facts[key], w);
      ids := SortedIds(set key | key in rows :: key.1);
      assert (set key | key in rows :: key.1) == Selected(link.tree, account, optouts, limit, facts, w);
      if |ids| > limit {
        ids := ids[..limit];
      }
    }

    static method SortedIds(users: set<string>) returns (ids: seq<string>)
      ensures Lists(ids, users)
    {
      var all: seq<string> := [];
      var left := users;
      while left != {}
        invariant left <= users && forall x :: x in all <==> x in users && x !in left
        decreases |left|
      {
        var x :| x in left;
        left := left - {x};
        all := all + [x];
      }
      ids := Dedup(Sort(all));
      SortDedup(all);
    }

    method SyncForRoleLink(k: LinkKey, limit: Result<nat, ApiError>, facts: FactsTable, optouts: seq<string>,
                           w: World, put: Answer, queue: JobQueue, now: int)
      returns (outcome: BulkOutcome, ghost ids: seq<string>)
      requires queue.Valid()
      modifies this, queue
      ensures QueryOk(old(Contents()), k, limit, ids, facts, optouts, w)
      ensures (Contents(), outcome) == BulkStep(old(Contents()), k, limit, ids, put)
      ensures queue.Valid() && queue.jobs == Rechecked(old(queue.jobs), old(queue.nextId), k, now, outcome)
    {
      ids := [];
      if k !in links {
        return NoLink, ids;
      }
      var link := links[k];
      if Nobody(link) {
        outcome := DrainToEmpty(k, put, queue, now);
        return;
      }
      if limit.Err? {
        match limit.error {
          case LinkNotFound =>
            DeleteOrphan(k);
            outcome := Gone;
          case LinkDisabled => outcome := Inactive;
          case e => outcome := Failed(e);
        }
        return;
      }
      var qualifying := FetchQualifying(link, link.account.value, limit.value, facts, optouts, w);
      ids := qualifying;
      hide Selected, FirstIds;
      var current := SortedIds(SetAt(assignments, k));
      EqualLists(current, qualifying, SetAt(assignments, k),
                 Selected(link.tree, link.account.value, optouts, limit.value, facts, w), limit.value);
      if current == qualifying {
        return Synced, ids;
      }
      outcome := ReplaceAll(k, Elements(qualifying), put, queue, now);
    }

    /** Comparing the ordered lists is comparing the sets. */
    static lemma EqualLists(current: seq<string>, ids: seq<string>, users: set<string>, selected: set<string>,
                            limit: nat)
      requires Lists(current, users) && FirstIds(ids, selected, limit)
      ensures current == ids <==> users == Elements(ids)
    {
      var full :| Lists(full, selected) && ids == if |full| <= limit then full else full[..limit];
      assert StrictlyAscending(ids);
      if users == Elements(ids) {
        assert forall x :: x in current <==> x in Elements(current);
        assert forall x :: x in ids <==> x in Elements(ids);
        StrictlyAscendingUnique(current, ids);
      }
    }
  }

  // ---- a replaced set, down to the requests ----

  /** The engine's write of a whole set is one upload: whatever becomes of each request, the
      server holds what the engine's state says it holds, and the outcome is the upload's. */
  method ReplaceByUpload(engine: Engine, server: RemoteLink, k: LinkKey, ids: seq<string>, script: nat -> Reply,
                         queue: JobQueue, now: int)
    returns (outcome: BulkOutcome, put: Answer)
    requires queue.Valid() && server.users == SetAt(engine.remote, k)
    modifies engine, server, queue
    ensures (engine.Contents(), outcome) == Replace(old(engine.Contents()), k, Elements(ids), put)
    ensures server.users == SetAt(engine.remote, k)
    ensures old(server.calls) <= server.calls && UploadTrace(ids, server.calls[|old(server.calls)|..])
    ensures put.Unrecorded? ==> exists i :: script(i) == Lost
    ensures queue.Valid() && queue.jobs == Rechecked(old(queue.jobs), old(queue.nextId), k, now, outcome)
  {
    var before := server.users;
    var r := UploadUsers(server, ids, script);
    put := if r.Ok? then Accepted else if server.users == before then Rejected(r.error) else Unrecorded;
    hide UploadTrace;
    outcome := engine.ReplaceAll(k, Elements(ids), put, queue, now);
  }

  lemma NothingDone(st: State, d: string, facts: FactsTable, w: World, answers: LinkKey -> Answer)
    ensures PlayerStepOn(st, d, {}, facts, w, answers) == st
  {
    hide PlayerAction, Act;
    assert Answered(st, d, {}, facts, w, answers, Rejected(LinkNotFound)) == {};
    assert Answered(st, d, {}, facts, w, answers, Accepted) == {};
    assert Answered(st, d, {}, facts, w, answers, Unrecorded) == {};
    assert Rewritten(st, st.assignments, d, {}, facts, w) == st.assignments;
    assert Rewritten(st, st.remote, d, {}, facts, w) == st.remote;
  }

  // ---- the guilds a member is synced in ----

  /** The gateway's guilds, then the subscriber guilds it did not list, each vetted for
      an opt-out. */
  method CollectGuilds(gateway: seq<string>, subscriberGuilds: seq<string>, optouts: string -> seq<string>, d: string)
    returns (guilds: seq<string>)
    ensures forall g :: g in guilds <==> g in gateway || (g in subscriberGuilds && d !in optouts(g))
  {
    guilds := gateway;
    for i := 0 to |subscriberGuilds|
      invariant forall g :: g in guilds <==> g in gateway || (g in subscriberGuilds[..i] && d !in optouts(g))
    {
      var g := subscriberGuilds[i];
      if g !in gateway && d !in optouts(g) {
        guilds := guilds + [g];
      }
    }
  }
}
