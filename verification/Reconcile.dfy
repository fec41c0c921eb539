/** The full import of an account: subscriptions, then customers, then absolute spend,
    then a recompute of every member the upserts touched. */
module Reconcile {
  import opened Wrappers
  import opened MemberFacts
  import opened Ingest
  import opened Webhooks
  import opened ViewMaintenance

  /** One listed object, in the order the import walks them. */
  datatype Item = SubItem(sub: SubFields) | CustomerItem(customer: CustomerFields)

  /** What Stripe listed; `spend` is None when the key may not read charges. */
  datatype Snapshot = Snapshot(
    subs: seq<SubFields>, customers: seq<CustomerFields>, spend: Option<map<string, (int, int)>>)
  {
    function Items(): seq<Item> {
      seq(|subs|, i requires 0 <= i < |subs| => SubItem(subs[i]))
      + seq(|customers|, i requires 0 <= i < |customers| => CustomerItem(customers[i]))
    }
  }

  function UpsertItem(t: Tables, x: Item, lk: Linker, pick: string): (Tables, Option<string>) {
    match x
    case SubItem(s) => UpsertSubscription(t, s, lk, None, pick)
    case CustomerItem(c) => UpsertCustomer(t, c, lk, pick)
  }

  predicate PickForItem(t: Tables, x: Item, lk: Linker, pick: string) {
    match x
    case SubItem(s) => s.customer.Some? ==> PickFor(t, s.customer.value, lk, pick)
    case CustomerItem(c) => PickFor(t, c, lk, pick)
  }

  function LinkSet(d: Option<string>): set<string> {
    if d.Some? then {d.value} else {}
  }

  /** Walk the list; also the set of members the upserts returned. */
  function Pass(t: Tables, xs: seq<Item>, picks: seq<string>, lk: Linker): (Tables, set<string>)
    requires |picks| == |xs|
    decreases |xs|
  {
    if xs == [] then (t, {})
    else
      var (u, d) := UpsertItem(t, xs[0], lk, picks[0]);
      var (v, touched) := Pass(u, xs[1..], picks[1..], lk);
      (v, LinkSet(d) + touched)
  }

  predicate PicksOk(t: Tables, xs: seq<Item>, picks: seq<string>, lk: Linker)
    requires |picks| == |xs|
    decreases |xs|
  {
    xs == [] ||
    (PickForItem(t, xs[0], lk, picks[0])
     && PicksOk(UpsertItem(t, xs[0], lk, picks[0]).0, xs[1..], picks[1..], lk))
  }

  /** Reset every customer, then set the listed totals of those in `done`. */
  function SpendOver(t: Tables, spend: map<string, (int, int)>, done: set<string>): Tables {
    t.(customers := map cid | cid in t.customers ::
         var (amount, n) := if cid in spend && cid in done then spend[cid] else (0, 0);
         t.customers[cid].(lifetimeSpend := amount, payments := n))
  }

  function SpendPass(t: Tables, spend: Option<map<string, (int, int)>>): Tables {
    if spend.Some? then SpendOver(t, spend.value, spend.value.Keys) else t
  }

  /** The members linked to the customers of `cids`. */
  function LinksOf(t: Tables, cids: set<string>): set<string> {
    set cid | cid in cids && CustomerLink(t, cid).Some? :: CustomerLink(t, cid).value
  }

  function SpendTouched(t: Tables, spend: Option<map<string, (int, int)>>): set<string> {
    if spend.Some? then LinksOf(t, spend.value.Keys) else {}
  }

  function Import(t: Tables, snap: Snapshot, picks: seq<string>, lk: Linker): (Tables, set<string>)
    requires |picks| == |snap.Items()|
  {
    var (u, touched) := Pass(t, snap.Items(), picks, lk);
    (SpendPass(u, snap.spend), touched + SpendTouched(u, snap.spend))
  }

  // ---- the import as the program runs it ----

  method UpsertAll(mirror: Mirror, xs: seq<Item>, lk: Linker) returns (touched: set<string>, ghost picks: seq<string>)
    modifies mirror
    ensures |picks| == |xs| && PicksOk(old(mirror.Contents()), xs, picks, lk)
    ensures (mirror.Contents(), touched) == Pass(old(mirror.Contents()), xs, picks, lk)
  {
    hide UpsertItem, PickForItem;
    touched, picks := {}, [];
    ghost var start := mirror.Contents();
    for i := 0 to |xs|
      invariant |picks| == i
      invariant PicksOk(start, xs[..i], picks, lk)
      invariant (mirror.Contents(), touched) == Pass(start, xs[..i], picks, lk)
    {
      ghost var before := mirror.Contents();
      var d;
      ghost var pick;
      d, pick := UpsertOne(mirror, xs[i], lk);
      PassAppend(start, xs[..i], picks, xs[i], pick, lk);
      assert xs[..i + 1] == xs[..i] + [xs[i]];
      assert touched + LinkSet(d) == if d.Some? then touched + {d.value} else touched;
      if d.Some? {
        touched := touched + {d.value};
      }
      picks := picks + [pick];
    }
    assert xs[..|xs|] == xs;
  }

  method UpsertOne(mirror: Mirror, x: Item, lk: Linker) returns (d: Option<string>, ghost pick: string)
    modifies mirror
    ensures PickForItem(old(mirror.Contents()), x, lk, pick)
    ensures (mirror.Contents(), d) == UpsertItem(old(mirror.Contents()), x, lk, pick)
  {
    match x {
      case SubItem(s) => d, pick := mirror.UpsertSubscriptionRow(s, lk, None);
      case CustomerItem(c) => d, pick := mirror.UpsertCustomerRow(c, lk);
    }
  }

  lemma {:induction false} PassAppend(t: Tables, xs: seq<Item>, picks: seq<string>, x: Item, pick: string, lk: Linker)
    requires |picks| == |xs|
    ensures var (u, touched) := Pass(t, xs, picks, lk);
      var (v, d) := UpsertItem(u, x, lk, pick);
      Pass(t, xs + [x], picks + [pick], lk) == (v, touched + LinkSet(d))
    ensures PicksOk(t, xs, picks, lk) && PickForItem(Pass(t, xs, picks, lk).0, x, lk, pick)
            ==> PicksOk(t, xs + [x], picks + [pick], lk)
    decreases |xs|
  {
    hide UpsertItem, PickForItem;
    if xs == [] {
      assert [] + [x] == [x] && [] + [pick] == [pick];
      assert [x][1..] == [] && [pick][1..] == [];
      var (v, d) := UpsertItem(t, x, lk, pick);
      assert Pass(v, [], [], lk) == (v, {});
      assert xs + [x] == [x] && picks + [pick] == [pick];
      assert LinkSet(d) + {} == {} + LinkSet(d);
      assert Pass(t, [x], [pick], lk) == (v, LinkSet(d) + {});
    } else {
      assert (xs + [x])[1..] == xs[1..] + [x];
      assert (picks + [pick])[1..] == picks[1..] + [pick];
      var (t1, d0) := UpsertItem(t, xs[0], lk, picks[0]);
      PassAppend(t1, xs[1..], picks[1..], x, pick, lk);
      var (u, touched) := Pass(t1, xs[1..], picks[1..], lk);
      var d := UpsertItem(u, x, lk, pick).1;
      assert (LinkSet(d0) + touched) + LinkSet(d) == LinkSet(d0) + (touched + LinkSet(d));
    }
  }

  method SpendAll(mirror: Mirror, spend: map<string, (int, int)>) returns (touched: set<string>)
    modifies mirror
    ensures mirror.Contents() == SpendPass(old(mirror.Contents()), Some(spend))
    ensures touched == SpendTouched(old(mirror.Contents()), Some(spend))
  {
    hide SpendOver, LinksOf, SetSpend;
    ghost var start := mirror.Contents();
    ResetSpend(mirror, spend);
    touched := {};
    var left := spend.Keys;
    NoLinks(start);
    assert spend.Keys - left == {};
    while left != {}
      invariant left <= spend.Keys
      invariant mirror.Contents() == SpendOver(start, spend, spend.Keys - left)
      invariant touched == LinksOf(start, spend.Keys - left)
      decreases |left|
    {
      var cid :| cid in left;
      SpendStep(start, spend, spend.Keys - left, cid);
      var d := mirror.SetCustomerSpend(cid, spend[cid].0, spend[cid].1);
      if d.Some? {
        touched := touched + {d.value};
      }
      assert spend.Keys - (left - {cid}) == (spend.Keys - left) + {cid};
      left := left - {cid};
    }
    assert spend.Keys - left == spend.Keys;
  }

  method ResetSpend(mirror: Mirror, ghost spend: map<string, (int, int)>)
    modifies mirror
    ensures mirror.Contents() == SpendOver(old(mirror.Contents()), spend, {})
  {
    mirror.customers := map cid | cid in mirror.customers ::
      mirror.customers[cid].(lifetimeSpend := 0, payments := 0);
  }

  lemma NoLinks(t: Tables)
    ensures LinksOf(t, {}) == {}
  {
  }

  lemma SpendStep(t: Tables, spend: map<string, (int, int)>, done: set<string>, cid: string)
    requires cid in spend
    ensures var u := SpendOver(t, spend, done);
      && SetSpend(u, cid, spend[cid].0, spend[cid].1) == SpendOver(t, spend, done + {cid})
      && CustomerLink(SetSpend(u, cid, spend[cid].0, spend[cid].1), cid) == CustomerLink(t, cid)
    ensures LinksOf(t, done + {cid}) == LinksOf(t, done) + LinkSet(CustomerLink(t, cid))
  {
    var u := SpendOver(t, spend, done);
    assert SetSpend(u, cid, spend[cid].0, spend[cid].1).customers == SpendOver(t, spend, done + {cid}).customers;
    assert SetSpend(u, cid, spend[cid].0, spend[cid].1).subs == t.subs;
  }

  /** The whole import; the recomputes of `failing` fail, which is only logged. Afterwards the
      facts of every other touched member are exact, and all the rest are as they were. */
  method ImportAccount(store: Ingestor, snap: Snapshot, lk: Linker, failing: set<string>)
    returns (touched: set<string>, ghost picks: seq<string>)
    modifies store, store.mirror
    ensures |picks| == |snap.Items()| && PicksOk(old(store.mirror.Contents()), snap.Items(), picks, lk)
    ensures (store.mirror.Contents(), touched) == Import(old(store.mirror.Contents()), snap, picks, lk)
    ensures forall d <- touched - failing :: MemberExact(store.mirror.Contents(), store.facts, d)
    ensures forall d :: d !in touched - failing ==>
      (d in store.facts <==> d in old(store.facts))
      && (d in store.facts ==> store.facts[d] == old(store.facts)[d])
  {
    hide MemberExact, Pass, SpendPass, SpendTouched, PicksOk;
    touched, picks := UpsertAll(store.mirror, snap.Items(), lk);
    if snap.spend.Some? {
      var more := SpendAll(store.mirror, snap.spend.value);
      touched := touched + more;
    } else {
      NoSpend(store.mirror.Contents());
    }
    ghost var facts0 := store.facts;
    var left := touched;
    while left != {}
      invariant left <= touched
      invariant store.mirror.Contents() == Import(old(store.mirror.Contents()), snap, picks, lk).0
      invariant forall d <- touched - left - failing :: MemberExact(store.mirror.Contents(), store.facts, d)
      invariant forall d :: d !in touched - failing ==>
        (d in store.facts <==> d in facts0) && (d in store.facts ==> store.facts[d] == facts0[d])
      decreases |left|
    {
      var d :| d in left;
      if d !in failing {
        ghost var before := store.facts;
        ghost var ch := store.RecomputeMember(d, "");
        RecomputeIsExact(store.mirror.Contents(), before, d, ch);
        forall x <- touched - left - failing
          ensures MemberExact(store.mirror.Contents(), store.facts, x)
        {
          StaysExact(store.mirror.Contents(), before, store.facts, x);
        }
      }
      left := left - {d};
    }
  }

  lemma NoSpend(t: Tables)
    ensures SpendPass(t, None) == t && SpendTouched(t, None) == {}
  {
  }

  lemma StaysExact(t: Tables, facts: map<string, FactsRow>, after: map<string, FactsRow>, d: string)
    requires MemberExact(t, facts, d)
    requires (d in facts <==> d in after) && (d in facts ==> facts[d] == after[d])
    ensures MemberExact(t, after, d)
  {
  }
}
