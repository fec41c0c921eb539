/** What each column of an exact facts row says about the member's own customer and subscription
    rows, and so what each saved rule asks of them. */
module FactColumns {
  import opened Wrappers
  import opened Text
  import opened Rules
  import opened Seqs
  import opened MemberFacts
  import opened Ingest
  import opened Webhooks
  import opened ViewMaintenance
  import opened ConditionEval
  import FactsProperties
  import RuleReading

  // ---- from the view to the fetched rows ----

  /** Each linked row is fetched once. */
  ghost predicate Fetched(t: Tables, d: string, cs: seq<CustomerRow>, ss: seq<SubRow>) {
    && (forall c :: c in cs <==> exists cid <- CustomersOf(t, d) :: t.customers[cid] == c)
    && (forall s :: s in ss <==> exists sid <- SubsOf(t, d) :: t.subs[sid] == s)
    && |Filter(IsActive, ss)| == |ActiveIds(t, SubsOf(t, d))|
  }

  /** The active ones among some subscriptions. */
  function ActiveIds(t: Tables, sids: set<string>): set<string> {
    set sid | sid in sids && sid in t.subs && (t.subs[sid].status == "active" || t.subs[sid].status == "trialing")
  }

  lemma ActiveIdsWithout(t: Tables, ids: set<string>, id: string)
    requires id in ids && id in t.subs
    ensures |ActiveIds(t, ids)| == |ActiveIds(t, ids - {id})| + if IsActive(t.subs[id]) then 1 else 0
  {
    var rest := ActiveIds(t, ids - {id});
    assert ActiveIds(t, ids) == if IsActive(t.subs[id]) then rest + {id} else rest;
    assert id !in rest;
  }

  lemma {:induction false} CountedOnce(t: Tables, order: seq<string>, rows: seq<SubRow>, ids: set<string>)
    requires forall i, j | 0 <= i < j < |order| :: order[i] != order[j]
    requires forall x :: x in order <==> x in ids
    requires |rows| == |order| && forall i | 0 <= i < |order| :: order[i] in t.subs && rows[i] == t.subs[order[i]]
    ensures |Filter(IsActive, rows)| == |ActiveIds(t, ids)|
  {
    if order == [] {
      assert ActiveIds(t, ids) == {};
    } else {
      assert order[0] in ids;
      ActiveIdsWithout(t, ids, order[0]);
      assert Filter(IsActive, rows) == (if IsActive(rows[0]) then [rows[0]] else []) + Filter(IsActive, rows[1..]);
      hide Filter, ActiveIds, IsActive;
      assert forall x :: x in order <==> x == order[0] || x in order[1..];
      CountedOnce(t, order[1..], rows[1..], ids - {order[0]});
    }
  }

  lemma FetchedRows(t: Tables, d: string, co: seq<string>, so: seq<string>)
    requires Enumerates(co, CustomersOf(t, d)) && Enumerates(so, SubsOf(t, d))
    ensures Fetched(t, d, FetchCustomers(t, d, co), FetchSubs(t, d, so))
  {
    var cs, ss := FetchCustomers(t, d, co), FetchSubs(t, d, so);
    forall c
      ensures c in cs <==> exists cid <- CustomersOf(t, d) :: t.customers[cid] == c
    {
      if c in cs {
        var i :| 0 <= i < |cs| && cs[i] == c;
        assert co[i] in co;
      }
      if cid :| cid in CustomersOf(t, d) && t.customers[cid] == c {
        var i :| 0 <= i < |co| && co[i] == cid;
        assert cs[i] == c;
      }
    }
    forall s
      ensures s in ss <==> exists sid <- SubsOf(t, d) :: t.subs[sid] == s
    {
      if s in ss {
        var i :| 0 <= i < |ss| && ss[i] == s;
        assert so[i] in so;
      }
      if sid :| sid in SubsOf(t, d) && t.subs[sid] == s {
        var i :| 0 <= i < |so| && so[i] == sid;
        assert ss[i] == s;
      }
    }
    assert forall i | 0 <= i < |so| :: so[i] in so;
    CountedOnce(t, so, ss, SubsOf(t, d));
  }

  lemma ExactRows(t: Tables, facts: map<string, FactsRow>, d: string)
    returns (cs: seq<CustomerRow>, ss: seq<SubRow>)
    requires MemberExact(t, facts, d)
    ensures d in facts ==>
      facts[d] == Aggregate(cs, ss) && Fetched(t, d, cs, ss)
  {
    hide Aggregate, Fetched, FetchCustomers, FetchSubs;
    cs, ss := [], [];
    if d !in facts {
      return;
    }
    var co, so :| Enumerates(co, CustomersOf(t, d)) && Enumerates(so, SubsOf(t, d))
      && facts[d] == Aggregate(FetchCustomers(t, d, co), FetchSubs(t, d, so));
    FetchedRows(t, d, co, so);
    cs, ss := FetchCustomers(t, d, co), FetchSubs(t, d, so);
  }

  /** Some fetched subscription, or customer, has the property exactly when some linked one has. */
  lemma SomeSub(t: Tables, d: string, cs: seq<CustomerRow>, ss: seq<SubRow>, p: SubRow -> bool)
    requires Fetched(t, d, cs, ss)
    ensures (exists s <- ss :: p(s)) <==> exists sid <- SubsOf(t, d) :: p(t.subs[sid])
  {
    if sid :| sid in SubsOf(t, d) && p(t.subs[sid]) {
      assert t.subs[sid] in ss;
    }
  }

  lemma FetchedSub(t: Tables, d: string, cs: seq<CustomerRow>, ss: seq<SubRow>, sid: string)
    requires Fetched(t, d, cs, ss) && sid in SubsOf(t, d)
    ensures t.subs[sid] in ss
  {
  }

  lemma SomeCustomer(t: Tables, d: string, cs: seq<CustomerRow>, ss: seq<SubRow>, p: CustomerRow -> bool)
    requires Fetched(t, d, cs, ss)
    ensures (exists c <- cs :: p(c)) <==> exists cid <- CustomersOf(t, d) :: p(t.customers[cid])
  {
    if cid :| cid in CustomersOf(t, d) && p(t.customers[cid]) {
      assert t.customers[cid] in cs;
    }
  }

  // ---- statuses ----

  lemma StatusColumns(cs: seq<CustomerRow>, ss: seq<SubRow>)
    ensures var f := Aggregate(cs, ss).facts;
      && (f.hasActiveSubscription <==> exists s <- ss :: IsActive(s))
      && (f.isTrialing <==> exists s <- ss :: s.status == "trialing")
      && (f.isPastDue <==> exists s <- ss :: s.status == "past_due")
      && (f.cancelsAtPeriodEnd <==> exists s <- ss :: IsActive(s) && s.cancelAtPeriodEnd)
      && (f.isDelinquent <==> exists c <- cs :: c.delinquent)
      && f.isCustomer && f.activeSubscriptionCount == |Filter(IsActive, ss)|
  {
    FactsProperties.ActiveMembers(ss);
    if ActiveSubs(ss) != [] {
      assert ActiveSubs(ss)[0] in ActiveSubs(ss);
    }
    hide Map, Filter, Sum, MinSome, MaxBy, SortedIds, FirstSome, EmailDomainOf, IsActive;
  }

  lemma BoolRules(f: Facts, b: bool, w: World)
    ensures EvaluateSingle(Condition(HasActiveSubscription, Eq, Bool(b), None), f, w) <==> b == f.hasActiveSubscription
    ensures EvaluateSingle(Condition(IsTrialing, Eq, Bool(b), None), f, w) <==> b == f.isTrialing
    ensures EvaluateSingle(Condition(IsPastDue, Eq, Bool(b), None), f, w) <==> b == f.isPastDue
    ensures EvaluateSingle(Condition(CancelsAtPeriodEnd, Eq, Bool(b), None), f, w) <==> b == f.cancelsAtPeriodEnd
    ensures EvaluateSingle(Condition(IsCustomer, Eq, Bool(b), None), f, w) <==> b == f.isCustomer
    ensures EvaluateSingle(Condition(IsDelinquent, Eq, Bool(b), None), f, w) <==> b == f.isDelinquent
  {
  }

  /** The rules on statuses: any active or trialing subscription, any trialing one, any past
      due, any active one that is set to cancel. */
  lemma StatusRules(t: Tables, facts: map<string, FactsRow>, d: string, b: bool, w: World)
    requires MemberExact(t, facts, d)
    ensures d in facts ==>
      var f, rows := facts[d].facts, SubsOf(t, d);
        && (EvaluateSingle(Condition(HasActiveSubscription, Eq, Bool(b), None), f, w) <==>
              b == exists sid <- rows :: t.subs[sid].status == "active" || t.subs[sid].status == "trialing")
        && (EvaluateSingle(Condition(IsTrialing, Eq, Bool(b), None), f, w) <==>
              b == exists sid <- rows :: t.subs[sid].status == "trialing")
        && (EvaluateSingle(Condition(IsPastDue, Eq, Bool(b), None), f, w) <==>
              b == exists sid <- rows :: t.subs[sid].status == "past_due")
        && (EvaluateSingle(Condition(CancelsAtPeriodEnd, Eq, Bool(b), None), f, w) <==>
              b == exists sid <- rows ::
                     (t.subs[sid].status == "active" || t.subs[sid].status == "trialing")
                     && t.subs[sid].cancelAtPeriodEnd)
  {
    hide Aggregate, MemberExact, SubsOf, Fetched, EvaluateSingle;
    if d !in facts {
      return;
    }
    var cs, ss := ExactRows(t, facts, d);
    StatusColumns(cs, ss);
    BoolRules(facts[d].facts, b, w);
    SomeSub(t, d, cs, ss, IsActive);
    SomeSub(t, d, cs, ss, (s: SubRow) => s.status == "trialing");
    SomeSub(t, d, cs, ss, (s: SubRow) => s.status == "past_due");
    SomeSub(t, d, cs, ss, (s: SubRow) => IsActive(s) && s.cancelAtPeriodEnd);
  }

  /** A member with a facts row is a customer, delinquent when some linked customer is. */
  lemma CustomerRules(t: Tables, facts: map<string, FactsRow>, d: string, b: bool, w: World)
    requires MemberExact(t, facts, d)
    ensures d in facts ==>
      (EvaluateSingle(Condition(IsCustomer, Eq, Bool(b), None), facts[d].facts, w) <==> b)
    ensures d in facts ==>
      (EvaluateSingle(Condition(IsDelinquent, Eq, Bool(b), None), facts[d].facts, w) <==>
        b == exists cid <- CustomersOf(t, d) :: t.customers[cid].delinquent)
  {
    hide Aggregate, MemberExact, CustomersOf, SubsOf, Fetched, EvaluateSingle;
    if d !in facts {
      return;
    }
    var cs, ss := ExactRows(t, facts, d);
    StatusColumns(cs, ss);
    BoolRules(facts[d].facts, b, w);
    SomeCustomer(t, d, cs, ss, (c: CustomerRow) => c.delinquent);
  }

  /** The number of active subscriptions, each counted once. */
  lemma CountRule(t: Tables, facts: map<string, FactsRow>, d: string, n: int, w: World)
    requires MemberExact(t, facts, d) && 0 <= n <= I64_MAX
    ensures d in facts ==>
      (EvaluateSingle(Condition(ActiveSubscriptionCount, Eq, Int(n), None), facts[d].facts, w) <==>
        n == |set sid | sid in SubsOf(t, d) && (t.subs[sid].status == "active" || t.subs[sid].status == "trialing")|)
  {
    hide Aggregate, Filter, MemberExact, CustomersOf;
    if d !in facts {
      return;
    }
    var cs, ss := ExactRows(t, facts, d);
    StatusColumns(cs, ss);
    assert ActiveIds(t, SubsOf(t, d))
        == set sid | sid in SubsOf(t, d) && (t.subs[sid].status == "active" || t.subs[sid].status == "trialing");
  }

  /** The statuses from the most to the least favorable; any other comes last. */
  const FAVORED := ["active", "trialing", "past_due", "unpaid", "paused", "incomplete", "canceled"]

  lemma FavoredRanks(status: string)
    ensures forall i | 0 <= i < 7 :: StatusRank(FAVORED[i]) == 7 - i
    ensures status !in FAVORED <==> StatusRank(status) == 0
    ensures forall i | 0 <= i < 7 :: StatusRank(status) == 7 - i <==> status == FAVORED[i]
  {
  }

  lemma Headline(ss: seq<SubRow>, status: string, i: nat)
    requires i < 7 && exists s <- ss :: s.status == status
    requires forall s <- ss :: StatusRank(s.status) <= StatusRank(status)
    ensures status == FAVORED[i] <==>
      (exists s <- ss :: s.status == FAVORED[i]) && !exists s <- ss :: s.status in FAVORED[..i]
    ensures status !in FAVORED ==> !exists s <- ss :: s.status in FAVORED
  {
    FavoredRanks(status);
    assert forall x :: x in FAVORED[..i] <==> exists j | 0 <= j < i :: x == FAVORED[j];
    forall s <- ss
      ensures forall j | 0 <= j < 7 :: StatusRank(s.status) == 7 - j <==> s.status == FAVORED[j]
      ensures s.status !in FAVORED <==> StatusRank(s.status) == 0
    {
      FavoredRanks(s.status);
    }
    hide StatusRank;
  }

  /** The headline status is the most favored one that some subscription has, and an unknown
      one only when no subscription has a known one. */
  lemma HeadlineStatus(t: Tables, facts: map<string, FactsRow>, d: string, i: nat)
    requires MemberExact(t, facts, d) && i < 7
    ensures d in facts ==>
      var status, rows := facts[d].facts.subscriptionStatus, SubsOf(t, d);
        && (status.None? <==> rows == {})
        && (status == Some(FAVORED[i]) <==>
              (exists sid <- rows :: t.subs[sid].status == FAVORED[i])
              && !exists sid <- rows :: t.subs[sid].status in FAVORED[..i])
        && (status.Some? && status.value !in FAVORED ==>
              (exists sid <- rows :: t.subs[sid].status == status.value)
              && !exists sid <- rows :: t.subs[sid].status in FAVORED)
  {
    hide Aggregate, MemberExact, CustomersOf, StatusRank, Fetched;
    if d !in facts {
      return;
    }
    var status := facts[d].facts.subscriptionStatus;
    var cs, ss := ExactRows(t, facts, d);
    FactsProperties.StatusColumn(cs, ss);
    SomeSub(t, d, cs, ss, (s: SubRow) => true);
    SomeSub(t, d, cs, ss, (s: SubRow) => s.status == FAVORED[i]);
    SomeSub(t, d, cs, ss, (s: SubRow) => s.status in FAVORED[..i]);
    SomeSub(t, d, cs, ss, (s: SubRow) => s.status in FAVORED);
    if ss != [] {
      assert ss[0] in ss;
      Headline(ss, status.value, i);
      SomeSub(t, d, cs, ss, (s: SubRow) => s.status == status.value);
    }
  }

  // ---- products and prices ----

  lemma ListRules(f: Facts, items: seq<Json>, w: World)
    ensures var listed := exists p <- f.productIds :: Str(p) in items;
      && (EvaluateSingle(Condition(SubscribedToProduct, In, Arr(items), None), f, w) <==> listed)
      && (EvaluateSingle(Condition(SubscribedToProduct, NotIn, Arr(items), None), f, w) <==> !listed)
    ensures var listed := exists p <- f.priceIds :: Str(p) in items;
      && (EvaluateSingle(Condition(SubscribedToPrice, In, Arr(items), None), f, w) <==> listed)
      && (EvaluateSingle(Condition(SubscribedToPrice, NotIn, Arr(items), None), f, w) <==> !listed)
  {
    forall x
      ensures x in StringItems(items) <==> Str(x) in items
    {
      RuleReading.StringItemsMember(items, x);
    }
    hide StringItems;
  }

  /** "Subscribed to any of these products" asks for an active subscription with a listed
      product; `not_in` for none. */
  lemma ProductListRule(t: Tables, facts: map<string, FactsRow>, d: string, items: seq<Json>, w: World)
    requires MemberExact(t, facts, d)
    ensures d in facts ==>
      var bought := exists sid <- SubsOf(t, d) ::
          (t.subs[sid].status == "active" || t.subs[sid].status == "trialing")
          && t.subs[sid].productId.Some? && Str(t.subs[sid].productId.value) in items;
        && (EvaluateSingle(Condition(SubscribedToProduct, In, Arr(items), None), facts[d].facts, w) <==> bought)
        && (EvaluateSingle(Condition(SubscribedToProduct, NotIn, Arr(items), None), facts[d].facts, w) <==> !bought)
  {
    hide Aggregate, MemberExact, CustomersOf, Fetched, EvaluateSingle;
    if d !in facts {
      return;
    }
    var cs, ss := ExactRows(t, facts, d);
    ListRules(facts[d].facts, items, w);
    ActiveProducts(cs, ss, items);
    SomeSub(t, d, cs, ss, (s: SubRow) => IsActive(s) && s.productId.Some? && Str(s.productId.value) in items);
  }

  lemma PriceListRule(t: Tables, facts: map<string, FactsRow>, d: string, items: seq<Json>, w: World)
    requires MemberExact(t, facts, d)
    ensures d in facts ==>
      var bought := exists sid <- SubsOf(t, d) ::
          (t.subs[sid].status == "active" || t.subs[sid].status == "trialing")
          && t.subs[sid].priceId.Some? && Str(t.subs[sid].priceId.value) in items;
        && (EvaluateSingle(Condition(SubscribedToPrice, In, Arr(items), None), facts[d].facts, w) <==> bought)
        && (EvaluateSingle(Condition(SubscribedToPrice, NotIn, Arr(items), None), facts[d].facts, w) <==> !bought)
  {
    hide Aggregate, MemberExact, CustomersOf, Fetched, EvaluateSingle;
    if d !in facts {
      return;
    }
    var cs, ss := ExactRows(t, facts, d);
    ListRules(facts[d].facts, items, w);
    ActivePrices(cs, ss, items);
    SomeSub(t, d, cs, ss, (s: SubRow) => IsActive(s) && s.priceId.Some? && Str(s.priceId.value) in items);
  }

  /** The id columns: ascending without repeats, the ids of the active subscriptions. */
  lemma ActiveProducts(cs: seq<CustomerRow>, ss: seq<SubRow>, items: seq<Json>)
    ensures var ids := Aggregate(cs, ss).facts.productIds;
      && StrictlyAscending(ids)
      && ((exists p <- ids :: Str(p) in items) <==>
            exists s <- ss :: IsActive(s) && s.productId.Some? && Str(s.productId.value) in items)
  {
    ActiveIdColumn(ss, ProductOf, items);
    hide Map, Filter, Sum, MinSome, MaxBy, SortedIds, FirstSome, ActiveSubs, EmailDomainOf;
  }

  lemma ActivePrices(cs: seq<CustomerRow>, ss: seq<SubRow>, items: seq<Json>)
    ensures var ids := Aggregate(cs, ss).facts.priceIds;
      && StrictlyAscending(ids)
      && ((exists p <- ids :: Str(p) in items) <==>
            exists s <- ss :: IsActive(s) && s.priceId.Some? && Str(s.priceId.value) in items)
  {
    ActiveIdColumn(ss, PriceOf, items);
    hide Map, Filter, Sum, MinSome, MaxBy, SortedIds, FirstSome, ActiveSubs, EmailDomainOf;
  }

  lemma ActiveIdColumn(ss: seq<SubRow>, f: SubRow -> Option<string>, items: seq<Json>)
    ensures var ids := SortedIds(Map(f, ActiveSubs(ss)));
      && StrictlyAscending(ids)
      && ((exists p <- ids :: Str(p) in items) <==>
            exists s <- ss :: IsActive(s) && f(s).Some? && Str(f(s).value) in items)
  {
    var a := ActiveSubs(ss);
    var ids := SortedIds(Map(f, a));
    SortDedup(Values(Map(f, a)));
    assert StrictlyAscending(ids);
    FactsProperties.ActiveMembers(ss);
    hide ActiveSubs, SortedIds, Map, IsActive, StrictlyAscending;
    forall p
      ensures p in ids <==> exists s <- a :: f(s) == Some(p)
    {
      FactsProperties.SortedIdsMember(Map(f, a), p);
      FactsProperties.MappedMember(f, a, Some(p));
    }
    if s :| s in ss && IsActive(s) && f(s).Some? && Str(f(s).value) in items {
      assert f(s) == Some(f(s).value) && f(s).value in ids;
    }
  }
}
