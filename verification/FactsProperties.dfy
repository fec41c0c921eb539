/** What the aggregate means: independence of the row order, coherence of the rules
    that read it, and the accuracy of the recurring-revenue total. */
module FactsProperties {
  import opened Wrappers
  import opened Rules
  import opened Seqs
  import opened MemberFacts
  import opened ConditionEval

  // ---- row order ----

  /** The columns that take the first non-null value in row order, or break a tie. */
  function WithoutOrdered(r: FactsRow): FactsRow {
    FactsRow(
      r.facts.(subscriptionStatus := None, billingInterval := None,
               countryCode := None, currency := None, emailDomain := None),
      None, r.trialEnd)
  }

  lemma {:induction false} ActiveMembers(ss: seq<SubRow>)
    ensures forall s :: s in ActiveSubs(ss) <==> s in ss && IsActive(s)
  {
    forall s: SubRow
      ensures s in ActiveSubs(ss) <==> s in ss && IsActive(s)
    {
      FilterMember(IsActive, ss, s);
    }
  }

  lemma SortedIdsReordered(f: SubRow -> Option<string>, s: seq<SubRow>, t: seq<SubRow>)
    requires Reordered(s, t)
    ensures SortedIds(Map(f, s)) == SortedIds(Map(f, t))
  {
    MapReordered(f, s, t);
    ValuesReordered(Map(f, s), Map(f, t));
    SortDedup(Values(Map(f, s)));
    SortDedup(Values(Map(f, t)));
    StrictlyAscendingUnique(SortedIds(Map(f, s)), SortedIds(Map(f, t)));
  }

  lemma MinMapReordered<A>(f: A -> Option<int>, s: seq<A>, t: seq<A>)
    requires Reordered(s, t)
    ensures MinSome(Map(f, s)) == MinSome(Map(f, t))
  {
    MapReordered(f, s, t);
    MinReordered(Map(f, s), Map(f, t));
  }

  lemma SumMapReordered<A>(f: A -> int, s: seq<A>, t: seq<A>)
    requires Reordered(s, t)
    ensures Sum(Map(f, s)) == Sum(Map(f, t))
  {
    MapReordered(f, s, t);
    SumReordered(Map(f, s), Map(f, t));
  }

  /** Ranks above 0 belong to one status each. */
  lemma RankDeterminesStatus(a: string, b: string)
    requires StatusRank(a) == StatusRank(b) > 0
    ensures a == b
  {
  }

  lemma ColumnsReordered(cs: seq<CustomerRow>, ss: seq<SubRow>, ct: seq<CustomerRow>, st: seq<SubRow>)
    requires Reordered(cs, ct) && Reordered(ss, st)
    ensures WithoutOrdered(Aggregate(cs, ss)) == WithoutOrdered(Aggregate(ct, st))
  {
    hide Map, Filter, Sum, MinSome, MaxBy, SortedIds, FirstSome, EmailDomainOf;
    var a, b := ActiveSubs(ss), ActiveSubs(st);
    FilterReordered(IsActive, ss, st);
    ReorderedMembers(a, b);
    ReorderedMembers(ss, st);
    ReorderedMembers(cs, ct);
    SortedIdsReordered(ProductOf, a, b);
    SortedIdsReordered(PriceOf, a, b);
    MinMapReordered(StartedOf, a, b);
    MinMapReordered(PeriodEndOf, a, b);
    MinMapReordered(TrialEndOf, a, b);
    MinMapReordered(CreatedOf, cs, ct);
    SumMapReordered(Mrr, a, b);
    SumMapReordered(SpendOf, cs, ct);
    SumMapReordered(PaymentsOf, cs, ct);
    MaxReordered(PeriodCharge, a, b);
  }

  lemma HeadlineReordered(ss: seq<SubRow>, st: seq<SubRow>)
    requires Reordered(ss, st) && exists s <- ss :: StatusRank(s.status) > 0
    ensures MaxBy(RankOf, ss).Some? && MaxBy(RankOf, st).Some?
    ensures MaxBy(RankOf, ss).value.status == MaxBy(RankOf, st).value.status
  {
    MaxReordered(RankOf, ss, st);
    var s :| s in ss && StatusRank(s.status) > 0;
    assert RankOf(s) <= RankOf(MaxBy(RankOf, ss).value);
    RankDeterminesStatus(MaxBy(RankOf, ss).value.status, MaxBy(RankOf, st).value.status);
  }

  /** All active subscriptions with the largest charge bill at one interval. */
  predicate OneTopInterval(active: seq<SubRow>) {
    var top := MaxBy(PeriodCharge, active);
    top.Some? ==> forall s <- active :: PeriodCharge(s) == PeriodCharge(top.value) ==> s.interval == top.value.interval
  }

  lemma PrimaryReordered(a: seq<SubRow>, b: seq<SubRow>)
    requires Reordered(a, b) && OneTopInterval(a)
    ensures MaxBy(PeriodCharge, a).Some? == MaxBy(PeriodCharge, b).Some?
    ensures MaxBy(PeriodCharge, a).Some?
            ==> MaxBy(PeriodCharge, a).value.interval == MaxBy(PeriodCharge, b).value.interval
  {
    MaxReordered(PeriodCharge, a, b);
    ReorderedMembers(a, b);
  }

  /** Fetching the same rows in another order changes nothing but the columns above;
      the headline status changes only when every status has rank 0, and the billing
      interval only when two intervals share the largest charge. */
  lemma RowOrderIndependence(cs: seq<CustomerRow>, ss: seq<SubRow>, ct: seq<CustomerRow>, st: seq<SubRow>)
    requires Reordered(cs, ct) && Reordered(ss, st)
    ensures WithoutOrdered(Aggregate(cs, ss)) == WithoutOrdered(Aggregate(ct, st))
    ensures (exists s <- ss :: StatusRank(s.status) > 0)
            ==> Aggregate(cs, ss).facts.subscriptionStatus == Aggregate(ct, st).facts.subscriptionStatus
    ensures OneTopInterval(ActiveSubs(ss))
            ==> Aggregate(cs, ss).facts.billingInterval == Aggregate(ct, st).facts.billingInterval
  {
    hide Map, Filter, Sum, MinSome, MaxBy, SortedIds, FirstSome, OneTopInterval, WithoutOrdered;
    ColumnsReordered(cs, ss, ct, st);
    FilterReordered(IsActive, ss, st);
    if exists s <- ss :: StatusRank(s.status) > 0 {
      HeadlineReordered(ss, st);
    }
    if OneTopInterval(ActiveSubs(ss)) {
      PrimaryReordered(ActiveSubs(ss), ActiveSubs(st));
    }
  }

  // ---- rules over the row ----

  const ACTIVE_RULE := Condition(HasActiveSubscription, Eq, Bool(true), None)
  const STATUS_RULE := Condition(SubscriptionStatus, In, Arr([Str("active"), Str("trialing")]), None)
  const COUNT_RULE := Condition(ActiveSubscriptionCount, Gte, Int(1), None)

  lemma ActiveStatuses(s: string)
    ensures StatusRank(s) >= 6 <==> s == "active" || s == "trialing"
    ensures s in StrArray(STATUS_RULE) <==> s == "active" || s == "trialing"
  {
    var items := [Str("active"), Str("trialing")];
    assert items[1..] == [Str("trialing")] && items[1..][1..] == [];
    assert StringItems(items[1..]) == ["trialing"];
    assert StringItems(items) == ["active"] + ["trialing"];
  }

  lemma HeadlineIsActive(ss: seq<SubRow>)
    ensures var h := MaxBy(RankOf, ss);
      (h.Some? && IsActive(h.value)) <==> exists s <- ss :: IsActive(s)
  {
    var h := MaxBy(RankOf, ss);
    if s :| s in ss && IsActive(s) {
      ActiveStatuses(s.status);
      assert RankOf(s) <= RankOf(h.value);
      ActiveStatuses(h.value.status);
    }
  }

  /** The three ways to ask for an active subscription decide alike on every row. */
  lemma ActiveRulesAgree(cs: seq<CustomerRow>, ss: seq<SubRow>, w: World)
    ensures var f := Aggregate(cs, ss).facts;
      && (EvaluateSingle(ACTIVE_RULE, f, w) <==> exists s <- ss :: IsActive(s))
      && EvaluateSingle(STATUS_RULE, f, w) == EvaluateSingle(ACTIVE_RULE, f, w)
      && EvaluateSingle(COUNT_RULE, f, w) == EvaluateSingle(ACTIVE_RULE, f, w)
  {
    hide Map, Filter, Sum, MinSome, MaxBy, SortedIds, FirstSome, StrArray, EmailDomainOf;
    var headline := MaxBy(RankOf, ss);
    ActiveMembers(ss);
    if ActiveSubs(ss) != [] {
      assert ActiveSubs(ss)[0] in ActiveSubs(ss);
    }
    HeadlineIsActive(ss);
    if headline.Some? {
      ActiveStatuses(headline.value.status);
    }
  }

  lemma MappedMember<A>(f: SubRow -> A, s: seq<SubRow>, y: A)
    ensures y in Map(f, s) <==> exists x <- s :: f(x) == y
  {
    var m := Map(f, s);
    if y in m {
      var i :| 0 <= i < |m| && m[i] == y;
      assert s[i] in s && f(s[i]) == y;
    }
    if x :| x in s && f(x) == y {
      var i :| 0 <= i < |s| && s[i] == x;
      assert m[i] == y;
    }
  }

  /** "Subscribed to product p" is true exactly when some active subscription has
      product p, and likewise for prices: sorting and deduplicating lose and invent
      nothing. */
  lemma ProductRule(cs: seq<CustomerRow>, ss: seq<SubRow>, p: string, w: World)
    ensures EvaluateSingle(Condition(SubscribedToProduct, Eq, Str(p), None), Aggregate(cs, ss).facts, w)
      <==> exists s <- ss :: IsActive(s) && s.productId == Some(p)
  {
    hide Map, Filter, Sum, MinSome, MaxBy, SortedIds, FirstSome, ActiveSubs, EmailDomainOf;
    var a := ActiveSubs(ss);
    SortedIdsMember(Map(ProductOf, a), p);
    assert EvaluateSingle(Condition(SubscribedToProduct, Eq, Str(p), None), Aggregate(cs, ss).facts, w)
      <==> p in SortedIds(Map(ProductOf, a));
    ActiveMembers(ss);
    MappedMember(ProductOf, a, Some(p));
  }

  lemma PriceRule(cs: seq<CustomerRow>, ss: seq<SubRow>, p: string, w: World)
    ensures EvaluateSingle(Condition(SubscribedToPrice, Eq, Str(p), None), Aggregate(cs, ss).facts, w)
      <==> exists s <- ss :: IsActive(s) && s.priceId == Some(p)
  {
    hide Map, Filter, Sum, MinSome, MaxBy, SortedIds, FirstSome, ActiveSubs, EmailDomainOf;
    var a := ActiveSubs(ss);
    SortedIdsMember(Map(PriceOf, a), p);
    assert EvaluateSingle(Condition(SubscribedToPrice, Eq, Str(p), None), Aggregate(cs, ss).facts, w)
      <==> p in SortedIds(Map(PriceOf, a));
    ActiveMembers(ss);
    MappedMember(PriceOf, a, Some(p));
  }

  lemma SortedIdsMember(ids: seq<Option<string>>, p: string)
    ensures p in SortedIds(ids) <==> Some(p) in ids
  {
    SortDedup(Values(ids));
  }

  // ---- what the columns mean ----

  /** `x` is the least of the values that some row has; none when no row has one. */
  ghost predicate LeastOf<A>(x: Option<int>, s: seq<A>, f: A -> Option<int>) {
    if x.None? then forall a <- s :: f(a).None?
    else (exists a <- s :: f(a) == x) && forall a <- s :: f(a).Some? ==> x.value <= f(a).value
  }

  lemma MinSomeIsLeast<A>(f: A -> Option<int>, s: seq<A>)
    ensures LeastOf(MinSome(Map(f, s)), s, f)
  {
    var m := Map(f, s);
    forall a <- s
      ensures f(a) in m
    {
      var i :| 0 <= i < |s| && s[i] == a;
      assert m[i] == f(a);
    }
    var x := MinSome(m);
    if x.Some? {
      var i :| 0 <= i < |m| && m[i] == x;
      assert s[i] in s && f(s[i]) == x;
    }
  }

  /** The plan amount is the largest charge of an active subscription, and the billing
      interval belongs to a subscription charging it. */
  lemma PlanColumns(cs: seq<CustomerRow>, ss: seq<SubRow>)
    ensures var f := Aggregate(cs, ss).facts;
      && (forall s <- ActiveSubs(ss) :: PeriodCharge(s) <= f.planAmountCents)
      && (if ActiveSubs(ss) == [] then f.planAmountCents == 0 && f.billingInterval.None?
          else exists s <- ActiveSubs(ss) ::
                 PeriodCharge(s) == f.planAmountCents && s.interval == f.billingInterval)
  {
    hide Map, Filter, Sum, MinSome, MaxBy, SortedIds, FirstSome, EmailDomainOf;
    var primary := MaxBy(PeriodCharge, ActiveSubs(ss));
    if primary.Some? {
      assert primary.value in ActiveSubs(ss);
    }
  }

  /** The headline status is one of the most favorable. */
  lemma StatusColumn(cs: seq<CustomerRow>, ss: seq<SubRow>)
    ensures var status := Aggregate(cs, ss).facts.subscriptionStatus;
      && (ss == [] ==> status.None?)
      && (ss != [] ==>
            && status.Some?
            && (exists s <- ss :: s.status == status.value)
            && forall s <- ss :: StatusRank(s.status) <= StatusRank(status.value))
  {
    hide Map, Filter, Sum, MinSome, MaxBy, SortedIds, FirstSome, EmailDomainOf;
    var headline := MaxBy(RankOf, ss);
    if headline.Some? {
      assert headline.value in ss;
      assert forall x <- ss :: RankOf(x) <= RankOf(headline.value);
    }
  }

  /** Each date is the earliest over the rows that have one. */
  lemma DateColumns(cs: seq<CustomerRow>, ss: seq<SubRow>)
    ensures var f := Aggregate(cs, ss).facts;
      && LeastOf(f.subscriptionStartedAt, ActiveSubs(ss), StartedOf)
      && LeastOf(f.currentPeriodEnd, ActiveSubs(ss), PeriodEndOf)
      && LeastOf(f.customerCreatedAt, cs, CreatedOf)
      && LeastOf(Aggregate(cs, ss).trialEnd, ActiveSubs(ss), TrialEndOf)
  {
    MinSomeIsLeast(StartedOf, ActiveSubs(ss));
    MinSomeIsLeast(PeriodEndOf, ActiveSubs(ss));
    MinSomeIsLeast(CreatedOf, cs);
    MinSomeIsLeast(TrialEndOf, ActiveSubs(ss));
    hide Map, Filter, Sum, MinSome, MaxBy, SortedIds, FirstSome, EmailDomainOf, LeastOf;
  }

  // ---- recurring revenue ----

  lemma RoundError(x: real)
    ensures -0.5 <= Round(x) as real - x <= 0.5
  {
  }

  lemma RoundMonotone(x: real, y: real)
    requires x <= y
    ensures Round(x) <= Round(y)
  {
  }

  /** The factor by which an interval scales an amount to one month. */
  function MonthlyFactor(interval: Option<string>, count: int): (k: real)
    ensures k > 0.0
  {
    var n := (if count >= 1 then count else 1) as real;
    match if interval.Some? then interval.value else "month"
    case "year" => 1.0 / (12.0 * n)
    case "week" => 52.0 / 12.0 / n
    case "day" => 30.0 / n
    case _ => 1.0 / n
  }

  lemma MonthlyIsLinear(amount: int, interval: Option<string>, count: int)
    ensures ExactMonthly(amount, interval, count) == amount as real * MonthlyFactor(interval, count)
  {
    var n := (if count >= 1 then count else 1) as real;
    var a := amount as real;
    DivAsProduct(a, 12.0 * n);
    DivAsProduct(a * 52.0 / 12.0, n);
    DivAsProduct(52.0 / 12.0, n);
    DivAsProduct(a * 30.0, n);
    DivAsProduct(30.0, n);
    DivAsProduct(a, n);
    var v := 1.0 / n;
    assert (a * 52.0 / 12.0) * v == a * (52.0 / 12.0 * v);
    assert (a * 30.0) * v == a * (30.0 * v);
  }

  lemma DivAsProduct(a: real, b: real)
    requires b > 0.0
    ensures a / b == a * (1.0 / b)
  {
  }

  /** A larger amount at the same interval never has a smaller monthly value. */
  lemma MonthlyMonotone(a: int, b: int, interval: Option<string>, count: int)
    requires a <= b
    ensures MonthlyValue(a, interval, count) <= MonthlyValue(b, interval, count)
  {
    ExactMonotone(a, b, interval, count);
    RoundMonotone(ExactMonthly(a, interval, count), ExactMonthly(b, interval, count));
    hide ExactMonthly, Round;
  }

  lemma ExactMonotone(a: int, b: int, interval: Option<string>, count: int)
    requires a <= b
    ensures ExactMonthly(a, interval, count) <= ExactMonthly(b, interval, count)
  {
    hide MonthlyFactor, ExactMonthly;
    var k := MonthlyFactor(interval, count);
    MonthlyIsLinear(a, interval, count);
    MonthlyIsLinear(b, interval, count);
    ScaleMonotone(a as real, b as real, k);
    assert ExactMonthly(a, interval, count) == a as real * k;
    assert ExactMonthly(b, interval, count) == b as real * k;
  }

  lemma ScaleMonotone(x: real, y: real, k: real)
    requires x <= y && k > 0.0
    ensures x * k <= y * k
  {
    assert y * k - x * k == (y - x) * k;
  }

  /** Twelve times the amount per year is the amount per month. */
  lemma YearlyIsTwelveMonths(a: int, count: int)
    ensures MonthlyValue(12 * a, Some("year"), count) == MonthlyValue(a, Some("month"), count)
  {
    var n := (if count >= 1 then count else 1) as real;
    assert ExactMonthly(12 * a, Some("year"), count) == (12 * a) as real / (12.0 * n);
    assert ExactMonthly(a, Some("month"), count) == a as real / n;
    assert (12 * a) as real == 12.0 * a as real;
    TwelfthOfTwelve(a as real, n);
    hide ExactMonthly, Round;
  }

  lemma TwelfthOfTwelve(x: real, n: real)
    requires n > 0.0
    ensures (12.0 * x) / (12.0 * n) == x / n
  {
    var q := x / n;
    assert q * n == x;
    assert q * (12.0 * n) == 12.0 * x;
  }

  function ExactTotal(ss: seq<SubRow>): real {
    if ss == [] then 0.0
    else ExactMonthly(PeriodCharge(ss[0]), ss[0].interval, ss[0].intervalCount) + ExactTotal(ss[1..])
  }

  lemma {:induction false} MrrError(ss: seq<SubRow>)
    ensures -(|ss| as real) / 2.0 <= Sum(Map(Mrr, ss)) as real - ExactTotal(ss) <= |ss| as real / 2.0
  {
    if ss != [] {
      RoundError(ExactMonthly(PeriodCharge(ss[0]), ss[0].interval, ss[0].intervalCount));
      MrrError(ss[1..]);
    }
  }

  /** The stored total is within half a cent per active subscription of the exact sum. */
  lemma TotalMrrError(cs: seq<CustomerRow>, ss: seq<SubRow>)
    ensures var f := Aggregate(cs, ss).facts;
      var exact := ExactTotal(ActiveSubs(ss));
      -(f.activeSubscriptionCount as real) / 2.0 <= f.totalMrrCents as real - exact
      <= f.activeSubscriptionCount as real / 2.0
  {
    MrrError(ActiveSubs(ss));
  }
}
