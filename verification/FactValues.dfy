/** What the dates, amounts and texts of an exact facts row say about the member's own rows, and
    so what the rules on them ask. */
module FactValues {
  import opened Wrappers
  import opened Text
  import opened Rules
  import opened Seqs
  import opened MemberFacts
  import opened Ingest
  import opened Webhooks
  import opened ViewMaintenance
  import opened ConditionEval
  import opened FactColumns
  import opened FactsProperties
  import Charges
  import MemberSpend
  import RuleReading

  // ---- dates ----

  /** At least `n` whole days have passed exactly when `n` times 24 hours have; at most `n` are
      left exactly when less than `n` + 1 times 24 hours are. */
  lemma DaysReached(d: int, n: int)
    ensures n >= 1 ==> (NumDays(d) >= n <==> d >= n * 86_400_000_000)
    ensures n >= 0 ==> (NumDays(d) <= n <==> d < (n + 1) * 86_400_000_000)
  {
    RuleReading.CountedDays(d);
    hide NumDays;
  }

  lemma AgeReached<A>(x: Option<int>, s: seq<A>, f: A -> Option<int>, now: int, n: int)
    requires LeastOf(x, s, f)
    ensures n >= 1 ==>
      (x.Some? && NumDays(now - x.value) >= n <==>
        exists a <- s :: f(a).Some? && now - f(a).value >= n * 86_400_000_000)
    ensures n >= 0 ==>
      (x.Some? && NumDays(x.value - now) <= n <==>
        exists a <- s :: f(a).Some? && f(a).value - now < (n + 1) * 86_400_000_000)
  {
    if x.Some? {
      DaysReached(now - x.value, n);
      DaysReached(x.value - now, n);
    }
    hide NumDays;
  }

  lemma DayRules(f: Facts, n: int, w: World)
    requires I64_MIN <= n <= I64_MAX
    ensures EvaluateSingle(Condition(CustomerAgeDays, Gte, Int(n), None), f, w) <==>
      f.customerCreatedAt.Some? && NumDays(w.now - f.customerCreatedAt.value) >= n
    ensures EvaluateSingle(Condition(SubscriptionAgeDays, Gte, Int(n), None), f, w) <==>
      f.subscriptionStartedAt.Some? && NumDays(w.now - f.subscriptionStartedAt.value) >= n
    ensures EvaluateSingle(Condition(DaysUntilRenewal, Lte, Int(n), None), f, w) <==>
      f.currentPeriodEnd.Some? && NumDays(f.currentPeriodEnd.value - w.now) <= n
  {
    hide NumDays;
  }

  /** "A customer for at least n days" asks for a linked customer created that long ago. */
  lemma CustomerAgeRule(t: Tables, facts: map<string, FactsRow>, d: string, n: int, w: World)
    requires MemberExact(t, facts, d) && 1 <= n <= I64_MAX
    ensures d in facts ==>
      (EvaluateSingle(Condition(CustomerAgeDays, Gte, Int(n), None), facts[d].facts, w) <==>
        exists cid <- CustomersOf(t, d) ::
          t.customers[cid].createdAt.Some? && w.now - t.customers[cid].createdAt.value >= n * 86_400_000_000)
  {
    hide Aggregate, MemberExact, SubsOf, Fetched, EvaluateSingle, NumDays, LeastOf;
    if d !in facts {
      return;
    }
    var cs, ss := ExactRows(t, facts, d);
    DateColumns(cs, ss);
    DayRules(facts[d].facts, n, w);
    AgeReached(facts[d].facts.customerCreatedAt, cs, CreatedOf, w.now, n);
    SomeCustomer(t, d, cs, ss, (c: CustomerRow) =>
      c.createdAt.Some? && w.now - c.createdAt.value >= n * 86_400_000_000);
  }

  /** "Subscribed for at least n days" asks for an active subscription started that long ago. */
  lemma SubscriptionAgeRule(t: Tables, facts: map<string, FactsRow>, d: string, n: int, w: World)
    requires MemberExact(t, facts, d) && 1 <= n <= I64_MAX
    ensures d in facts ==>
      (EvaluateSingle(Condition(SubscriptionAgeDays, Gte, Int(n), None), facts[d].facts, w) <==>
        exists sid <- SubsOf(t, d) ::
          (t.subs[sid].status == "active" || t.subs[sid].status == "trialing")
          && t.subs[sid].startedAt.Some? && w.now - t.subs[sid].startedAt.value >= n * 86_400_000_000)
  {
    hide Aggregate, MemberExact, CustomersOf, Fetched, EvaluateSingle, NumDays, LeastOf, ActiveSubs;
    if d !in facts {
      return;
    }
    var cs, ss := ExactRows(t, facts, d);
    DateColumns(cs, ss);
    ActiveMembers(ss);
    DayRules(facts[d].facts, n, w);
    AgeReached(facts[d].facts.subscriptionStartedAt, ActiveSubs(ss), StartedOf, w.now, n);
    SomeSub(t, d, cs, ss, (s: SubRow) =>
      IsActive(s) && s.startedAt.Some? && w.now - s.startedAt.value >= n * 86_400_000_000);
  }

  /** "Renews within n days" asks for an active subscription whose period ends before n + 1 times
      24 hours are over. */
  lemma RenewalRule(t: Tables, facts: map<string, FactsRow>, d: string, n: int, w: World)
    requires MemberExact(t, facts, d) && 0 <= n <= I64_MAX
    ensures d in facts ==>
      (EvaluateSingle(Condition(DaysUntilRenewal, Lte, Int(n), None), facts[d].facts, w) <==>
        exists sid <- SubsOf(t, d) ::
          (t.subs[sid].status == "active" || t.subs[sid].status == "trialing")
          && t.subs[sid].periodEnd.Some? && t.subs[sid].periodEnd.value - w.now < (n + 1) * 86_400_000_000)
  {
    hide Aggregate, MemberExact, CustomersOf, Fetched, EvaluateSingle, NumDays, LeastOf, ActiveSubs;
    if d !in facts {
      return;
    }
    var cs, ss := ExactRows(t, facts, d);
    DateColumns(cs, ss);
    ActiveMembers(ss);
    DayRules(facts[d].facts, n, w);
    AgeReached(facts[d].facts.currentPeriodEnd, ActiveSubs(ss), PeriodEndOf, w.now, n);
    SomeSub(t, d, cs, ss, (s: SubRow) =>
      IsActive(s) && s.periodEnd.Some? && s.periodEnd.value - w.now < (n + 1) * 86_400_000_000);
  }

  /** The trial end shown is the earliest of the linked active subscriptions that have one. */
  lemma TrialEndColumn(t: Tables, facts: map<string, FactsRow>, d: string, n: int)
    requires MemberExact(t, facts, d)
    ensures d in facts ==>
      ((facts[d].trialEnd.Some? && facts[d].trialEnd.value <= n) <==>
        exists sid <- SubsOf(t, d) ::
          (t.subs[sid].status == "active" || t.subs[sid].status == "trialing")
          && t.subs[sid].trialEnd.Some? && t.subs[sid].trialEnd.value <= n)
  {
    hide Aggregate, MemberExact, CustomersOf, Fetched, LeastOf, ActiveSubs;
    if d !in facts {
      return;
    }
    var cs, ss := ExactRows(t, facts, d);
    DateColumns(cs, ss);
    ActiveMembers(ss);
    EarliestBy(facts[d].trialEnd, ActiveSubs(ss), TrialEndOf, n);
    SomeSub(t, d, cs, ss, (s: SubRow) => IsActive(s) && s.trialEnd.Some? && s.trialEnd.value <= n);
  }

  lemma EarliestBy<A>(x: Option<int>, s: seq<A>, f: A -> Option<int>, n: int)
    requires LeastOf(x, s, f)
    ensures (x.Some? && x.value <= n) <==> exists a <- s :: f(a).Some? && f(a).value <= n
  {
  }

  // ---- amounts ----

  lemma AmountRules(f: Facts, n: int, w: World)
    requires I64_MIN <= n <= I64_MAX
    ensures EvaluateSingle(Condition(PlanAmount, Gte, Int(n), None), f, w) <==> n <= f.planAmountCents
    ensures EvaluateSingle(Condition(TotalMrr, Gte, Int(n), None), f, w) <==> n <= f.totalMrrCents
    ensures EvaluateSingle(Condition(LifetimeSpend, Gte, Int(n), None), f, w) <==> n <= f.lifetimeSpendCents
    ensures EvaluateSingle(Condition(SuccessfulPayments, Gte, Int(n), None), f, w) <==> n <= f.successfulPayments
  {
  }

  /** "Pays at least n per period" asks for an active subscription whose unit amount, times its
      quantity but at least once, is n or more. */
  lemma PlanAmountRule(t: Tables, facts: map<string, FactsRow>, d: string, n: int, w: World)
    requires MemberExact(t, facts, d) && 1 <= n <= I64_MAX
    ensures d in facts ==>
      (EvaluateSingle(Condition(PlanAmount, Gte, Int(n), None), facts[d].facts, w) <==>
        exists sid <- SubsOf(t, d) ::
          (t.subs[sid].status == "active" || t.subs[sid].status == "trialing")
          && (if t.subs[sid].quantity > 1 then t.subs[sid].unitAmount * t.subs[sid].quantity
              else t.subs[sid].unitAmount) >= n)
  {
    hide Aggregate, MemberExact, CustomersOf, Fetched, EvaluateSingle, ActiveSubs;
    if d !in facts {
      return;
    }
    var cs, ss := ExactRows(t, facts, d);
    PlanColumns(cs, ss);
    ActiveMembers(ss);
    AmountRules(facts[d].facts, n, w);
    SomeSub(t, d, cs, ss, (s: SubRow) =>
      IsActive(s) && (if s.quantity > 1 then s.unitAmount * s.quantity else s.unitAmount) >= n);
    assert forall s: SubRow :: PeriodCharge(s) == if s.quantity > 1 then s.unitAmount * s.quantity else s.unitAmount;
    hide PeriodCharge;
  }

  /** The totals are those of the linked customers. */
  lemma SpendRules(t: Tables, facts: map<string, FactsRow>, d: string, n: int, w: World)
    requires MemberExact(t, facts, d) && I64_MIN <= n <= I64_MAX
    ensures d in facts ==>
      (EvaluateSingle(Condition(LifetimeSpend, Gte, Int(n), None), facts[d].facts, w) <==>
        n <= Charges.SetSum(CustomersOf(t, d), MemberSpend.SpendBy(t)))
    ensures d in facts ==>
      (EvaluateSingle(Condition(SuccessfulPayments, Gte, Int(n), None), facts[d].facts, w) <==>
        n <= Charges.SetSum(CustomersOf(t, d), MemberSpend.PaymentsBy(t)))
  {
    hide MemberExact, EvaluateSingle, CustomersOf;
    if d !in facts {
      return;
    }
    MemberSpend.ExactSpend(t, facts, d);
    AmountRules(facts[d].facts, n, w);
  }

  /** Position `i` holds the largest key, and every later one a smaller key. */
  ghost predicate LastTop<A>(key: A -> int, s: seq<A>, i: nat) {
    && i < |s|
    && (forall j | 0 <= j <= i :: key(s[j]) <= key(s[i]))
    && forall j | i < j < |s| :: key(s[j]) < key(s[i])
  }

  /** Of the active subscriptions with the largest charge the last one fetched gives the
      billing interval. */
  lemma BillingIntervalColumn(cs: seq<CustomerRow>, ss: seq<SubRow>)
    ensures var a := ActiveSubs(ss);
      var interval := Aggregate(cs, ss).facts.billingInterval;
      a != [] ==> exists i: nat :: LastTop(PeriodCharge, a, i) && interval == a[i].interval
  {
    hide Aggregate, ActiveSubs, MaxBy, PeriodCharge, LastTop;
    var a := ActiveSubs(ss);
    if a != [] {
      var i := LastLargest(PeriodCharge, a);
      PrimaryInterval(cs, ss);
    }
  }

  lemma PrimaryInterval(cs: seq<CustomerRow>, ss: seq<SubRow>)
    ensures var top := MaxBy(PeriodCharge, ActiveSubs(ss));
      Aggregate(cs, ss).facts.billingInterval == if top.Some? then top.value.interval else None
  {
    hide Map, Filter, Sum, MinSome, MaxBy, SortedIds, FirstSome, EmailDomainOf, PeriodCharge, ActiveSubs;
  }

  lemma {:induction false} LastLargest<A>(key: A -> int, s: seq<A>) returns (i: nat)
    requires s != []
    ensures i < |s| && MaxBy(key, s) == Some(s[i]) && LastTop(key, s, i)
  {
    i := 0;
    if |s| > 1 {
      var k := LastLargest(key, s[1..]);
      if key(s[0]) <= key(s[k + 1]) {
        i := k + 1;
      }
      forall j | 0 < j < |s|
        ensures s[j] == s[1..][j - 1]
      {
      }
    }
  }

  /** Rounding goes to the nearest cent, and half a cent away from zero. */
  lemma RoundsHalfAway(x: real)
    ensures x >= 0.0 ==> Round(x) as real - 0.5 <= x < Round(x) as real + 0.5
    ensures x < 0.0 ==> Round(x) as real - 0.5 < x <= Round(x) as real + 0.5
  {
  }

  /** The amount of `n` intervals per month: twelve months a year, 52 weeks a year, 30 days a
      month; an unknown interval, or none, is a month, and a count below one is one. */
  lemma MonthlyShare(amount: int, interval: Option<string>, count: int)
    ensures var x := ExactMonthly(amount, interval, count);
      var n := (if count > 1 then count else 1) as real;
      && (interval == Some("year") ==> x * (12.0 * n) == amount as real)
      && (interval == Some("week") ==> x * (12.0 * n) == 52.0 * amount as real)
      && (interval == Some("day") ==> x * n == 30.0 * amount as real)
      && (interval !in {Some("year"), Some("week"), Some("day")} ==> x * n == amount as real)
  {
    var n := (if count > 1 then count else 1) as real;
    var a := amount as real;
    DivideBack(a, 12.0 * n);
    DivideBack(a * 52.0 / 12.0, n);
    DivideBack(a * 30.0, n);
    DivideBack(a, n);
    assert (a * 52.0 / 12.0 / n) * (12.0 * n) == ((a * 52.0 / 12.0 / n) * n) * 12.0;
  }

  lemma DivideBack(a: real, n: real)
    requires n > 0.0
    ensures a / n * n == a
  {
  }

  // ---- texts ----

  /** `x` is what the first row that knows it says. */
  ghost predicate FirstKnown<A>(x: Option<string>, s: seq<A>, f: A -> Option<string>) {
    if x.None? then forall a <- s :: f(a).None?
    else exists i | 0 <= i < |s| :: f(s[i]) == x && forall j | 0 <= j < i :: f(s[j]).None?
  }

  lemma {:induction false} FirstIsKnown<A>(s: seq<A>, f: A -> Option<string>)
    ensures FirstKnown(FirstSome(Map(f, s)), s, f)
  {
    if s != [] {
      FirstIsKnown(s[1..], f);
      var x, rest := FirstSome(Map(f, s)), s[1..];
      if f(s[0]).Some? {
        assert f(s[0]) == x;
      } else if x.Some? {
        var i :| 0 <= i < |rest| && f(rest[i]) == x && forall j | 0 <= j < i :: f(rest[j]).None?;
        forall j | 0 <= j < i + 1
          ensures f(s[j]).None?
        {
          assert j > 0 ==> s[j] == rest[j - 1];
        }
        assert f(s[i + 1]) == x;
      } else {
        assert forall a :: a in s <==> a == s[0] || a in rest;
      }
    }
  }

  /** Email, country and currency are those of the first customer fetched that has one; the
      currency may come from an active subscription when no customer has one. */
  lemma TextColumns(cs: seq<CustomerRow>, ss: seq<SubRow>)
    ensures var r := Aggregate(cs, ss);
      && FirstKnown(r.email, cs, (c: CustomerRow) => c.email)
      && FirstKnown(r.facts.countryCode, cs, (c: CustomerRow) => c.country)
      && (if exists c <- cs :: c.currency.Some? then FirstKnown(r.facts.currency, cs, (c: CustomerRow) => c.currency)
          else FirstKnown(r.facts.currency, ActiveSubs(ss), (s: SubRow) => s.currency))
      && (r.email.None? ==> r.facts.emailDomain.None?)
      && (r.email.Some? ==> r.facts.emailDomain == Domain(r.email.value))
  {
    FirstIsKnown(cs, EmailOf);
    FirstIsKnown(cs, CountryOf);
    FirstIsKnown(cs, CustomerCurrencyOf);
    FirstIsKnown(ActiveSubs(ss), SubCurrencyOf);
    hide Map, Filter, Sum, MinSome, MaxBy, SortedIds, FirstSome;
  }

  lemma TextRules(f: Facts, x: string, w: World)
    ensures EvaluateSingle(Condition(SubscriptionStatus, Eq, Str(x), None), f, w) <==> f.subscriptionStatus == Some(x)
    ensures EvaluateSingle(Condition(BillingInterval, Eq, Str(x), None), f, w) <==> f.billingInterval == Some(x)
    ensures EvaluateSingle(Condition(CountryCode, Eq, Str(x), None), f, w) <==> f.countryCode == Some(x)
    ensures EvaluateSingle(Condition(Currency, Eq, Str(x), None), f, w) <==> f.currency == Some(x)
    ensures EvaluateSingle(Condition(EmailDomain, Eq, Str(x), None), f, w) <==> f.emailDomain == Some(x)
  {
  }

  lemma KnownSomewhere<A>(x: Option<string>, s: seq<A>, f: A -> Option<string>)
    requires FirstKnown(x, s, f)
    ensures x.Some? <==> exists a <- s :: f(a).Some?
    ensures x.Some? ==> exists a <- s :: f(a) == x
  {
    if x.Some? {
      var i :| 0 <= i < |s| && f(s[i]) == x;
      assert s[i] in s;
    }
  }

  /** "Currency is x" asks for a linked customer with that currency or, when no linked customer has
      any, for an active subscription with it; where those differ among themselves the first
      fetched decides. */
  lemma CurrencyRule(t: Tables, facts: map<string, FactsRow>, d: string, x: string, w: World)
    requires MemberExact(t, facts, d)
    ensures d in facts ==>
      var holds := EvaluateSingle(Condition(Currency, Eq, Str(x), None), facts[d].facts, w);
        if exists cid <- CustomersOf(t, d) :: t.customers[cid].currency.Some? then
          && (holds ==> exists cid <- CustomersOf(t, d) :: t.customers[cid].currency == Some(x))
          && (!holds ==> exists cid <- CustomersOf(t, d) ::
                t.customers[cid].currency.Some? && t.customers[cid].currency != Some(x))
        else
          && (holds ==> exists sid <- SubsOf(t, d) :: IsActive(t.subs[sid]) && t.subs[sid].currency == Some(x))
          && ((exists sid <- SubsOf(t, d) :: IsActive(t.subs[sid]) && t.subs[sid].currency.Some?) && !holds ==>
                exists sid <- SubsOf(t, d) :: IsActive(t.subs[sid])
                  && t.subs[sid].currency.Some? && t.subs[sid].currency != Some(x))
  {
    hide Aggregate, MemberExact, Fetched, EvaluateSingle, FirstKnown, ActiveSubs, IsActive;
    if d !in facts {
      return;
    }
    var cs, ss := ExactRows(t, facts, d);
    TextColumns(cs, ss);
    TextRules(facts[d].facts, x, w);
    ActiveMembers(ss);
    SomeCustomer(t, d, cs, ss, (c: CustomerRow) => c.currency.Some?);
    if exists c <- cs :: c.currency.Some? {
      KnownSomewhere(facts[d].facts.currency, cs, (c: CustomerRow) => c.currency);
      SomeCustomer(t, d, cs, ss, (c: CustomerRow) => c.currency == Some(x));
      SomeCustomer(t, d, cs, ss, (c: CustomerRow) => c.currency.Some? && c.currency != Some(x));
    } else {
      KnownSomewhere(facts[d].facts.currency, ActiveSubs(ss), (s: SubRow) => s.currency);
      SomeSub(t, d, cs, ss, (s: SubRow) => IsActive(s) && s.currency.Some?);
      SomeSub(t, d, cs, ss, (s: SubRow) => IsActive(s) && s.currency == Some(x));
      SomeSub(t, d, cs, ss, (s: SubRow) => IsActive(s) && s.currency.Some? && s.currency != Some(x));
    }
  }

  /** The domain is the lower-cased part after the last '@'. */
  lemma {:induction false} DomainIsLast(e: string)
    ensures Domain(e).None? <==> '@' !in e
    ensures forall i | 0 <= i < |e| && e[i] == '@' && '@' !in e[i + 1..] :: Domain(e) == Some(AsciiLower(e[i + 1..]))
  {
    if e != [] {
      var rest := e[1..];
      DomainIsLast(rest);
      assert '@' in e <==> e[0] == '@' || '@' in rest;
      forall i | 0 <= i < |e| && e[i] == '@' && '@' !in e[i + 1..]
        ensures Domain(e) == Some(AsciiLower(e[i + 1..]))
      {
        if i > 0 {
          assert rest[i - 1] == '@' && rest[i..] == e[i + 1..];
        }
      }
    }
  }

  /** Lower-casing moves the 26 capital letters by 32 places and nothing else. */
  lemma {:induction false} LowerCased(s: string)
    ensures |AsciiLower(s)| == |s|
    ensures forall i | 0 <= i < |s| ::
      AsciiLower(s)[i] as int == s[i] as int + if 65 <= s[i] as int <= 90 then 32 else 0
  {
    if s != [] {
      LowerCased(s[1..]);
    }
  }
}
