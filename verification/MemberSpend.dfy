/** Charges from delivery to facts: over a run of deliveries, a member's lifetime spend in
    the facts row is the sum of the distinct applied charges of the linked customers. */
module MemberSpend {
  import opened Wrappers
  import opened Seqs
  import opened MemberFacts
  import opened Ingest
  import opened Webhooks
  import opened ViewMaintenance
  import opened Charges

  // ---- sums over the linked customers ----

  lemma {:induction false} SetSumSame(ids: set<string>, f: string -> int, g: string -> int)
    requires forall x <- ids :: f(x) == g(x)
    ensures SetSum(ids, f) == SetSum(ids, g)
  {
    if x :| x in ids {
      SetSumRemove(ids, f, x);
      SetSumRemove(ids, g, x);
      SetSumSame(ids - {x}, f, g);
    }
  }

  predicate Distinct(order: seq<string>) {
    forall i, j | 0 <= i < j < |order| :: order[i] != order[j]
  }

  /** Summing rows in fetch order is summing over the set of their ids. */
  lemma {:induction false} SumOverOrder(order: seq<string>, xs: seq<int>, f: string -> int)
    requires Distinct(order) && |xs| == |order| && forall i | 0 <= i < |order| :: xs[i] == f(order[i])
    ensures Sum(xs) == SetSum((set x <- order), f)
  {
    if order == [] {
      assert (set x <- order) == {};
    } else {
      SumOverOrder(order[1..], xs[1..], f);
      var rest := set x <- order[1..];
      assert order[0] !in rest;
      assert (set x <- order) == rest + {order[0]} by {
        assert forall x :: x in order <==> x == order[0] || x in order[1..];
      }
      SetSumAdd(rest, f, order[0]);
    }
  }

  function SpendBy(t: Tables): string -> int {
    cid => Spend(t, cid)
  }

  function PaymentsBy(t: Tables): string -> int {
    cid => Payments(t, cid)
  }

  lemma AggregateSpend(cs: seq<CustomerRow>, ss: seq<SubRow>)
    ensures Aggregate(cs, ss).facts.lifetimeSpendCents == Sum(Map(SpendOf, cs))
    ensures Aggregate(cs, ss).facts.successfulPayments == Sum(Map(PaymentsOf, cs))
  {
    hide Map, Filter, Sum, MinSome, MaxBy, SortedIds, FirstSome, EmailDomainOf;
  }

  lemma FetchedSums(t: Tables, d: string, cs: seq<string>)
    requires Enumerates(cs, CustomersOf(t, d))
    ensures var rows := FetchCustomers(t, d, cs);
      && Sum(Map(SpendOf, rows)) == SetSum(CustomersOf(t, d), SpendBy(t))
      && Sum(Map(PaymentsOf, rows)) == SetSum(CustomersOf(t, d), PaymentsBy(t))
  {
    var rows := FetchCustomers(t, d, cs);
    assert (set x <- cs) == CustomersOf(t, d);
    forall i | 0 <= i < |cs|
      ensures SpendOf(rows[i]) == Spend(t, cs[i]) && PaymentsOf(rows[i]) == Payments(t, cs[i])
    {
      assert cs[i] in cs;
    }
    hide FetchCustomers, Sum;
    SumOverOrder(cs, Map(SpendOf, rows), SpendBy(t));
    SumOverOrder(cs, Map(PaymentsOf, rows), PaymentsBy(t));
  }

  /** An exact row carries the spend and the payments of the linked customers. */
  lemma ExactSpend(t: Tables, facts: map<string, FactsRow>, d: string)
    requires MemberExact(t, facts, d)
    ensures d in facts ==>
      && facts[d].facts.lifetimeSpendCents == SetSum(CustomersOf(t, d), SpendBy(t))
      && facts[d].facts.successfulPayments == SetSum(CustomersOf(t, d), PaymentsBy(t))
  {
    hide Aggregate;
    if d !in facts {
      return;
    }
    var cs, ss :| Enumerates(cs, CustomersOf(t, d)) && Enumerates(ss, SubsOf(t, d))
      && facts[d] == Aggregate(FetchCustomers(t, d, cs), FetchSubs(t, d, ss));
    hide FetchCustomers, FetchSubs, Sum, Map, Enumerates, CustomersOf, SubsOf;
    AggregateSpend(FetchCustomers(t, d, cs), FetchSubs(t, d, ss));
    FetchedSums(t, d, cs);
  }

  // ---- whole runs ----

  /** The run, with each event's one body. */
  function Deliveries(run: seq<Attempt>, body: string -> Event): seq<Delivery> {
    if run == [] then []
    else [Delivery(run[0].id, body(run[0].id), run[0].fault, run[0].choice)] + Deliveries(run[1..], body)
  }

  lemma {:induction false} SameRun(g: Ledger, run: seq<Attempt>, body: string -> Event, lk: Linker)
    requires GuardedRun(g, Deliveries(run, body), lk)
    ensures Choices(g, run, body, lk) && Play(g, run, body, lk) == Run(g, Deliveries(run, body), lk)
    decreases |run|
  {
    hide ChoiceOk, Deliver, EventGuard;
    if run != [] {
      var a := run[0];
      var xs := Deliveries(run, body);
      assert xs[0] == Delivery(a.id, body(a.id), a.fault, a.choice) && xs[1..] == Deliveries(run[1..], body);
      SameRun(Deliver(g, a.id, body(a.id), a.fault, lk, a.choice), run[1..], body, lk);
    }
  }

  /** What a customer had, plus its distinct applied charges, plus what stopped applies of
      its charges had already written. */
  ghost function SpendDue(g: Ledger, run: seq<Attempt>, body: string -> Event): string -> int {
    cid => Spend(g.tables, cid) + SetSum(Applied(g.log, run), IncrementOf(body, cid))
      + Replayed(g.log, run, IncrementOf(body, cid))
  }

  ghost function PaymentsDue(g: Ledger, run: seq<Attempt>, body: string -> Event): string -> int {
    cid => Payments(g.tables, cid) + SetSum(Applied(g.log, run), PaymentOf(body, cid))
      + Replayed(g.log, run, PaymentOf(body, cid))
  }

  /** From delivery to facts: over every guarded run that deletes no customer, with duplicates,
      retries and every fault, a member's lifetime spend and payment count, unless its row
      lags, are what is due for the customers linked to the member. */
  lemma MemberSpendOverRun(g: Ledger, run: seq<Attempt>, body: string -> Event, lk: Linker, d: string)
    requires GuardedRun(g, Deliveries(run, body), lk) && MemberExact(g.tables, g.facts, d)
    requires !Lags(g, Deliveries(run, body), lk, d, false)
    requires forall a <- run, cid: string :: KeepsCustomer(body(a.id), cid)
    ensures var h := Run(g, Deliveries(run, body), lk);
      d in h.facts ==>
        && h.facts[d].facts.lifetimeSpendCents == SetSum(CustomersOf(h.tables, d), SpendDue(g, run, body))
        && h.facts[d].facts.successfulPayments == SetSum(CustomersOf(h.tables, d), PaymentsDue(g, run, body))
  {
    SameRun(g, run, body, lk);
    RunKeepsMember(g, Deliveries(run, body), lk, d, false);
    var h := Run(g, Deliveries(run, body), lk);
    if d in h.facts {
      hide GuardedRun, Run, Play, MemberExact, Lags;
      ExactSpend(h.tables, h.facts, d);
      DueSums(g, run, body, lk, CustomersOf(h.tables, d));
    }
  }

  lemma DueSums(g: Ledger, run: seq<Attempt>, body: string -> Event, lk: Linker, cids: set<string>)
    requires Choices(g, run, body, lk) && forall a <- run, cid: string :: KeepsCustomer(body(a.id), cid)
    ensures var h := Play(g, run, body, lk);
      && SetSum(cids, SpendBy(h.tables)) == SetSum(cids, SpendDue(g, run, body))
      && SetSum(cids, PaymentsBy(h.tables)) == SetSum(cids, PaymentsDue(g, run, body))
  {
    hide Choices, Play, Applied, Replayed, IncrementOf, PaymentOf, KeepsCustomer;
    var h := Play(g, run, body, lk);
    forall cid: string
      ensures SpendBy(h.tables)(cid) == SpendDue(g, run, body)(cid)
      ensures PaymentsBy(h.tables)(cid) == PaymentsDue(g, run, body)(cid)
    {
      SpendDecomposition(g, run, body, lk, cid);
    }
    hide SpendBy, PaymentsBy, SpendDue, PaymentsDue, SetSum;
    SetSumSame(cids, SpendBy(h.tables), SpendDue(g, run, body));
    SetSumSame(cids, PaymentsBy(h.tables), PaymentsDue(g, run, body));
  }

  /** When no charge stops after its increment, each distinct applied charge of a linked customer counts once. */
  lemma MemberSpendCountedOnce(g: Ledger, run: seq<Attempt>, body: string -> Event, cid: string)
    requires forall i | 0 <= i < |run| :: !CountsUnapplied(g.log, run, PaymentOf(body, cid), i)
    ensures SpendDue(g, run, body)(cid)
         == Spend(g.tables, cid) + SetSum(Applied(g.log, run), IncrementOf(body, cid))
    ensures PaymentsDue(g, run, body)(cid)
         == Payments(g.tables, cid) + SetSum(Applied(g.log, run), PaymentOf(body, cid))
  {
    hide Applied, Replayed, SetSum, Fresh;
    forall i | 0 <= i < |run|
      ensures !CountsUnapplied(g.log, run, IncrementOf(body, cid), i)
    {
      if CountsUnapplied(g.log, run, IncrementOf(body, cid), i) {
        IncrementMeansPayment(g.log, run, body, cid, i);
      }
    }
    hide CountsUnapplied, IncrementOf, PaymentOf;
    ReplayedExactly(g.log, run, PaymentOf(body, cid));
    ReplayedExactly(g.log, run, IncrementOf(body, cid));
  }

  lemma IncrementMeansPayment(log: set<string>, run: seq<Attempt>, body: string -> Event, cid: string, i: nat)
    requires i < |run| && CountsUnapplied(log, run, IncrementOf(body, cid), i)
    ensures CountsUnapplied(log, run, PaymentOf(body, cid), i)
  {
    hide Fresh;
    var e := body(run[i].id);
    assert IncrementOf(body, cid)(run[i].id) == Increment(e, cid);
    assert PaymentOf(body, cid)(run[i].id) == PaymentCount(e, cid);
  }
}
