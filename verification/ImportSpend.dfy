/** The absolute spend of an import, from the paged charge listing to the facts. */
module ImportSpend {
  import opened Wrappers
  import opened MemberFacts
  import opened Ingest
  import opened Webhooks
  import opened ViewMaintenance
  import opened Reconcile
  import opened ImportProperties
  import opened Charges
  import MemberSpend

  /** The totals of each customer that has any, as the import pairs them. */
  function Paired(spend: map<string, int>, count: map<string, int>): map<string, (int, int)> {
    map cid | cid in spend :: (spend[cid], At(count, cid))
  }

  lemma PassSetsTotals(t: Tables, spend: map<string, int>, count: map<string, int>, chs: seq<Charge>, cid: string)
    requires Totals(spend, count, chs) && spend.Keys == count.Keys && cid in t.customers
    ensures var u := SpendPass(t, Some(Paired(spend, count)));
      Spend(u, cid) == PagedTotal(chs, cid) && Payments(u, cid) == PagedCount(chs, cid)
  {
    assert At(spend, cid) == PagedTotal(chs, cid) && At(count, cid) == PagedCount(chs, cid);
    hide PagedTotal, PagedCount, Totals;
  }

  /** After an import that could read the charges, every stored customer carries the total and
      the count of its charges in the listing: what webhooks had accumulated is replaced. */
  lemma ImportSetsTotals(t: Tables, snap: Snapshot, picks: seq<string>, lk: Linker,
                         spend: map<string, int>, count: map<string, int>, chs: seq<Charge>, cid: string)
    requires |picks| == |snap.Items()| && Totals(spend, count, chs) && spend.Keys == count.Keys
    requires snap.spend == Some(Paired(spend, count)) && cid in Import(t, snap, picks, lk).0.customers
    ensures var u := Import(t, snap, picks, lk).0;
      Spend(u, cid) == PagedTotal(chs, cid) && Payments(u, cid) == PagedCount(chs, cid)
  {
    var v := Pass(t, snap.Items(), picks, lk).0;
    hide Pass, Totals, PagedTotal, PagedCount, Spend, Payments, Paired;
    assert cid in v.customers;
    PassSetsTotals(v, spend, count, chs, cid);
  }

  function TotalOf(chs: seq<Charge>): string -> int {
    cid => PagedTotal(chs, cid)
  }

  function CountOf(chs: seq<Charge>): string -> int {
    cid => PagedCount(chs, cid)
  }

  /** And every member whose facts row is exact afterwards carries the totals of the listed
      charges of its customers. */
  lemma ImportedMemberSpend(t: Tables, snap: Snapshot, picks: seq<string>, lk: Linker, facts: map<string, FactsRow>,
                            spend: map<string, int>, count: map<string, int>, chs: seq<Charge>, d: string)
    requires |picks| == |snap.Items()| && Totals(spend, count, chs) && spend.Keys == count.Keys
    requires snap.spend == Some(Paired(spend, count))
    requires MemberExact(Import(t, snap, picks, lk).0, facts, d) && d in facts
    ensures var u := Import(t, snap, picks, lk).0;
      && facts[d].facts.lifetimeSpendCents == SetSum(CustomersOf(u, d), TotalOf(chs))
      && facts[d].facts.successfulPayments == SetSum(CustomersOf(u, d), CountOf(chs))
  {
    var u := Import(t, snap, picks, lk).0;
    assert forall cid <- CustomersOf(u, d) :: cid in u.customers;
    hide Import, Totals, PagedTotal, PagedCount, Spend, Payments, Paired, MemberExact, CustomersOf;
    MemberSpend.ExactSpend(u, facts, d);
    forall cid <- CustomersOf(u, d)
      ensures MemberSpend.SpendBy(u)(cid) == TotalOf(chs)(cid)
      ensures MemberSpend.PaymentsBy(u)(cid) == CountOf(chs)(cid)
    {
      ImportSetsTotals(t, snap, picks, lk, spend, count, chs, cid);
    }
    MemberSpend.SetSumSame(CustomersOf(u, d), MemberSpend.SpendBy(u), TotalOf(chs));
    MemberSpend.SetSumSame(CustomersOf(u, d), MemberSpend.PaymentsBy(u), CountOf(chs));
  }

  // ---- members that an import does not touch ----

  lemma {:induction false} ZeroSum(ids: set<string>, f: string -> int)
    requires forall x <- ids :: f(x) >= 0
    ensures SetSum(ids, f) >= 0
    ensures SetSum(ids, f) == 0 <==> forall x <- ids :: f(x) == 0
  {
    if x :| x in ids {
      SetSumRemove(ids, f, x);
      ZeroSum(ids - {x}, f);
      assert forall y :: y in ids <==> y == x || y in ids - {x};
    } else {
      assert ids == {};
    }
  }

  predicate NoTotals(t: Tables, d: string) {
    forall cid <- CustomersOf(t, d) :: Spend(t, cid) == 0 && Payments(t, cid) == 0
  }

  /** The reset zeroes the customers of a member that the spend pass does not touch. */
  lemma ResetUntouched(u: Tables, spend: map<string, (int, int)>, d: string)
    requires d !in SpendTouched(u, Some(spend))
    ensures var v := SpendPass(u, Some(spend));
      && CustomersOf(v, d) == CustomersOf(u, d) && NoTotals(v, d)
      && (NoTotals(u, d) ==> SameFor(u, v, d))
  {
    var v := SpendPass(u, Some(spend));
    forall cid <- u.customers | u.customers[cid].discord == Some(d)
      ensures cid !in spend
      ensures v.customers[cid] == u.customers[cid].(lifetimeSpend := 0, payments := 0)
    {
      assert CustomerLink(u, cid) == Some(d);
    }
    assert CustomersOf(v, d) == CustomersOf(u, d);
    if NoTotals(u, d) {
      forall cid <- u.customers | u.customers[cid].discord == Some(d)
        ensures v.customers[cid] == u.customers[cid]
      {
        assert cid in CustomersOf(u, d);
        assert Spend(u, cid) == 0 && Payments(u, cid) == 0;
      }
    }
  }

  lemma SameTotals(t: Tables, u: Tables, d: string)
    requires SameFor(t, u, d)
    ensures CustomersOf(u, d) == CustomersOf(t, d) && (NoTotals(u, d) <==> NoTotals(t, d))
  {
  }

  /** Two exact rows of one member with the same totals, the second all zero. */
  lemma ZeroTotals(t: Tables, v: Tables, facts: map<string, FactsRow>, d: string)
    requires MemberExact(t, facts, d) && MemberExact(v, facts, d)
    requires CustomersOf(v, d) == CustomersOf(t, d) && NoTotals(v, d)
    requires forall cid <- CustomersOf(t, d) :: Spend(t, cid) >= 0 && Payments(t, cid) >= 0
    ensures NoTotals(t, d)
  {
    if CustomersOf(t, d) != {} {
      assert d in facts;
      var cids := CustomersOf(t, d);
      hide MemberExact, CustomersOf, Spend, Payments;
      MemberSpend.ExactSpend(t, facts, d);
      MemberSpend.ExactSpend(v, facts, d);
      ZeroSum(cids, MemberSpend.SpendBy(v));
      ZeroSum(cids, MemberSpend.PaymentsBy(v));
      ZeroSum(cids, MemberSpend.SpendBy(t));
      ZeroSum(cids, MemberSpend.PaymentsBy(t));
      assert forall cid <- cids :: MemberSpend.SpendBy(t)(cid) == 0 && MemberSpend.PaymentsBy(t)(cid) == 0;
    }
  }

  /** The reset is not followed by a recompute of everyone: when an import can read the charges,
      a member whom it does not touch stays exact if and only if none of the member's customers
      had a total to reset. */
  lemma UntouchedExactly(t: Tables, facts: map<string, FactsRow>, snap: Snapshot, picks: seq<string>, lk: Linker,
                         d: string)
    requires |picks| == |snap.Items()| && PassGuard(t, snap.Items(), picks, lk) && snap.spend.Some?
    requires MemberExact(t, facts, d) && d !in Import(t, snap, picks, lk).1
    requires forall cid <- CustomersOf(t, d) :: Spend(t, cid) >= 0 && Payments(t, cid) >= 0
    ensures MemberExact(Import(t, snap, picks, lk).0, facts, d) <==> NoTotals(t, d)
  {
    hide Pass, PassGuard, MemberExact, SameFor, SpendPass, SpendTouched, NoTotals, CustomersOf, Spend, Payments;
    var (u, touched) := Pass(t, snap.Items(), picks, lk);
    var v := SpendPass(u, snap.spend);
    PassKeepsUntouched(t, snap.Items(), picks, lk, d);
    SameTotals(t, u, d);
    ResetUntouched(u, snap.spend.value, d);
    if NoTotals(t, d) {
      SameForTransitive(t, u, v, d);
      SameForKeepsExact(t, v, facts, facts, d);
    }
    if MemberExact(v, facts, d) {
      ZeroTotals(t, v, facts, d);
    }
  }

  // ---- the charge step ----

  /** The third step of the import, from the paged listing to the rows. */
  method ImportCharges(mirror: Mirror, server: ChargeList) returns (touched: set<string>)
    requires server.Valid()
    modifies mirror
    ensures var seen := if |server.all| <= 200_000 then |server.all| else 200_000;
      forall cid <- mirror.customers ::
        && mirror.customers[cid].lifetimeSpend == PagedTotal(server.all[..seen], cid)
        && mirror.customers[cid].payments == PagedCount(server.all[..seen], cid)
    ensures mirror.subs == old(mirror.subs) && mirror.customers.Keys == old(mirror.customers).Keys
    ensures forall cid <- mirror.customers ::
      mirror.customers[cid].discord == old(mirror.customers)[cid].discord
  {
    var spend, count := AggregateCharges(server);
    ghost var start := mirror.Contents();
    ghost var seen := if |server.all| <= 200_000 then |server.all| else 200_000;
    ghost var chs := server.all[..seen];
    assert Totals(spend, count, chs);
    touched := SpendAll(mirror, Paired(spend, count));
    hide Totals, PagedTotal, PagedCount, Paired;
    forall cid <- mirror.customers
      ensures Spend(mirror.Contents(), cid) == PagedTotal(chs, cid)
      ensures Payments(mirror.Contents(), cid) == PagedCount(chs, cid)
    {
      PassSetsTotals(start, spend, count, chs, cid);
    }
  }
}
