/** Whom an import touches, and what the rows hold after it: the columns as they were listed. */
module ImportColumns {
  import opened Wrappers
  import opened MemberFacts
  import opened Ingest
  import opened Webhooks
  import opened Reconcile
  import opened IngestProperties

  // ---- a walk in two parts ----

  lemma {:induction false} PassSplit(t: Tables, xs: seq<Item>, picks: seq<string>, lk: Linker, n: nat)
    requires |picks| == |xs| && n <= |xs|
    ensures var (u, first) := Pass(t, xs[..n], picks[..n], lk);
      var (v, second) := Pass(u, xs[n..], picks[n..], lk);
      Pass(t, xs, picks, lk) == (v, first + second)
    decreases |xs|
  {
    hide UpsertItem;
    if n == 0 {
      assert xs[0..] == xs && picks[0..] == picks;
      assert forall s: set<string> :: {} + s == s;
    } else {
      var (t1, d) := UpsertItem(t, xs[0], lk, picks[0]);
      PassSplit(t1, xs[1..], picks[1..], lk, n - 1);
      assert xs[..n][1..] == xs[1..][..n - 1] && picks[..n][1..] == picks[1..][..n - 1];
      assert xs[1..][n - 1..] == xs[n..] && picks[1..][n - 1..] == picks[n..];
      var (u, first) := Pass(t1, xs[1..][..n - 1], picks[1..][..n - 1], lk);
      var second := Pass(u, xs[n..], picks[n..], lk).1;
      assert LinkSet(d) + (first + second) == (LinkSet(d) + first) + second;
    }
  }

  /** The tables that the upsert of item `n` finds. */
  function Found(t: Tables, xs: seq<Item>, picks: seq<string>, lk: Linker, n: nat): Tables
    requires |picks| == |xs| && n <= |xs|
  {
    Pass(t, xs[..n], picks[..n], lk).0
  }

  /** The upsert of item `n` returns `d`. */
  predicate Returned(t: Tables, xs: seq<Item>, picks: seq<string>, lk: Linker, n: nat, d: string)
    requires |picks| == |xs| && n < |xs|
  {
    UpsertItem(Found(t, xs, picks, lk, n), xs[n], lk, picks[n]).1 == Some(d)
  }

  lemma ReturnedShift(t: Tables, xs: seq<Item>, picks: seq<string>, lk: Linker, n: nat, d: string)
    requires |picks| == |xs| && 0 < n < |xs|
    ensures Returned(t, xs, picks, lk, n, d)
      <==> Returned(UpsertItem(t, xs[0], lk, picks[0]).0, xs[1..], picks[1..], lk, n - 1, d)
  {
    hide UpsertItem;
    assert xs[..n][1..] == xs[1..][..n - 1] && picks[..n][1..] == picks[1..][..n - 1];
  }

  lemma {:induction false} WalkTouches(t: Tables, xs: seq<Item>, picks: seq<string>, lk: Linker, d: string)
    requires |picks| == |xs|
    ensures d in Pass(t, xs, picks, lk).1 <==> exists n | 0 <= n < |xs| :: Returned(t, xs, picks, lk, n, d)
    decreases |xs|
  {
    if xs != [] {
      var t1 := UpsertItem(t, xs[0], lk, picks[0]).0;
      WalkTouches(t1, xs[1..], picks[1..], lk, d);
      assert xs[..0] == [] && picks[..0] == [];
      assert Returned(t, xs, picks, lk, 0, d) <==> d in LinkSet(UpsertItem(t, xs[0], lk, picks[0]).1);
      hide UpsertItem, Returned;
      if n :| 0 <= n < |xs[1..]| && Returned(t1, xs[1..], picks[1..], lk, n, d) {
        ReturnedShift(t, xs, picks, lk, n + 1, d);
      }
      if n :| 0 < n < |xs| && Returned(t, xs, picks, lk, n, d) {
        ReturnedShift(t, xs, picks, lk, n, d);
      }
    }
  }

  /** The members whose facts an import rebuilds: those that the upsert of a listed subscription or
      customer returns and, when the charges could be read, those linked to a customer with a
      listed total. */
  lemma TouchedExactly(t: Tables, snap: Snapshot, picks: seq<string>, lk: Linker, d: string)
    requires |picks| == |snap.Items()|
    ensures var xs := snap.Items();
      var u := Pass(t, xs, picks, lk).0;
      d in Import(t, snap, picks, lk).1 <==>
        || (exists n | 0 <= n < |xs| :: Returned(t, xs, picks, lk, n, d))
        || (snap.spend.Some?
            && exists cid <- u.customers :: cid in snap.spend.value && u.customers[cid].discord == Some(d))
  {
    WalkTouches(t, snap.Items(), picks, lk, d);
    hide Pass, Returned;
    var u := Pass(t, snap.Items(), picks, lk).0;
    if snap.spend.Some? {
      if cid :| cid in u.customers && cid in snap.spend.value && u.customers[cid].discord == Some(d) {
        assert CustomerLink(u, cid) == Some(d);
      }
    }
  }

  // ---- the listed columns ----

  /** The row shows what the customer object says. */
  predicate ShowsCustomer(t: Tables, c: CustomerFields) {
    && c.id in t.customers
    && var row := t.customers[c.id];
       && row.email == c.email && row.name == c.name && row.country == c.country && row.currency == c.currency
       && row.delinquent == c.delinquent && (c.createdAt.Some? ==> row.createdAt == c.createdAt)
  }

  predicate ShowsSub(t: Tables, s: SubFields) {
    && s.id in t.subs
    && var row := t.subs[s.id];
       && row.(discord := None, createdAt := None)
          == SubRow(s.customerId, None, s.status, s.priceId, s.productId, s.unitAmount, s.currency, s.interval,
                    s.intervalCount, s.quantity, s.cancelAtPeriodEnd, s.periodEnd, s.trialEnd, s.startedAt, None)
       && (s.createdAt.Some? ==> row.createdAt == s.createdAt)
  }

  lemma CustomerShown(t: Tables, c: CustomerFields, lk: Linker, pick: string, x: CustomerFields)
    requires !x.deleted && (x == c || (x.id != c.id && ShowsCustomer(t, x)))
    ensures ShowsCustomer(UpsertCustomer(t, c, lk, pick).0, x)
  {
    hide UpsertCustomer;
    if c.deleted {
      DeletedColumns(t, c, lk, pick);
    } else {
      CustomerColumns(t, c, lk, pick);
    }
  }

  lemma SubShown(t: Tables, x: Item, lk: Linker, pick: string, s: SubFields)
    requires x == SubItem(s) || (ShowsSub(t, s) && (x.SubItem? ==> x.sub.id != s.id))
    ensures ShowsSub(UpsertItem(t, x, lk, pick).0, s)
  {
    match x {
      case SubItem(y) => SubscriptionColumns(t, SubscriptionEvent(Some(y)), lk, pick);
      case CustomerItem(c) => SubsKeepColumns(t, c, lk, pick);
    }
    hide UpsertSubscription, UpsertCustomer;
  }

  lemma {:induction false} RestShowsCustomer(t: Tables, xs: seq<Item>, picks: seq<string>, lk: Linker,
                                             c: CustomerFields)
    requires |picks| == |xs| && !c.deleted && ShowsCustomer(t, c)
    requires forall x <- xs :: x.CustomerItem? && x.customer.id != c.id
    ensures ShowsCustomer(Pass(t, xs, picks, lk).0, c)
    decreases |xs|
  {
    hide ShowsCustomer, UpsertCustomer;
    if xs != [] {
      assert xs[0] in xs && forall x <- xs[1..] :: x in xs;
      CustomerShown(t, xs[0].customer, lk, picks[0], c);
      RestShowsCustomer(UpsertItem(t, xs[0], lk, picks[0]).0, xs[1..], picks[1..], lk, c);
    }
  }

  lemma {:induction false} RestShowsSub(t: Tables, xs: seq<Item>, picks: seq<string>, lk: Linker, s: SubFields)
    requires |picks| == |xs| && ShowsSub(t, s)
    requires forall x <- xs :: x.SubItem? ==> x.sub.id != s.id
    ensures ShowsSub(Pass(t, xs, picks, lk).0, s)
    decreases |xs|
  {
    hide ShowsSub, UpsertItem;
    if xs != [] {
      assert xs[0] in xs && forall x <- xs[1..] :: x in xs;
      SubShown(t, xs[0], lk, picks[0], s);
      RestShowsSub(UpsertItem(t, xs[0], lk, picks[0]).0, xs[1..], picks[1..], lk, s);
    }
  }

  lemma SpendKeepsColumns(t: Tables, spend: Option<map<string, (int, int)>>, c: CustomerFields, s: SubFields)
    ensures ShowsCustomer(t, c) ==> ShowsCustomer(SpendPass(t, spend), c)
    ensures ShowsSub(t, s) ==> ShowsSub(SpendPass(t, spend), s)
  {
  }

  /** After an import the row of a listed customer shows the customer listing's last word on it, also
      where subscriptions expanded to another version of it. */
  lemma ImportShowsCustomer(t: Tables, snap: Snapshot, picks: seq<string>, lk: Linker, i: nat)
    requires |picks| == |snap.Items()| && i < |snap.customers| && !snap.customers[i].deleted
    requires forall j | i < j < |snap.customers| :: snap.customers[j].id != snap.customers[i].id
    ensures ShowsCustomer(Import(t, snap, picks, lk).0, snap.customers[i])
  {
    var xs, n, c := snap.Items(), |snap.subs| + i, snap.customers[i];
    PassSplit(t, xs, picks, lk, n);
    var u := Pass(t, xs[..n], picks[..n], lk).0;
    assert xs[n..][0] == CustomerItem(c);
    assert forall x <- xs[n..][1..] :: x.CustomerItem? && x.customer.id != c.id;
    CustomerShown(u, c, lk, picks[n], c);
    var v := UpsertItem(u, xs[n], lk, picks[n]).0;
    assert Pass(u, xs[n..], picks[n..], lk).0 == Pass(v, xs[n..][1..], picks[n..][1..], lk).0;
    hide ShowsCustomer, ShowsSub, Pass, UpsertCustomer, SpendPass;
    RestShowsCustomer(v, xs[n..][1..], picks[n..][1..], lk, c);
    SpendKeepsColumns(Pass(t, xs, picks, lk).0, snap.spend, c, BLANK_SUB);
  }

  /** And the row of a listed subscription what its last listing says. */
  lemma ImportShowsSub(t: Tables, snap: Snapshot, picks: seq<string>, lk: Linker, i: nat)
    requires |picks| == |snap.Items()| && i < |snap.subs|
    requires forall j | i < j < |snap.subs| :: snap.subs[j].id != snap.subs[i].id
    ensures ShowsSub(Import(t, snap, picks, lk).0, snap.subs[i])
  {
    var xs, s := snap.Items(), snap.subs[i];
    PassSplit(t, xs, picks, lk, i);
    var u := Pass(t, xs[..i], picks[..i], lk).0;
    assert xs[i..][0] == SubItem(s);
    assert forall x <- xs[i..][1..] :: x.SubItem? ==> x.sub.id != s.id;
    SubShown(u, xs[i], lk, picks[i], s);
    var v := UpsertItem(u, xs[i], lk, picks[i]).0;
    assert Pass(u, xs[i..], picks[i..], lk).0 == Pass(v, xs[i..][1..], picks[i..][1..], lk).0;
    hide ShowsCustomer, ShowsSub, Pass, UpsertItem, SpendPass;
    RestShowsSub(v, xs[i..][1..], picks[i..][1..], lk, s);
    SpendKeepsColumns(Pass(t, xs, picks, lk).0, snap.spend, BLANK_CUSTOMER, s);
  }

  const BLANK_CUSTOMER := CustomerFields("", None, None, None, None, false, None, map[], false)
  const BLANK_SUB := SubFields(
    "", None, "", None, None, 0, None, None, 0, 0, false, None, None, None, None, map[], None)
}
