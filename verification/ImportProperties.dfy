/** One import links every resolvable customer together with all its subscriptions; a
    second one over the same listing changes nothing; and the facts view stays exact. */
module ImportProperties {
  import opened Wrappers
  import opened MemberFacts
  import opened Ingest
  import opened Webhooks
  import opened ViewMaintenance
  import opened Reconcile

  // ---- link closure ----

  /** The customer row and every stored subscription of the customer carry a link. */
  predicate AllLinked(t: Tables, cid: string) {
    && CustomerLink(t, cid).Some?
    && forall sid <- t.subs :: t.subs[sid].customerId == Some(cid) ==> t.subs[sid].discord.Some?
  }

  predicate HasLinkedSub(t: Tables, cid: string) {
    exists sid <- t.subs :: LinkedSubOf(t, cid, sid)
  }

  /** A link known to the customer or to one of its subscriptions is known to all. */
  predicate Closed(t: Tables, c: CustomerFields, lk: Linker) {
    ResolveFromMeta(c.metadata, lk).Some? || HasLinkedSub(t, c.id) ==> AllLinked(t, c.id)
  }

  lemma CustomerCloses(t: Tables, c: CustomerFields, lk: Linker, pick: string)
    requires !c.deleted && PickFor(t, c, lk, pick)
    ensures Closed(UpsertCustomer(t, c, lk, pick).0, c, lk)
  {
    var did := CustomerDiscord(t, c, lk, pick);
    var u := UpsertCustomer(t, c, lk, pick).0;
    if did.None? {
      assert forall sid <- t.subs :: !LinkedSubOf(t, c.id, sid);
      assert u.subs == t.subs;
    }
  }

  lemma OtherCustomerKeepsClosed(t: Tables, c: CustomerFields, x: CustomerFields, lk: Linker, pick: string)
    requires Closed(t, c, lk) && x.id != c.id
    ensures Closed(UpsertCustomer(t, x, lk, pick).0, c, lk)
  {
    var u := UpsertCustomer(t, x, lk, pick).0;
    assert u.subs.Keys == t.subs.Keys;
    assert forall sid <- t.subs :: t.subs[sid].customerId == Some(c.id) ==> u.subs[sid] == t.subs[sid];
    assert forall sid <- t.subs :: LinkedSubOf(u, c.id, sid) <==> LinkedSubOf(t, c.id, sid);
  }

  /** Only customers with other ids. */
  predicate OnlyOtherCustomers(xs: seq<Item>, cid: string) {
    forall x <- xs :: x.CustomerItem? && x.customer.id != cid
  }

  lemma {:induction false} RestKeepsClosed(t: Tables, xs: seq<Item>, picks: seq<string>, c: CustomerFields, lk: Linker)
    requires |picks| == |xs| && OnlyOtherCustomers(xs, c.id) && Closed(t, c, lk)
    ensures Closed(Pass(t, xs, picks, lk).0, c, lk)
    decreases |xs|
  {
    hide Closed, UpsertCustomer;
    if xs != [] {
      assert xs[0] in xs;
      OtherCustomerKeepsClosed(t, c, xs[0].customer, lk, picks[0]);
      RestKeepsClosed(UpsertItem(t, xs[0], lk, picks[0]).0, xs[1..], picks[1..], c, lk);
    }
  }

  /** Once the listed customer at position `k` is walked, it is closed for good. */
  lemma {:induction false} PassCloses(t: Tables, xs: seq<Item>, picks: seq<string>, k: nat, lk: Linker)
    requires |picks| == |xs| && PicksOk(t, xs, picks, lk)
    requires k < |xs| && xs[k].CustomerItem? && !xs[k].customer.deleted
    requires OnlyOtherCustomers(xs[k + 1..], xs[k].customer.id)
    ensures Closed(Pass(t, xs, picks, lk).0, xs[k].customer, lk)
    decreases |xs|
  {
    hide Closed, UpsertCustomer;
    var u := UpsertItem(t, xs[0], lk, picks[0]).0;
    if k == 0 {
      CustomerCloses(t, xs[0].customer, lk, picks[0]);
      RestKeepsClosed(u, xs[1..], picks[1..], xs[0].customer, lk);
    } else {
      assert xs[1..][k - 1 + 1..] == xs[k + 1..];
      PassCloses(u, xs[1..], picks[1..], k - 1, lk);
    }
  }

  /** The listed subscription is stored for its customer, and linked. */
  predicate SubLinked(t: Tables, s: SubFields) {
    s.id in t.subs && t.subs[s.id].customerId == s.customerId && t.subs[s.id].discord.Some?
  }

  predicate SameSub(x: Item, s: SubFields) {
    x.SubItem? && x.sub.id == s.id ==> x.sub == s
  }

  lemma CustomerKeepsSubLinked(t: Tables, c: CustomerFields, lk: Linker, pick: string, s: SubFields)
    requires SubLinked(t, s)
    ensures SubLinked(UpsertCustomer(t, c, lk, pick).0, s)
  {
  }

  lemma ItemKeepsSubLinked(t: Tables, x: Item, lk: Linker, pick: string, s: SubFields)
    requires SubLinked(t, s) && SameSub(x, s)
    ensures SubLinked(UpsertItem(t, x, lk, pick).0, s)
  {
    hide UpsertCustomer, SubDiscord;
    match x {
      case CustomerItem(c) => CustomerKeepsSubLinked(t, c, lk, pick, s);
      case SubItem(y) =>
        if y.customer.Some? {
          CustomerKeepsSubLinked(t, y.customer.value, lk, pick, s);
        }
    }
  }

  lemma {:induction false} PassLinksSub(t: Tables, xs: seq<Item>, picks: seq<string>, s: SubFields, lk: Linker)
    requires |picks| == |xs| && (forall x <- xs :: SameSub(x, s))
    requires SubLinked(t, s) || (SubItem(s) in xs && ResolveFromMeta(s.metadata, lk).Some?)
    ensures SubLinked(Pass(t, xs, picks, lk).0, s)
    decreases |xs|
  {
    if xs != [] {
      assert SameSub(xs[0], s);
      if SubLinked(t, s) {
        ItemKeepsSubLinked(t, xs[0], lk, picks[0], s);
      } else if xs[0] == SubItem(s) {
        hide UpsertCustomer;
        assert SubLinked(UpsertItem(t, xs[0], lk, picks[0]).0, s);
      }
      hide UpsertItem, SubLinked;
      PassLinksSub(UpsertItem(t, xs[0], lk, picks[0]).0, xs[1..], picks[1..], s, lk);
    }
  }

  /** The listing names each subscription and each customer once, none deleted. */
  predicate DistinctListing(snap: Snapshot) {
    && (forall a <- snap.subs, b <- snap.subs :: a.id == b.id ==> a == b)
    && (forall i, j | 0 <= i < j < |snap.customers| :: snap.customers[i].id != snap.customers[j].id)
    && (forall c <- snap.customers :: !c.deleted)
  }

  lemma SpendKeepsLinks(t: Tables, spend: Option<map<string, (int, int)>>)
    ensures var u := SpendPass(t, spend);
      u.subs == t.subs && forall cid :: CustomerLink(u, cid) == CustomerLink(t, cid)
  {
  }

  lemma ListedCustomer(snap: Snapshot, i: nat)
    requires DistinctListing(snap) && i < |snap.customers|
    ensures var k := |snap.subs| + i;
      && k < |snap.Items()| && snap.Items()[k] == CustomerItem(snap.customers[i])
      && OnlyOtherCustomers(snap.Items()[k + 1..], snap.customers[i].id)
  {
    var xs, k := snap.Items(), |snap.subs| + i;
    forall x <- xs[k + 1..]
      ensures x.CustomerItem? && x.customer.id != snap.customers[i].id
    {
      var j :| 0 <= j < |xs| - (k + 1) && xs[k + 1..][j] == x;
      assert x == CustomerItem(snap.customers[i + 1 + j]);
    }
  }

  lemma ListedSub(snap: Snapshot, s: SubFields)
    requires DistinctListing(snap) && s in snap.subs
    ensures SubItem(s) in snap.Items() && forall x <- snap.Items() :: SameSub(x, s)
  {
    var xs := snap.Items();
    var i :| 0 <= i < |snap.subs| && snap.subs[i] == s;
    assert xs[i] == SubItem(s);
    forall x <- xs
      ensures SameSub(x, s)
    {
      var j :| 0 <= j < |xs| && xs[j] == x;
      if j < |snap.subs| {
        assert x == SubItem(snap.subs[j]);
      }
    }
  }

  /** After one import, a listed customer whose own metadata resolves an id, or one of
      whose listed subscriptions does, is linked together with all its subscriptions. */
  lemma ImportReachesClosure(t: Tables, snap: Snapshot, picks: seq<string>, lk: Linker, c: CustomerFields)
    requires |picks| == |snap.Items()| && PicksOk(t, snap.Items(), picks, lk)
    requires DistinctListing(snap) && c in snap.customers
    requires ResolveFromMeta(c.metadata, lk).Some?
      || exists s <- snap.subs :: s.customerId == Some(c.id) && ResolveFromMeta(s.metadata, lk).Some?
    ensures AllLinked(Import(t, snap, picks, lk).0, c.id)
  {
    var xs := snap.Items();
    var u := Pass(t, xs, picks, lk).0;
    var i :| 0 <= i < |snap.customers| && snap.customers[i] == c;
    ListedCustomer(snap, i);
    PassCloses(t, xs, picks, |snap.subs| + i, lk);
    hide Pass, PicksOk;
    if s :| s in snap.subs && s.customerId == Some(c.id) && ResolveFromMeta(s.metadata, lk).Some? {
      ListedSub(snap, s);
      PassLinksSub(t, xs, picks, s, lk);
      assert LinkedSubOf(u, c.id, s.id);
    }
    SpendKeepsLinks(u, snap.spend);
  }

  // ---- the view across an import ----

  predicate ItemGuard(t: Tables, x: Item, lk: Linker, pick: string) {
    match x
    case SubItem(s) => SubGuard(t, s, lk, None, pick)
    case CustomerItem(c) => CustomerGuard(t, c, lk, pick, UpsertCustomer(t, c, lk, pick).1)
  }

  predicate PassGuard(t: Tables, xs: seq<Item>, picks: seq<string>, lk: Linker)
    requires |picks| == |xs|
    decreases |xs|
  {
    xs == [] ||
    (ItemGuard(t, xs[0], lk, picks[0])
     && PassGuard(UpsertItem(t, xs[0], lk, picks[0]).0, xs[1..], picks[1..], lk))
  }

  lemma SameForTransitive(t: Tables, u: Tables, v: Tables, d: string)
    requires SameFor(t, u, d) && SameFor(u, v, d)
    ensures SameFor(t, v, d)
  {
  }

  lemma {:induction false} PassKeepsUntouched(t: Tables, xs: seq<Item>, picks: seq<string>, lk: Linker, d: string)
    requires |picks| == |xs| && PassGuard(t, xs, picks, lk)
    requires d !in Pass(t, xs, picks, lk).1
    ensures SameFor(t, Pass(t, xs, picks, lk).0, d)
    decreases |xs|
  {
    hide UpsertCustomer, UpsertSubscription, SubGuard, CustomerGuard, SameFor;
    if xs == [] {
      Untouched(t, d);
    } else {
      var (u, r) := UpsertItem(t, xs[0], lk, picks[0]);
      match xs[0] {
        case SubItem(s) => SubscriptionStep(t, s, lk, None, picks[0], d);
        case CustomerItem(c) => CustomerStep(t, c, lk, picks[0], r, d);
      }
      PassKeepsUntouched(u, xs[1..], picks[1..], lk, d);
      SameForTransitive(t, u, Pass(u, xs[1..], picks[1..], lk).0, d);
    }
  }

  lemma Untouched(t: Tables, d: string)
    ensures SameFor(t, t, d)
  {
  }

  /** The reset changes the stored totals only of customers that are unlinked, listed
      with charges, or linked to a member the upserts touched. */
  predicate SpendGuard(t: Tables, spend: Option<map<string, (int, int)>>, touched: set<string>) {
    spend.Some? ==> forall cid <- t.customers ::
      var row := t.customers[cid];
      row.discord.Some? && cid !in spend.value && row.discord.value !in touched
      ==> row.lifetimeSpend == 0 && row.payments == 0
  }

  lemma SpendKeepsUntouched(t: Tables, spend: Option<map<string, (int, int)>>, touched: set<string>, d: string)
    requires SpendGuard(t, spend, touched) && d !in touched && d !in SpendTouched(t, spend)
    ensures SameFor(t, SpendPass(t, spend), d)
  {
    if spend.Some? {
      forall cid <- t.customers | t.customers[cid].discord == Some(d)
        ensures cid !in spend.value
      {
        assert CustomerLink(t, cid) == Some(d);
      }
    }
  }

  /** A guarded import keeps every member exact, except those it touched and whose recompute
      failed. */
  lemma ImportKeepsView(t: Tables, facts: map<string, FactsRow>, snap: Snapshot, picks: seq<string>, lk: Linker,
                        after: map<string, FactsRow>, failing: set<string>)
    requires |picks| == |snap.Items()| && ViewExact(t, facts)
    requires PassGuard(t, snap.Items(), picks, lk)
    requires var (u, touched) := Pass(t, snap.Items(), picks, lk); SpendGuard(u, snap.spend, touched)
    requires var (v, touched) := Import(t, snap, picks, lk);
      && (forall d <- touched - failing :: MemberExact(v, after, d))
      && (forall d :: d !in touched - failing ==>
            (d in facts <==> d in after) && (d in facts ==> facts[d] == after[d]))
    ensures var (v, touched) := Import(t, snap, picks, lk);
      forall d: string :: d !in touched * failing ==> MemberExact(v, after, d)
  {
    hide MemberExact, SameFor, SpendGuard, PassGuard, Pass, SpendPass, SpendTouched;
    var (u, touched) := Pass(t, snap.Items(), picks, lk);
    var v := SpendPass(u, snap.spend);
    forall d: string | d !in Import(t, snap, picks, lk).1 * failing
      ensures MemberExact(v, after, d)
    {
      if d !in touched + SpendTouched(u, snap.spend) {
        PassKeepsUntouched(t, snap.Items(), picks, lk, d);
        SpendKeepsUntouched(u, snap.spend, touched, d);
        SameForTransitive(t, u, v, d);
        SameForKeepsExact(t, v, facts, after, d);
      }
    }
  }
}
