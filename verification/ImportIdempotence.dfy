/** Importing the same listing twice: the second pass changes no row. */
module ImportIdempotence {
  import opened Wrappers
  import opened MemberFacts
  import opened Ingest
  import opened Reconcile
  import opened ImportProperties

  // ---- a coherent listing ----

  /** Resolves to nothing, or to the one member the customer belongs to. */
  predicate Agrees(id: Option<string>, owner: string) {
    id.None? || id.value == owner
  }

  predicate CoherentCustomer(c: CustomerFields, lk: Linker, owner: string -> string) {
    !c.deleted && Agrees(ResolveFromMeta(c.metadata, lk), owner(c.id))
  }

  predicate Listed(cid: string, customers: seq<CustomerFields>) {
    exists c <- customers :: c.id == cid
  }

  /** The subscription of a customer that was deleted since, which expands to that. */
  predicate OfDeleted(s: SubFields) {
    s.customer.Some? && s.customer.value.deleted
  }

  predicate CoherentExpansion(c: CustomerFields, cid: string, customers: seq<CustomerFields>, lk: Linker,
                              owner: string -> string)
  {
    c.id == cid && Agrees(ResolveFromMeta(c.metadata, lk), owner(cid)) && (c.deleted || c in customers)
  }

  /** A subscription without a customer; or of a listed one, expanded to the same object or
      not at all; or of a deleted one, which is listed no more. */
  predicate CoherentSub(s: SubFields, customers: seq<CustomerFields>, lk: Linker, owner: string -> string) {
    if s.customerId.None? then s.customer.None?
    else
      var cid := s.customerId.value;
      && Agrees(ResolveFromMeta(s.metadata, lk), owner(cid))
      && (OfDeleted(s) <==> !Listed(cid, customers))
      && (s.customer.Some? ==> CoherentExpansion(s.customer.value, cid, customers, lk, owner))
  }

  predicate CoherentItem(x: Item, customers: seq<CustomerFields>, lk: Linker, owner: string -> string) {
    match x
    case SubItem(s) => CoherentSub(s, customers, lk, owner)
    case CustomerItem(c) => c in customers
  }

  /** Links agree per customer: `owner` names the member each customer belongs to. */
  predicate Coherent(snap: Snapshot, lk: Linker, owner: string -> string) {
    && DistinctListing(snap)
    && (forall c <- snap.customers :: CoherentCustomer(c, lk, owner))
    && (forall s <- snap.subs :: CoherentSub(s, snap.customers, lk, owner))
  }

  predicate LinksAgree(t: Tables, owner: string -> string) {
    && (forall cid <- t.customers :: Agrees(t.customers[cid].discord, owner(cid)))
    && (forall sid <- t.subs ::
          t.subs[sid].customerId.Some? ==> Agrees(t.subs[sid].discord, owner(t.subs[sid].customerId.value)))
  }

  /** A stored subscription is listed under the customer it is stored with. */
  predicate SameOwner(t: Tables, x: Item) {
    x.SubItem? && x.sub.id in t.subs ==> t.subs[x.sub.id].customerId == x.sub.customerId
  }

  // ---- what one walk of an item leaves behind ----

  /** The id that the subscription's metadata, or its expanded customer's, resolves. */
  function OwnId(s: SubFields, lk: Linker): Option<string> {
    ResolveFromMeta(s.metadata, lk)
    .OrElse(if s.customer.Some? then ResolveFromMeta(s.customer.value.metadata, lk) else None)
  }

  /** Upserting the object again without a link would not change its row. */
  predicate SubStored(t: Tables, s: SubFields, lk: Linker) {
    && s.id in t.subs && MergeSub(t, s, None) == t.subs[s.id]
    && (OwnId(s, lk).Some? ==> t.subs[s.id].discord == OwnId(s, lk))
  }

  /** A deleted customer of a walked subscription has no row. */
  predicate RowRemoved(t: Tables, s: SubFields) {
    OfDeleted(s) ==> s.customer.value.id !in t.customers
  }

  /** A linked customer of a walked subscription has a linked subscription. */
  predicate LinkReachesSub(t: Tables, cid: string) {
    CustomerLink(t, cid).Some? ==> HasLinkedSub(t, cid)
  }

  predicate CustomerStored(t: Tables, c: CustomerFields) {
    c.id in t.customers && MergeCustomer(t, c, None) == t.customers[c.id]
  }

  predicate Stored(t: Tables, x: Item, lk: Linker) {
    match x
    case SubItem(s) =>
      && SubStored(t, s, lk) && RowRemoved(t, s)
      && (s.customerId.Some? ==> LinkReachesSub(t, s.customerId.value))
    case CustomerItem(c) => CustomerStored(t, c)
  }

  // ---- agreement is kept ----

  lemma CustomerKeepsAgreement(t: Tables, c: CustomerFields, lk: Linker, pick: string, owner: string -> string)
    requires LinksAgree(t, owner) && (c.deleted || Agrees(ResolveFromMeta(c.metadata, lk), owner(c.id)))
    ensures LinksAgree(UpsertCustomer(t, c, lk, pick).0, owner)
    ensures Agrees(UpsertCustomer(t, c, lk, pick).1, owner(c.id))
  {
  }

  lemma CustomerKeepsOwner(t: Tables, c: CustomerFields, lk: Linker, pick: string, x: Item)
    requires SameOwner(t, x)
    ensures SameOwner(UpsertCustomer(t, c, lk, pick).0, x)
  {
  }

  lemma SubLinkAgrees(t: Tables, s: SubFields, lk: Linker, cd: Option<string>, customers: seq<CustomerFields>,
                      owner: string -> string)
    requires LinksAgree(t, owner) && CoherentSub(s, customers, lk, owner) && s.customerId.Some?
    requires forall c <- customers :: CoherentCustomer(c, lk, owner)
    requires Agrees(cd, owner(s.customerId.value))
    ensures Agrees(SubDiscord(t, s, lk, None, cd), owner(s.customerId.value))
  {
  }

  lemma ItemKeepsAgreement(t: Tables, x: Item, lk: Linker, pick: string, customers: seq<CustomerFields>,
                           owner: string -> string)
    requires LinksAgree(t, owner) && CoherentItem(x, customers, lk, owner) && SameOwner(t, x)
    requires forall c <- customers :: CoherentCustomer(c, lk, owner)
    ensures LinksAgree(UpsertItem(t, x, lk, pick).0, owner)
  {
    hide UpsertCustomer, SubDiscord;
    match x {
      case CustomerItem(c) => CustomerKeepsAgreement(t, c, lk, pick, owner);
      case SubItem(s) =>
        var (t1, cd) := ExpandedCustomer(t, s, lk, pick);
        if s.customer.Some? {
          CustomerKeepsAgreement(t, s.customer.value, lk, pick, owner);
          CustomerKeepsOwner(t, s.customer.value, lk, pick, x);
        }
        if s.customerId.Some? {
          SubLinkAgrees(t1, s, lk, cd, customers, owner);
        }
    }
  }

  lemma ItemKeepsOwner(t: Tables, y: Item, lk: Linker, pick: string, x: Item)
    requires SameOwner(t, x) && (x.SubItem? ==> SameSub(y, x.sub))
    ensures SameOwner(UpsertItem(t, y, lk, pick).0, x)
  {
    hide UpsertCustomer, SubDiscord;
    match y {
      case CustomerItem(c) => CustomerKeepsOwner(t, c, lk, pick, x);
      case SubItem(s) =>
        if s.customer.Some? {
          CustomerKeepsOwner(t, s.customer.value, lk, pick, x);
        }
    }
  }

  // ---- stored stays stored ----

  /** Two customer objects with one id are the same object. */
  predicate SameCustomer(a: CustomerFields, b: CustomerFields) {
    a.id == b.id ==> a == b
  }

  lemma CustomerStepKeepsSub(t: Tables, c: CustomerFields, lk: Linker, pick: string, s: SubFields)
    requires SubStored(t, s, lk)
    ensures SubStored(UpsertCustomer(t, c, lk, pick).0, s, lk)
  {
  }

  lemma CustomerStepKeepsReach(t: Tables, c: CustomerFields, lk: Linker, pick: string, cid: string, sid: string)
    requires LinkReachesSub(t, cid)
    requires sid in t.subs && t.subs[sid].customerId == Some(cid)
    ensures LinkReachesSub(UpsertCustomer(t, c, lk, pick).0, cid)
  {
    var u := UpsertCustomer(t, c, lk, pick).0;
    if HasLinkedSub(t, cid) {
      var x :| x in t.subs && LinkedSubOf(t, cid, x);
      assert LinkedSubOf(u, cid, x);
    } else if CustomerLink(u, cid).Some? {
      assert c.id == cid && CustomerDiscord(t, c, lk, pick).Some?;
      assert LinkedSubOf(u, cid, sid);
    }
  }

  lemma CustomerStepKeepsCustomer(t: Tables, y: CustomerFields, lk: Linker, pick: string, c: CustomerFields)
    requires !c.deleted
    requires y == c || (CustomerStored(t, c) && (if y.deleted then y.id != c.id else SameCustomer(y, c)))
    ensures CustomerStored(UpsertCustomer(t, y, lk, pick).0, c)
  {
  }

  /** Walking a customer, or a deleted one that nothing else of the listing has, undoes
      nothing. */
  predicate Undoes(c: CustomerFields, x: Item) {
    match x
    case SubItem(s) => OfDeleted(s) && !c.deleted && c.id == s.customer.value.id
    case CustomerItem(y) => if c.deleted then c.id == y.id else !SameCustomer(c, y)
  }

  lemma CustomerStepKeeps(t: Tables, c: CustomerFields, lk: Linker, pick: string, x: Item)
    requires Stored(t, x, lk) && !Undoes(c, x) && (x.CustomerItem? ==> !x.customer.deleted)
    ensures Stored(UpsertCustomer(t, c, lk, pick).0, x, lk)
  {
    CustomerKeysAfter(t, c, lk, pick);
    hide UpsertCustomer, LinkReachesSub, SubStored, CustomerStored;
    match x {
      case SubItem(s) =>
        assert s.id in t.subs && t.subs[s.id].customerId == s.customerId by {
          StoredUnder(t, s, lk);
        }
        CustomerStepKeepsSub(t, c, lk, pick, s);
        if s.customerId.Some? {
          CustomerStepKeepsReach(t, c, lk, pick, s.customerId.value, s.id);
        }
      case CustomerItem(y) => CustomerStepKeepsCustomer(t, c, lk, pick, y);
    }
  }

  lemma StoredUnder(t: Tables, s: SubFields, lk: Linker)
    requires SubStored(t, s, lk)
    ensures s.id in t.subs && t.subs[s.id].customerId == s.customerId
  {
  }

  lemma CustomerKeysAfter(t: Tables, c: CustomerFields, lk: Linker, pick: string)
    ensures UpsertCustomer(t, c, lk, pick).0.customers.Keys
         == if c.deleted then t.customers.Keys - {c.id} else t.customers.Keys + {c.id}
  {
  }

  /** The subscription's own row and the back-fill, after the expanded customer. */
  function OwnStep(t: Tables, s: SubFields, did: Option<string>): Tables {
    Tables(BackFill(t.customers, s.customerId, did), t.subs[s.id := MergeSub(t, s, did)])
  }

  lemma OwnStepKeepsSub(t: Tables, s: SubFields, did: Option<string>, x: SubFields, lk: Linker)
    requires SubStored(t, x, lk) && x.id != s.id
    ensures SubStored(OwnStep(t, s, did), x, lk)
  {
  }

  lemma OwnStepKeepsReach(t: Tables, s: SubFields, did: Option<string>, cid: string)
    requires LinkReachesSub(t, cid) && SameOwner(t, SubItem(s))
    ensures LinkReachesSub(OwnStep(t, s, did), cid)
  {
    var u := OwnStep(t, s, did);
    if HasLinkedSub(t, cid) {
      var x :| x in t.subs && LinkedSubOf(t, cid, x);
      assert LinkedSubOf(u, cid, x);
    } else if CustomerLink(u, cid).Some? {
      assert s.customerId == Some(cid) && did.Some?;
      assert LinkedSubOf(u, cid, s.id);
    }
  }

  lemma OwnStepStores(t: Tables, s: SubFields, did: Option<string>, lk: Linker)
    requires OwnId(s, lk).Some? ==> did == OwnId(s, lk)
    requires RowRemoved(t, s)
    requires s.customerId.Some? && CustomerLink(t, s.customerId.value).Some? ==> did.Some?
    ensures Stored(OwnStep(t, s, did), SubItem(s), lk)
  {
    var u := OwnStep(t, s, did);
    if s.customerId.Some? && CustomerLink(u, s.customerId.value).Some? {
      assert did.Some?;
      assert LinkedSubOf(u, s.customerId.value, s.id);
    }
  }

  lemma OwnStepKeeps(t: Tables, s: SubFields, did: Option<string>, x: Item, lk: Linker)
    requires Stored(t, x, lk) && SameOwner(t, SubItem(s))
    requires x.SubItem? ==> x.sub.id != s.id
    ensures Stored(OwnStep(t, s, did), x, lk)
  {
    assert OwnStep(t, s, did).customers.Keys == t.customers.Keys;
    hide OwnStep, LinkReachesSub, SubStored;
    match x {
      case SubItem(y) =>
        OwnStepKeepsSub(t, s, did, y, lk);
        if y.customerId.Some? {
          OwnStepKeepsReach(t, s, did, y.customerId.value);
        }
      case CustomerItem(c) => OwnStepKeepsCustomer(t, s, did, c);
    }
  }

  lemma OwnStepKeepsCustomer(t: Tables, s: SubFields, did: Option<string>, c: CustomerFields)
    requires CustomerStored(t, c)
    ensures CustomerStored(OwnStep(t, s, did), c)
  {
  }

  /** Objects of one listing: equal ids mean equal objects. */
  predicate Compatible(x: Item, y: Item, customers: seq<CustomerFields>) {
    && (x.SubItem? ==> SameSub(y, x.sub))
    && (x.CustomerItem? ==> forall c <- customers :: SameCustomer(c, x.customer))
  }

  /** What an item of a coherent listing writes for a customer undoes no other item. */
  lemma NothingUndone(x: Item, y: Item, lk: Linker, customers: seq<CustomerFields>, owner: string -> string)
    requires CoherentItem(x, customers, lk, owner) && CoherentItem(y, customers, lk, owner)
    requires forall c <- customers :: !c.deleted
    requires Compatible(x, y, customers)
    ensures y.CustomerItem? ==> !Undoes(y.customer, x)
    ensures y.SubItem? && y.sub.customer.Some? ==> !Undoes(y.sub.customer.value, x)
  {
  }

  lemma ItemKeepsStored(t: Tables, y: Item, lk: Linker, pick: string, customers: seq<CustomerFields>,
                        owner: string -> string, x: Item)
    requires Stored(t, x, lk) && SameOwner(t, y) && CoherentItem(y, customers, lk, owner)
    requires CoherentItem(x, customers, lk, owner) && forall c <- customers :: !c.deleted
    requires Compatible(x, y, customers) && x != y
    ensures Stored(UpsertItem(t, y, lk, pick).0, x, lk)
  {
    NothingUndone(x, y, lk, customers, owner);
    assert x.CustomerItem? ==> !x.customer.deleted;
    hide UpsertCustomer, Stored, SubDiscord, Undoes, CoherentItem;
    match y {
      case CustomerItem(c) => CustomerStepKeeps(t, c, lk, pick, x);
      case SubItem(s) =>
        var (t1, cd) := ExpandedCustomer(t, s, lk, pick);
        if s.customer.Some? {
          CustomerStepKeeps(t, s.customer.value, lk, pick, x);
          CustomerKeepsOwner(t, s.customer.value, lk, pick, y);
        }
        OwnStepKeeps(t1, s, SubDiscord(t1, s, lk, None, cd), x, lk);
    }
  }

  lemma ItemBecomesStored(t: Tables, y: Item, lk: Linker, pick: string, customers: seq<CustomerFields>,
                          owner: string -> string)
    requires CoherentItem(y, customers, lk, owner) && forall c <- customers :: !c.deleted
    ensures Stored(UpsertItem(t, y, lk, pick).0, y, lk)
  {
    match y {
      case CustomerItem(c) => CustomerStepKeepsCustomer(t, c, lk, pick, c);
      case SubItem(s) =>
        if s.customer.Some? {
          CustomerKeysAfter(t, s.customer.value, lk, pick);
        }
        hide UpsertCustomer, OwnStep, Stored;
        var (t1, cd) := ExpandedCustomer(t, s, lk, pick);
        OwnStepStores(t1, s, SubDiscord(t1, s, lk, None, cd), lk);
        OwnStepIsUpsert(t, s, lk, pick);
    }
  }

  lemma OwnStepIsUpsert(t: Tables, s: SubFields, lk: Linker, pick: string)
    ensures var (t1, cd) := ExpandedCustomer(t, s, lk, pick);
      UpsertSubscription(t, s, lk, None, pick).0 == OwnStep(t1, s, SubDiscord(t1, s, lk, None, cd))
  {
  }

  /** Everything already stored, and everything walked, is stored at the end. */
  lemma {:induction false} PassStores(t: Tables, xs: seq<Item>, picks: seq<string>, lk: Linker,
                                      customers: seq<CustomerFields>, owner: string -> string, x: Item)
    requires |picks| == |xs| && LinksAgree(t, owner)
    requires forall c <- customers :: CoherentCustomer(c, lk, owner)
    requires forall y <- xs :: CoherentItem(y, customers, lk, owner) && SameOwner(t, y) && Compatible(x, y, customers)
    requires forall y <- xs, z <- xs :: Compatible(z, y, customers)
    requires CoherentItem(x, customers, lk, owner) && (Stored(t, x, lk) || x in xs)
    ensures Stored(Pass(t, xs, picks, lk).0, x, lk)
    ensures LinksAgree(Pass(t, xs, picks, lk).0, owner)
    decreases |xs|
  {
    hide UpsertItem, Stored, LinksAgree, SameOwner, CoherentItem, CoherentCustomer, Compatible;
    if xs != [] {
      var y := xs[0];
      var u := UpsertItem(t, y, lk, picks[0]).0;
      ItemKeepsAgreement(t, y, lk, picks[0], customers, owner);
      NoneDeleted(customers, lk, owner);
      forall z <- xs[1..]
        ensures SameOwner(u, z)
      {
        ItemOwner(t, y, lk, picks[0], customers, z);
      }
      if x == y {
        ItemBecomesStored(t, y, lk, picks[0], customers, owner);
      } else if Stored(t, x, lk) {
        ItemKeepsStored(t, y, lk, picks[0], customers, owner, x);
      }
      PassStores(u, xs[1..], picks[1..], lk, customers, owner, x);
    }
  }

  lemma NoneDeleted(customers: seq<CustomerFields>, lk: Linker, owner: string -> string)
    requires forall c <- customers :: CoherentCustomer(c, lk, owner)
    ensures forall c <- customers :: !c.deleted
  {
  }

  lemma ItemOwner(t: Tables, y: Item, lk: Linker, pick: string, customers: seq<CustomerFields>, z: Item)
    requires SameOwner(t, z) && Compatible(z, y, customers)
    ensures SameOwner(UpsertItem(t, y, lk, pick).0, z)
  {
    ItemKeepsOwner(t, y, lk, pick, z);
  }

  // ---- a second walk is a no-op ----

  lemma CustomerNoop(t: Tables, c: CustomerFields, lk: Linker, pick: string, owner: string -> string)
    requires CustomerStored(t, c) && Closed(t, c, lk) && LinksAgree(t, owner) && CoherentCustomer(c, lk, owner)
    ensures UpsertCustomer(t, c, lk, pick).0 == t
  {
    var did := CustomerDiscord(t, c, lk, pick);
    CustomerKeepsAgreement(t, c, lk, pick, owner);
    if did.Some? {
      assert AllLinked(t, c.id);
    }
    assert LinkSubs(t.subs, c.id, did) == t.subs;
  }

  /** Any id a stored subscription of a listed customer resolves is the link it has. */
  lemma SubResolvesItsLink(t: Tables, s: SubFields, lk: Linker, pick: string, customers: seq<CustomerFields>,
                           owner: string -> string)
    requires Stored(t, SubItem(s), lk) && LinksAgree(t, owner) && CoherentSub(s, customers, lk, owner) && !OfDeleted(s)
    requires forall c <- customers :: CoherentCustomer(c, lk, owner) && Closed(t, c, lk)
    ensures var cd := if s.customer.Some? then CustomerDiscord(t, s.customer.value, lk, pick) else None;
      var did := SubDiscord(t, s, lk, None, cd);
      did.Some? ==>
        did == t.subs[s.id].discord
        && (s.customerId.Some? ==> CustomerLink(t, s.customerId.value).Some?)
  {
    var cd := if s.customer.Some? then CustomerDiscord(t, s.customer.value, lk, pick) else None;
    var did := SubDiscord(t, s, lk, None, cd);
    if s.customerId.Some? && did.Some? {
      var cid := s.customerId.value;
      var c :| c in customers && c.id == cid;
      assert t.subs[s.id].customerId == Some(cid);
      if ResolveFromMeta(s.metadata, lk).Some? {
        assert LinkedSubOf(t, cid, s.id);
      }
      assert AllLinked(t, cid);
      if s.customer.Some? {
        CustomerKeepsAgreement(t, s.customer.value, lk, pick, owner);
      }
      SubLinkAgrees(t, s, lk, cd, customers, owner);
    }
  }

  /** A stored subscription of a deleted customer resolves what its own objects say. */
  lemma DeletedSubNoop(t: Tables, s: SubFields, lk: Linker, pick: string, customers: seq<CustomerFields>,
                       owner: string -> string)
    requires Stored(t, SubItem(s), lk) && CoherentSub(s, customers, lk, owner) && OfDeleted(s)
    ensures UpsertSubscription(t, s, lk, None, pick).0 == t
  {
    hide ResolveFromMeta;
    var (t1, cd) := ExpandedCustomer(t, s, lk, pick);
    assert t1 == t && cd.None?;
    assert SubDiscord(t, s, lk, None, None) == OwnId(s, lk);
    assert MergeSub(t, s, OwnId(s, lk)) == t.subs[s.id];
    assert t.subs[s.id := t.subs[s.id]] == t.subs;
  }

  lemma SubNoop(t: Tables, s: SubFields, lk: Linker, pick: string, customers: seq<CustomerFields>,
                owner: string -> string)
    requires Stored(t, SubItem(s), lk) && LinksAgree(t, owner) && CoherentSub(s, customers, lk, owner)
    requires forall c <- customers :: CoherentCustomer(c, lk, owner) && Closed(t, c, lk) && CustomerStored(t, c)
    ensures UpsertSubscription(t, s, lk, None, pick).0 == t
  {
    if OfDeleted(s) {
      DeletedSubNoop(t, s, lk, pick, customers, owner);
      return;
    }
    SubResolvesItsLink(t, s, lk, pick, customers, owner);
    hide SubDiscord, CustomerDiscord, LinkSubs, Closed;
    if s.customer.Some? {
      CustomerNoop(t, s.customer.value, lk, pick, owner);
    }
    var (t1, cd) := ExpandedCustomer(t, s, lk, pick);
    assert t1 == t;
    var did := SubDiscord(t, s, lk, None, cd);
    assert MergeSub(t, s, did) == t.subs[s.id];
    assert t.subs[s.id := t.subs[s.id]] == t.subs;
    assert BackFill(t.customers, s.customerId, did) == t.customers;
  }

  lemma {:induction false} PassNoop(t: Tables, xs: seq<Item>, picks: seq<string>, lk: Linker,
                                    customers: seq<CustomerFields>, owner: string -> string)
    requires |picks| == |xs| && LinksAgree(t, owner)
    requires forall c <- customers :: CoherentCustomer(c, lk, owner) && Closed(t, c, lk) && CustomerStored(t, c)
    requires forall x <- xs :: CoherentItem(x, customers, lk, owner) && Stored(t, x, lk)
    ensures Pass(t, xs, picks, lk).0 == t
    decreases |xs|
  {
    hide UpsertCustomer, UpsertSubscription, Stored, LinksAgree, CoherentCustomer, CoherentSub, CustomerStored, Closed;
    if xs != [] {
      assert xs[0] in xs;
      match xs[0] {
        case SubItem(s) => SubNoop(t, s, lk, picks[0], customers, owner);
        case CustomerItem(c) => CustomerNoop(t, c, lk, picks[0], owner);
      }
      PassNoop(t, xs[1..], picks[1..], lk, customers, owner);
    }
  }

  lemma SpendKeepsStored(t: Tables, spend: Option<map<string, (int, int)>>, x: Item, lk: Linker)
    requires Stored(t, x, lk)
    ensures Stored(SpendPass(t, spend), x, lk)
  {
    var u := SpendPass(t, spend);
    if x.SubItem? && x.sub.customerId.Some? && HasLinkedSub(t, x.sub.customerId.value) {
      var sid :| sid in t.subs && LinkedSubOf(t, x.sub.customerId.value, sid);
      assert LinkedSubOf(u, x.sub.customerId.value, sid);
    }
  }

  lemma SpendKeepsClosed(t: Tables, spend: Option<map<string, (int, int)>>, c: CustomerFields, lk: Linker)
    requires Closed(t, c, lk)
    ensures Closed(SpendPass(t, spend), c, lk)
  {
    var u := SpendPass(t, spend);
    SpendKeepsLinks(t, spend);
    assert forall sid <- t.subs :: LinkedSubOf(u, c.id, sid) <==> LinkedSubOf(t, c.id, sid);
  }

  lemma SpendKeepsAgreement(t: Tables, spend: Option<map<string, (int, int)>>, owner: string -> string)
    requires LinksAgree(t, owner)
    ensures LinksAgree(SpendPass(t, spend), owner)
  {
  }

  lemma SpendTwice(t: Tables, spend: Option<map<string, (int, int)>>)
    ensures SpendPass(SpendPass(t, spend), spend) == SpendPass(t, spend)
  {
  }

  lemma ListingIsCompatible(snap: Snapshot, lk: Linker, owner: string -> string)
    requires Coherent(snap, lk, owner)
    ensures forall x <- snap.Items() :: CoherentItem(x, snap.customers, lk, owner)
    ensures forall x <- snap.Items(), y <- snap.Items() :: Compatible(x, y, snap.customers)
  {
    var xs := snap.Items();
    forall x <- xs
      ensures (x.SubItem? ==> x.sub in snap.subs) && (x.CustomerItem? ==> x.customer in snap.customers)
    {
      var j :| 0 <= j < |xs| && xs[j] == x;
      if j < |snap.subs| {
        assert x == SubItem(snap.subs[j]);
      } else {
        assert x == CustomerItem(snap.customers[j - |snap.subs|]);
      }
    }
    forall a <- snap.customers, b <- snap.customers
      ensures SameCustomer(a, b)
    {
      var i :| 0 <= i < |snap.customers| && snap.customers[i] == a;
      var j :| 0 <= j < |snap.customers| && snap.customers[j] == b;
      assert i < j || j < i || i == j;
    }
  }

  /** For every coherent listing and every agreeing mirror, whatever rows the unordered
      lookups return: importing the listing again changes neither table. */
  lemma ImportIsIdempotent(t: Tables, snap: Snapshot, picks: seq<string>, again: seq<string>, lk: Linker,
                           owner: string -> string)
    requires |picks| == |again| == |snap.Items()| && PicksOk(t, snap.Items(), picks, lk)
    requires Coherent(snap, lk, owner) && LinksAgree(t, owner)
    requires forall x <- snap.Items() :: SameOwner(t, x)
    ensures var u := Import(t, snap, picks, lk).0;
      Import(u, snap, again, lk).0 == u
  {
    var xs := snap.Items();
    var v := Pass(t, xs, picks, lk).0;
    var u := SpendPass(v, snap.spend);
    ListingIsCompatible(snap, lk, owner);
    hide Stored, LinksAgree, SameOwner, CoherentItem, CoherentCustomer, CoherentSub, Compatible;
    hide SpendPass, Closed, Pass, PicksOk;
    forall x <- xs
      ensures Stored(u, x, lk)
    {
      PassStores(t, xs, picks, lk, snap.customers, owner, x);
      SpendKeepsStored(v, snap.spend, x, lk);
    }
    forall c <- snap.customers
      ensures Closed(u, c, lk) && CustomerStored(u, c)
    {
      ListedIsStored(u, snap, c, lk);
      var i :| 0 <= i < |snap.customers| && snap.customers[i] == c;
      ListedCustomer(snap, i);
      PassCloses(t, xs, picks, |snap.subs| + i, lk);
      SpendKeepsClosed(v, snap.spend, c, lk);
    }
    Agreement(t, snap, picks, lk, owner);
    SpendKeepsAgreement(v, snap.spend, owner);
    PassNoop(u, xs, again, lk, snap.customers, owner);
    SpendTwice(v, snap.spend);
  }

  lemma ListedIsStored(u: Tables, snap: Snapshot, c: CustomerFields, lk: Linker)
    requires c in snap.customers && forall x <- snap.Items() :: Stored(u, x, lk)
    ensures CustomerStored(u, c)
  {
    var i :| 0 <= i < |snap.customers| && snap.customers[i] == c;
    assert snap.Items()[|snap.subs| + i] == CustomerItem(c);
    assert CustomerItem(c) in snap.Items();
  }

  lemma Agreement(t: Tables, snap: Snapshot, picks: seq<string>, lk: Linker, owner: string -> string)
    requires |picks| == |snap.Items()| && Coherent(snap, lk, owner) && LinksAgree(t, owner)
    requires forall x <- snap.Items() :: SameOwner(t, x)
    ensures LinksAgree(Pass(t, snap.Items(), picks, lk).0, owner)
  {
    ListingIsCompatible(snap, lk, owner);
    hide Stored, LinksAgree, SameOwner, CoherentItem, CoherentCustomer, Compatible, CoherentSub;
    if snap.Items() != [] {
      PassStores(t, snap.Items(), picks, lk, snap.customers, owner, snap.Items()[0]);
    }
  }

  /** Under a coherent listing and an agreeing mirror the closure is one link: a listed customer
      that it reaches, and all its stored subscriptions, carry the customer's owner. */
  lemma ImportLinksToOwner(t: Tables, snap: Snapshot, picks: seq<string>, lk: Linker, owner: string -> string,
                           c: CustomerFields)
    requires |picks| == |snap.Items()| && PicksOk(t, snap.Items(), picks, lk)
    requires Coherent(snap, lk, owner) && LinksAgree(t, owner) && c in snap.customers
    requires forall x <- snap.Items() :: SameOwner(t, x)
    requires ResolveFromMeta(c.metadata, lk).Some?
      || exists s <- snap.subs :: s.customerId == Some(c.id) && ResolveFromMeta(s.metadata, lk).Some?
    ensures var u := Import(t, snap, picks, lk).0;
      && CustomerLink(u, c.id) == Some(owner(c.id))
      && forall sid <- u.subs :: u.subs[sid].customerId == Some(c.id) ==> u.subs[sid].discord == Some(owner(c.id))
  {
    ImportReachesClosure(t, snap, picks, lk, c);
    Agreement(t, snap, picks, lk, owner);
    SpendKeepsAgreement(Pass(t, snap.Items(), picks, lk).0, snap.spend, owner);
    var u := Import(t, snap, picks, lk).0;
    assert LinksAgree(u, owner) && AllLinked(u, c.id);
    hide Import, Pass, SpendPass, PicksOk, Coherent;
  }
}
