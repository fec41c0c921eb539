/** Which links and statuses an event leaves behind, read off the stored rows and the event
    before it is applied. */
module EventLinks {
  import opened Wrappers
  import opened MemberFacts
  import opened Ingest
  import opened Webhooks

  predicate HasRows(t: Tables, d: string) {
    CustomersOf(t, d) != {} || SubsOf(t, d) != {}
  }

  predicate HasActive(t: Tables, d: string) {
    exists sid <- SubsOf(t, d) :: IsActive(t.subs[sid])
  }

  // ---- read before the event ----

  predicate DeletesCustomer(e: Event) {
    EventCustomer(e).Some? && EventCustomer(e).value.deleted
  }

  function RemovedCustomers(e: Event): set<string> {
    if DeletesCustomer(e) then {EventCustomer(e).value.id} else {}
  }

  /** The link the event gives to the customer it carries. */
  function GivenLink(t: Tables, e: Event, lk: Linker, pick: string): Option<string> {
    if EventCustomer(e).Some? && !DeletesCustomer(e) then CustomerDiscord(t, EventCustomer(e).value, lk, pick) else None
  }

  function SubMember(t: Tables, e: Event, s: SubFields, lk: Linker, fallback: Option<string>, pick: string)
    : Option<string>
  {
    SubDiscord(t.(customers := t.customers - RemovedCustomers(e)), s, lk, fallback, GivenLink(t, e, lk, pick))
  }

  /** The member whose facts are recomputed. */
  function EventMember(t: Tables, e: Event, lk: Linker, pick: string): Option<string> {
    match e
    case CustomerEvent(_) => GivenLink(t, e, lk, pick)
    case CustomerDeletedEvent(_, _, _) => DeletedMember(t, e, lk)
    case ChargeEvent(Some(cid), _, _, _) => if IsChargeOf(e, cid) then CustomerLink(t, cid) else None
    case SubscriptionEvent(Some(s)) => SubMember(t, e, s, lk, None, pick)
    case CheckoutEvent(clientRef, Some(s)) => SubMember(t, e, s, lk, clientRef, pick)
    case InvoiceEvent(Some(s)) => SubMember(t, e, s, lk, None, pick)
    case _ => None
  }

  // The event's first write is the customer row, the second the link spread to the customer's
  // subscriptions, the third the subscription row, the fourth the back-filled customer link;
  // `n` of them are made.

  /** The customer rows that are removed or given a link, and the subscription row that is
      given one: what they were linked to before is gone. */
  function RelinkedCustomers(t: Tables, e: Event, lk: Linker, pick: string, n: nat): set<string> {
    if n == 0 then {}
    else if GivenLink(t, e, lk, pick).Some? then {EventCustomer(e).value.id}
    else RemovedCustomers(e)
  }

  function RelinkedSubs(t: Tables, e: Event, lk: Linker, pick: string, n: nat): set<string> {
    if n >= 3 && EventSub(e).Some? && EventMember(t, e, lk, pick).Some? then {EventSub(e).value.id} else {}
  }

  /** Some row will be linked to `d`: one that is given the link, or one that keeps it. */
  predicate WillHaveRows(t: Tables, e: Event, lk: Linker, pick: string, n: nat, d: string) {
    || (n >= 1 && GivenLink(t, e, lk, pick) == Some(d))
    || (n >= 3 && EventSub(e).Some? && EventMember(t, e, lk, pick) == Some(d))
    || !(CustomersOf(t, d) <= RelinkedCustomers(t, e, lk, pick, n))
    || !(SubsOf(t, d) <= RelinkedSubs(t, e, lk, pick, n))
  }

  /** The event does not write the subscription's row. */
  predicate Other(e: Event, n: nat, sid: string) {
    n >= 3 && EventSub(e).Some? ==> EventSub(e).value.id != sid
  }

  /** A subscription of `d` that the event does not write is active. */
  predicate OtherActive(t: Tables, e: Event, n: nat, d: string) {
    exists sid <- SubsOf(t, d) :: Other(e, n, sid) && IsActive(t.subs[sid])
  }

  /** An unlinked active subscription of the event's customer is given to `d`. */
  predicate GainsActive(t: Tables, e: Event, lk: Linker, pick: string, n: nat, d: string) {
    n >= 2 && GivenLink(t, e, lk, pick) == Some(d)
    && exists sid <- t.subs ::
         && t.subs[sid].discord.None? && t.subs[sid].customerId == Some(EventCustomer(e).value.id)
         && Other(e, n, sid) && IsActive(t.subs[sid])
  }

  /** The event's own subscription will be active and linked to `d`. */
  predicate OwnActive(t: Tables, e: Event, lk: Linker, pick: string, n: nat, d: string) {
    n >= 3 && EventSub(e).Some?
    && var s := EventSub(e).value;
       && EventMember(t, e, lk, pick).OrElse(SubLink(t, s.id)) == Some(d)
       && (s.status == "active" || s.status == "trialing")
  }

  predicate WillHaveActive(t: Tables, e: Event, lk: Linker, pick: string, n: nat, d: string) {
    OtherActive(t, e, n, d) || GainsActive(t, e, lk, pick, n, d) || OwnActive(t, e, lk, pick, n, d)
  }

  // ---- and what the event then does ----

  lemma CustomerRowsAfter(t: Tables, c: CustomerFields, lk: Linker, pick: string, n: nat, cid: string)
    ensures var did := if c.deleted then None else CustomerDiscord(t, c, lk, pick);
      var u := PartialCustomer(t, c, lk, pick, n);
      && (cid in u.customers <==> if cid == c.id && n > 0 then !c.deleted else cid in t.customers)
      && CustomerLink(u, cid) ==
           if cid != c.id || n == 0 then CustomerLink(t, cid)
           else if c.deleted then None
           else did.OrElse(CustomerLink(t, cid))
  {
    hide CustomerDiscord;
  }

  lemma SubRowsAfter(t: Tables, c: CustomerFields, lk: Linker, pick: string, n: nat, sid: string)
    ensures var did := if c.deleted || n < 2 then None else CustomerDiscord(t, c, lk, pick);
      var u := PartialCustomer(t, c, lk, pick, n);
      && (sid in u.subs <==> sid in t.subs)
      && (sid in t.subs ==>
            && u.subs[sid].status == t.subs[sid].status && u.subs[sid].customerId == t.subs[sid].customerId
            && u.subs[sid].discord ==
                 if t.subs[sid].customerId == Some(c.id) then t.subs[sid].discord.OrElse(did) else t.subs[sid].discord)
  {
    hide CustomerDiscord;
  }

  lemma ReturnsSubMember(t: Tables, e: Event, s: SubFields, lk: Linker, fallback: Option<string>, pick: string)
    requires EventSub(e) == Some(s)
    ensures UpsertSubscription(t, s, lk, fallback, pick).1 == SubMember(t, e, s, lk, fallback, pick)
  {
    hide ResolveFromMeta, NormalizeDiscordId, LinkSubs, MergeSub, BackFill;
    if s.customer.Some? && s.customerId.Some? {
      CustomerRowsAfter(t, s.customer.value, lk, pick, 2, s.customerId.value);
    }
  }

  /** The returned member is the one read off beforehand. */
  lemma ReturnsEventMember(t: Tables, e: Event, lk: Linker, pick: string)
    ensures ApplyEvent(t, e, lk, pick).1 == EventMember(t, e, lk, pick)
  {
    match e {
      case SubscriptionEvent(Some(s)) => ReturnsSubMember(t, e, s, lk, None, pick);
      case CheckoutEvent(clientRef, Some(s)) => ReturnsSubMember(t, e, s, lk, clientRef, pick);
      case InvoiceEvent(Some(s)) => ReturnsSubMember(t, e, s, lk, None, pick);
      case _ =>
    }
    hide SubMember, UpsertSubscription;
  }

  /** The link of every customer and subscription row after the writes. */
  function NextCustomerLink(t: Tables, e: Event, lk: Linker, pick: string, n: nat, cid: string): Option<string> {
    var own := n > 0 && EventCustomer(e).Some? && EventCustomer(e).value.id == cid;
    var link :=
      if !own then CustomerLink(t, cid)
      else if DeletesCustomer(e) then None
      else GivenLink(t, e, lk, pick).OrElse(CustomerLink(t, cid));
    var stored := if own then !DeletesCustomer(e) else cid in t.customers;
    if n >= 4 && EventSub(e).Some? && EventSub(e).value.customerId == Some(cid) && stored
    then link.OrElse(EventMember(t, e, lk, pick))
    else link
  }

  function NextSubLink(t: Tables, e: Event, lk: Linker, pick: string, n: nat, sid: string): Option<string> {
    var c := EventCustomer(e);
    var spread := if n >= 2 && c.Some? && sid in t.subs && t.subs[sid].customerId == Some(c.value.id)
      then SubLink(t, sid).OrElse(GivenLink(t, e, lk, pick)) else SubLink(t, sid);
    if Other(e, n, sid) then spread else EventMember(t, e, lk, pick).OrElse(spread)
  }

  /** The customer rows as the expanded customer leaves them, before the link is back-filled. */
  lemma ExpandedCustomers(t: Tables, e: Event, s: SubFields, lk: Linker, pick: string, cid: string)
    requires EventSub(e) == Some(s)
    ensures var t1 := ExpandedCustomer(t, s, lk, pick).0;
      && CustomerLink(t1, cid) == NextCustomerLink(t, e, lk, pick, 3, cid)
      && (cid in t1.customers <==>
            if EventCustomer(e).Some? && EventCustomer(e).value.id == cid then !DeletesCustomer(e)
            else cid in t.customers)
  {
    if s.customer.Some? {
      CustomerRowsAfter(t, s.customer.value, lk, pick, 2, cid);
    }
    hide EventMember, UpsertCustomer, CustomerDiscord;
  }

  lemma SubEventCustomers(t: Tables, e: Event, s: SubFields, lk: Linker, fallback: Option<string>, pick: string,
                          n: nat, cid: string)
    requires EventSub(e) == Some(s) && EventMember(t, e, lk, pick) == SubMember(t, e, s, lk, fallback, pick)
    ensures CustomerLink(PartialSubscription(t, s, lk, fallback, pick, n), cid)
         == NextCustomerLink(t, e, lk, pick, n, cid)
  {
    hide EventMember, SubMember, UpsertCustomer, SubDiscord, CustomerDiscord, MergeSub, PartialCustomer;
    if n <= 2 {
      if s.customer.Some? {
        CustomerRowsAfter(t, s.customer.value, lk, pick, n, cid);
      }
    } else {
      ReturnsSubMember(t, e, s, lk, fallback, pick);
      ExpandedCustomers(t, e, s, lk, pick, cid);
      hide ExpandedCustomer, GivenLink;
    }
  }

  lemma ExpandedSubs(t: Tables, e: Event, s: SubFields, lk: Linker, pick: string, sid: string)
    requires EventSub(e) == Some(s)
    ensures var t1 := ExpandedCustomer(t, s, lk, pick).0;
      && SubLink(t1, sid) == NextSubLink(t, e, lk, pick, 2, sid)
      && (sid in t1.subs <==> sid in t.subs)
      && (sid in t1.subs ==> t1.subs[sid].status == t.subs[sid].status)
  {
    if s.customer.Some? {
      SubRowsAfter(t, s.customer.value, lk, pick, 2, sid);
    }
    hide EventMember, UpsertCustomer, CustomerDiscord;
  }

  lemma SubEventSubs(t: Tables, e: Event, s: SubFields, lk: Linker, fallback: Option<string>, pick: string, n: nat,
                     sid: string)
    requires EventSub(e) == Some(s) && EventMember(t, e, lk, pick) == SubMember(t, e, s, lk, fallback, pick)
    ensures var u := PartialSubscription(t, s, lk, fallback, pick, n);
      && SubLink(u, sid) == NextSubLink(t, e, lk, pick, n, sid)
      && (sid in u.subs <==> sid in t.subs || (n >= 3 && sid == s.id))
      && (sid in u.subs ==> u.subs[sid].status == if n >= 3 && sid == s.id then s.status else t.subs[sid].status)
  {
    hide EventMember, SubMember, UpsertCustomer, SubDiscord, CustomerDiscord, BackFill, PartialCustomer;
    if n <= 2 {
      if s.customer.Some? {
        SubRowsAfter(t, s.customer.value, lk, pick, n, sid);
      }
    } else {
      ReturnsSubMember(t, e, s, lk, fallback, pick);
      ExpandedSubs(t, e, s, lk, pick, sid);
      hide ExpandedCustomer, GivenLink;
    }
  }

  lemma LinksAfter(t: Tables, e: Event, lk: Linker, pick: string, n: nat, cid: string, sid: string)
    ensures var u := PartialEvent(t, e, lk, pick, n);
      && CustomerLink(u, cid) == NextCustomerLink(t, e, lk, pick, n, cid)
      && SubLink(u, sid) == NextSubLink(t, e, lk, pick, n, sid)
      && (sid in u.subs <==> sid in t.subs || !Other(e, n, sid))
      && (sid in u.subs ==>
            u.subs[sid].status == if Other(e, n, sid) then t.subs[sid].status else EventSub(e).value.status)
  {
    hide SubMember, PartialSubscription, UpsertSubscription, CustomerDiscord, DeletedMember;
    match e {
      case SubscriptionEvent(Some(s)) =>
        SubEventCustomers(t, e, s, lk, None, pick, n, cid);
        SubEventSubs(t, e, s, lk, None, pick, n, sid);
      case CheckoutEvent(clientRef, Some(s)) =>
        SubEventCustomers(t, e, s, lk, clientRef, pick, n, cid);
        SubEventSubs(t, e, s, lk, clientRef, pick, n, sid);
      case InvoiceEvent(Some(s)) =>
        SubEventCustomers(t, e, s, lk, None, pick, n, cid);
        SubEventSubs(t, e, s, lk, None, pick, n, sid);
      case CustomerEvent(Some(c)) =>
        CustomerRowsAfter(t, c, lk, pick, n, cid);
        SubRowsAfter(t, c, lk, pick, n, sid);
      case CustomerDeletedEvent(_, _, Some(c)) =>
        CustomerRowsAfter(t, c, lk, pick, n, cid);
        SubRowsAfter(t, c, lk, pick, n, sid);
      case _ =>
    }
  }

  lemma LinkedRows(t: Tables, d: string)
    ensures forall cid :: cid in CustomersOf(t, d) <==> CustomerLink(t, cid) == Some(d)
    ensures forall sid :: sid in SubsOf(t, d) <==> SubLink(t, sid) == Some(d)
  {
  }

  lemma OneCustomer(t: Tables, e: Event, lk: Linker, pick: string, n: nat, d: string, cid: string)
    ensures NextCustomerLink(t, e, lk, pick, n, cid) == Some(d) ==> WillHaveRows(t, e, lk, pick, n, d)
    ensures cid in CustomersOf(t, d) && cid !in RelinkedCustomers(t, e, lk, pick, n)
            ==> NextCustomerLink(t, e, lk, pick, n, cid) == Some(d)
  {
    LinkedRows(t, d);
    hide EventMember, CustomerDiscord, CustomersOf, SubsOf, CustomerLink, SubLink;
  }

  lemma OneSub(t: Tables, e: Event, lk: Linker, pick: string, n: nat, d: string, sid: string)
    ensures NextSubLink(t, e, lk, pick, n, sid) == Some(d) ==> WillHaveRows(t, e, lk, pick, n, d)
    ensures sid in SubsOf(t, d) && sid !in RelinkedSubs(t, e, lk, pick, n)
            ==> NextSubLink(t, e, lk, pick, n, sid) == Some(d)
  {
    LinkedRows(t, d);
    hide EventMember, CustomerDiscord, CustomersOf, SubsOf, CustomerLink, SubLink;
  }

  lemma GivenRows(t: Tables, e: Event, lk: Linker, pick: string, n: nat, d: string)
    ensures n >= 1 && GivenLink(t, e, lk, pick) == Some(d)
            ==> NextCustomerLink(t, e, lk, pick, n, EventCustomer(e).value.id) == Some(d)
    ensures n >= 3 && EventSub(e).Some? && EventMember(t, e, lk, pick) == Some(d)
            ==> NextSubLink(t, e, lk, pick, n, EventSub(e).value.id) == Some(d)
  {
    hide EventMember, CustomerDiscord;
  }

  lemma RowsTraced(t: Tables, e: Event, lk: Linker, pick: string, n: nat, d: string)
    requires HasRows(PartialEvent(t, e, lk, pick, n), d)
    ensures WillHaveRows(t, e, lk, pick, n, d)
  {
    var u := PartialEvent(t, e, lk, pick, n);
    LinkedRows(u, d);
    hide PartialEvent, WillHaveRows, CustomersOf, SubsOf, CustomerLink, SubLink, NextCustomerLink, NextSubLink;
    if cid :| cid in CustomersOf(u, d) {
      LinksAfter(t, e, lk, pick, n, cid, "");
      OneCustomer(t, e, lk, pick, n, d, cid);
    } else {
      var sid :| sid in SubsOf(u, d);
      LinksAfter(t, e, lk, pick, n, "", sid);
      OneSub(t, e, lk, pick, n, d, sid);
    }
  }

  lemma RowsRemain(t: Tables, e: Event, lk: Linker, pick: string, n: nat, d: string)
    requires WillHaveRows(t, e, lk, pick, n, d)
    ensures HasRows(PartialEvent(t, e, lk, pick, n), d)
  {
    var u := PartialEvent(t, e, lk, pick, n);
    LinkedRows(u, d);
    GivenRows(t, e, lk, pick, n, d);
    assert GivenLink(t, e, lk, pick).Some? ==> EventCustomer(e).Some?;
    hide PartialEvent, EventMember, GivenLink, CustomersOf, SubsOf, CustomerLink, SubLink;
    hide NextCustomerLink, NextSubLink;
    if n >= 1 && GivenLink(t, e, lk, pick) == Some(d) {
      LinksAfter(t, e, lk, pick, n, EventCustomer(e).value.id, "");
      assert EventCustomer(e).value.id in CustomersOf(u, d);
    } else if n >= 3 && EventSub(e).Some? && EventMember(t, e, lk, pick) == Some(d) {
      LinksAfter(t, e, lk, pick, n, "", EventSub(e).value.id);
      assert EventSub(e).value.id in SubsOf(u, d);
    } else if cid :| cid in CustomersOf(t, d) && cid !in RelinkedCustomers(t, e, lk, pick, n) {
      OneCustomer(t, e, lk, pick, n, d, cid);
      LinksAfter(t, e, lk, pick, n, cid, "");
      assert cid in CustomersOf(u, d);
    } else {
      var sid :| sid in SubsOf(t, d) && sid !in RelinkedSubs(t, e, lk, pick, n);
      OneSub(t, e, lk, pick, n, d, sid);
      LinksAfter(t, e, lk, pick, n, "", sid);
      assert sid in SubsOf(u, d);
    }
  }

  /** After the writes some row is linked to `d` exactly when it was read off to be. */
  lemma RowsAfter(t: Tables, e: Event, lk: Linker, pick: string, n: nat, d: string)
    ensures HasRows(PartialEvent(t, e, lk, pick, n), d) <==> WillHaveRows(t, e, lk, pick, n, d)
  {
    hide PartialEvent, WillHaveRows, HasRows;
    if HasRows(PartialEvent(t, e, lk, pick, n), d) {
      RowsTraced(t, e, lk, pick, n, d);
    }
    if WillHaveRows(t, e, lk, pick, n, d) {
      RowsRemain(t, e, lk, pick, n, d);
    }
  }

  lemma OneActive(t: Tables, e: Event, lk: Linker, pick: string, n: nat, d: string, sid: string)
    requires sid in t.subs && Other(e, n, sid) && IsActive(t.subs[sid])
    ensures NextSubLink(t, e, lk, pick, n, sid) == Some(d) ==> WillHaveActive(t, e, lk, pick, n, d)
    ensures sid in SubsOf(t, d) ==> NextSubLink(t, e, lk, pick, n, sid) == Some(d)
  {
    LinkedRows(t, d);
    hide EventMember, CustomerDiscord, SubsOf, CustomersOf;
    if NextSubLink(t, e, lk, pick, n, sid) == Some(d) && sid in SubsOf(t, d) {
      assert OtherActive(t, e, n, d);
    }
  }

  /** The event's own row takes the resolved link, or keeps the stored one: a link spread from
      its customer has been resolved too. */
  lemma OwnRow(t: Tables, e: Event, lk: Linker, pick: string, n: nat)
    requires EventSub(e).Some? && n >= 3
    ensures var s := EventSub(e).value;
      var m := EventMember(t, e, lk, pick);
      NextSubLink(t, e, lk, pick, n, s.id) == m.OrElse(SubLink(t, s.id))
  {
    hide CustomerDiscord;
  }

  lemma ActiveTraced(t: Tables, e: Event, lk: Linker, pick: string, n: nat, d: string)
    requires HasActive(PartialEvent(t, e, lk, pick, n), d)
    ensures WillHaveActive(t, e, lk, pick, n, d)
  {
    var u := PartialEvent(t, e, lk, pick, n);
    LinkedRows(u, d);
    hide PartialEvent, EventMember, GivenLink, CustomersOf, SubsOf, NextSubLink, OtherActive, GainsActive;
    var sid :| sid in SubsOf(u, d) && IsActive(u.subs[sid]);
    LinksAfter(t, e, lk, pick, n, "", sid);
    if Other(e, n, sid) {
      OneActive(t, e, lk, pick, n, d, sid);
    } else {
      OwnRow(t, e, lk, pick, n);
    }
  }

  lemma ActiveRemains(t: Tables, e: Event, lk: Linker, pick: string, n: nat, d: string)
    requires WillHaveActive(t, e, lk, pick, n, d)
    ensures HasActive(PartialEvent(t, e, lk, pick, n), d)
  {
    var u := PartialEvent(t, e, lk, pick, n);
    LinkedRows(u, d);
    hide PartialEvent, EventMember, GivenLink, CustomersOf, SubsOf, NextSubLink;
    if OtherActive(t, e, n, d) {
      LinkedRows(t, d);
      var sid :| sid in SubsOf(t, d) && Other(e, n, sid) && IsActive(t.subs[sid]);
      LinksAfter(t, e, lk, pick, n, "", sid);
      OneActive(t, e, lk, pick, n, d, sid);
      assert sid in SubsOf(u, d);
    } else if GainsActive(t, e, lk, pick, n, d) {
      Gained(t, u, e, lk, pick, n, d);
    } else {
      var sid := EventSub(e).value.id;
      OwnRow(t, e, lk, pick, n);
      LinksAfter(t, e, lk, pick, n, "", sid);
      assert sid in SubsOf(u, d);
    }
  }

  /** After the writes an active subscription is linked to `d` exactly when it was read off
      to be. */
  lemma ActiveAfter(t: Tables, e: Event, lk: Linker, pick: string, n: nat, d: string)
    ensures HasActive(PartialEvent(t, e, lk, pick, n), d) <==> WillHaveActive(t, e, lk, pick, n, d)
  {
    hide PartialEvent, WillHaveActive, HasActive;
    if HasActive(PartialEvent(t, e, lk, pick, n), d) {
      ActiveTraced(t, e, lk, pick, n, d);
    }
    if WillHaveActive(t, e, lk, pick, n, d) {
      ActiveRemains(t, e, lk, pick, n, d);
    }
  }

  lemma Gained(t: Tables, u: Tables, e: Event, lk: Linker, pick: string, n: nat, d: string)
    requires u == PartialEvent(t, e, lk, pick, n) && GainsActive(t, e, lk, pick, n, d)
    ensures HasActive(u, d)
  {
    var sid :| sid in t.subs
      && t.subs[sid].discord.None? && t.subs[sid].customerId == Some(EventCustomer(e).value.id)
      && Other(e, n, sid) && IsActive(t.subs[sid]);
    LinksAfter(t, e, lk, pick, n, "", sid);
    LinkedRows(u, d);
    hide PartialEvent, EventMember, GivenLink;
    assert sid in SubsOf(u, d) && IsActive(u.subs[sid]);
  }
}
