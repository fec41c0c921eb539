/** An apply that aborts after some of its writes is re-opened and delivered again. When the
    second delivery brings the facts view back, and the one kind of event for which it
    may not. */
module Redelivery {
  import opened Wrappers
  import opened MemberFacts
  import opened Ingest
  import opened Webhooks
  import opened EventLinks
  import opened ViewMaintenance

  /** A deletion whose own metadata does not name the member that the stored row names: once
      the row is gone, so is the member. */
  predicate ForgetsMember(t: Tables, e: Event, lk: Linker) {
    && e.CustomerDeletedEvent? && DeletesCustomer(e)
    && e.customerId == Some(EventCustomer(e).value.id)
    && CustomerLink(t, EventCustomer(e).value.id).Some?
    && ResolveFromMeta(e.metadata, lk) != CustomerLink(t, EventCustomer(e).value.id)
  }

  // ---- the member the second delivery returns ----

  lemma CustomerRetry(t: Tables, c: CustomerFields, lk: Linker, pick: string, n: nat, r: string)
    requires !c.deleted && n > 0
    requires CustomerDiscord(t, c, lk, pick) == Some(r)
    ensures CustomerLink(PartialCustomer(t, c, lk, pick, n), c.id) == Some(r)
  {
    hide CustomerDiscord;
  }

  /** Nothing changes for a customer that resolves no id: the retry resolves none either. */
  lemma UnlinkedRetry(t: Tables, c: CustomerFields, lk: Linker, pick: string, n: nat, again: string)
    requires !c.deleted && PickFor(t, c, lk, pick) && CustomerDiscord(t, c, lk, pick).None?
    ensures var u := PartialCustomer(t, c, lk, pick, n);
      && u.subs == t.subs && (forall cid :: CustomerLink(u, cid) == CustomerLink(t, cid))
      && CustomerDiscord(u, c, lk, again).None?
  {
    var u := PartialCustomer(t, c, lk, pick, n);
    hide ResolveFromMeta;
    assert u.subs == t.subs;
    assert forall sid :: !LinkedSubOf(t, c.id, sid);
  }

  lemma SubscriptionRetry(t: Tables, s: SubFields, lk: Linker, fallback: Option<string>, pick: string, n: nat,
                          again: string, r: string)
    requires n > 0 && SubGuard(t, s, lk, fallback, pick) && UpsertSubscription(t, s, lk, fallback, pick).1 == Some(r)
    requires s.customer.Some? ==> PickFor(t, s.customer.value, lk, pick)
    requires SubGuard(PartialSubscription(t, s, lk, fallback, pick, n), s, lk, fallback, again)
    ensures UpsertSubscription(PartialSubscription(t, s, lk, fallback, pick, n), s, lk, fallback, again).1 == Some(r)
  {
    var u := PartialSubscription(t, s, lk, fallback, pick, n);
    if n >= 3 {
      hide ExpandedCustomer, SubDiscord, BackFill, CustomerGuard;
      assert SubLink(u, s.id) == Some(r);
    } else {
      EarlyRetry(t, s, lk, fallback, pick, n, again, r);
    }
  }

  /** The apply aborted among the writes of the expanded customer. */
  lemma EarlyRetry(t: Tables, s: SubFields, lk: Linker, fallback: Option<string>, pick: string, n: nat, again: string,
                   r: string)
    requires 0 < n <= 2 && SubGuard(t, s, lk, fallback, pick)
    requires UpsertSubscription(t, s, lk, fallback, pick).1 == Some(r)
    requires s.customer.Some? ==> PickFor(t, s.customer.value, lk, pick)
    requires SubGuard(PartialSubscription(t, s, lk, fallback, pick, n), s, lk, fallback, again)
    ensures UpsertSubscription(PartialSubscription(t, s, lk, fallback, pick, n), s, lk, fallback, again).1 == Some(r)
  {
    var u := PartialSubscription(t, s, lk, fallback, pick, n);
    hide ResolveFromMeta, NormalizeDiscordId, LinkSubs, MergeSub, BackFill;
    if s.customer.Some? {
      var c := s.customer.value;
      if c.deleted {
        assert UpsertCustomer(u, c, lk, again).0.customers == UpsertCustomer(t, c, lk, pick).0.customers;
      } else if CustomerDiscord(t, c, lk, pick).Some? {
        CustomerRetry(t, c, lk, pick, n, CustomerDiscord(t, c, lk, pick).value);
      } else {
        UnlinkedRetry(t, c, lk, pick, n, again);
        if s.customerId.Some? {
          CustomerRowsAfter(t, c, lk, pick, 2, s.customerId.value);
          CustomerRowsAfter(u, c, lk, again, 2, s.customerId.value);
        }
      }
    }
  }

  lemma DeletionRetry(t: Tables, e: Event, lk: Linker, pick: string, n: nat, r: string)
    requires n > 0 && e.CustomerDeletedEvent? && DeletedMember(t, e, lk) == Some(r)
    requires EventGuard(t, e, lk, pick)
    ensures DeletedMember(PartialEvent(t, e, lk, pick, n), e, lk) == Some(r) <==> !ForgetsMember(t, e, lk)
  {
    hide ResolveFromMeta, CustomerDiscord;
  }

  /** A guarded event that aborted after a write returns the same member when delivered
      again, unless it is a deletion that has forgotten the member. */
  lemma RetryReturns(t: Tables, e: Event, lk: Linker, pick: string, n: nat, again: string)
    requires n > 0 && EventGuard(t, e, lk, pick) && PickForEvent(t, e, lk, pick)
    requires ApplyEvent(t, e, lk, pick).1.Some?
    requires EventGuard(PartialEvent(t, e, lk, pick, n), e, lk, again)
    ensures ApplyEvent(PartialEvent(t, e, lk, pick, n), e, lk, again).1 == ApplyEvent(t, e, lk, pick).1
      <==> !ForgetsMember(t, e, lk)
  {
    var r := ApplyEvent(t, e, lk, pick).1.value;
    hide PartialSubscription, SubGuard, UpsertSubscription, ResolveFromMeta, CustomerDiscord;
    match e {
      case SubscriptionEvent(Some(s)) => SubscriptionRetry(t, s, lk, None, pick, n, again, r);
      case CheckoutEvent(clientRef, Some(s)) => SubscriptionRetry(t, s, lk, clientRef, pick, n, again, r);
      case InvoiceEvent(Some(s)) => SubscriptionRetry(t, s, lk, None, pick, n, again, r);
      case CustomerEvent(Some(c)) => CustomerRetry(t, c, lk, pick, n, r);
      case CustomerDeletedEvent(_, _, _) => DeletionRetry(t, e, lk, pick, n, r);
      case _ =>
    }
  }

  // ---- the view after the second delivery ----

  ghost predicate Retry(g: Ledger, id: string, e: Event, n: nat, lk: Linker, first: Choice, second: Choice) {
    && id !in g.log && n > 0 && ChoiceOk(g, e, lk, first) && EventGuard(g.tables, e, lk, first.pick)
    && var h := Deliver(g, id, e, Aborted(n), lk, first);
       ChoiceOk(h, e, lk, second) && EventGuard(h.tables, e, lk, second.pick)
  }

  ghost function Retried(g: Ledger, id: string, e: Event, n: nat, lk: Linker, first: Choice, second: Choice): Ledger
    requires Retry(g, id, e, n, lk, first, second)
  {
    Deliver(Deliver(g, id, e, Aborted(n), lk, first), id, e, NoFault, lk, second)
  }

  /** From an exact view, an event that aborts after any of its writes and is then delivered
      in full leaves every member exact, except the one that a deletion has forgotten. */
  lemma RetryRestoresMember(g: Ledger, id: string, e: Event, n: nat, lk: Linker, first: Choice, second: Choice,
                            d: string)
    requires Retry(g, id, e, n, lk, first, second) && MemberExact(g.tables, g.facts, d)
    requires ForgetsMember(g.tables, e, lk) ==> CustomerLink(g.tables, EventCustomer(e).value.id) != Some(d)
    ensures var k := Retried(g, id, e, n, lk, first, second); MemberExact(k.tables, k.facts, d)
  {
    var h := Deliver(g, id, e, Aborted(n), lk, first);
    var r := ApplyEvent(g.tables, e, lk, first.pick).1;
    assert id !in h.log && PickForEvent(g.tables, e, lk, first.pick);
    assert h.tables == PartialEvent(g.tables, e, lk, first.pick, n);
    assert ForgetsMember(g.tables, e, lk) ==> r == CustomerLink(g.tables, EventCustomer(e).value.id);
    hide ApplyEvent, PartialEvent, EventGuard, PickForEvent, ChoiceOk, Deliver, MemberExact, ForgetsMember;
    if r.Some? {
      RetryReturns(g.tables, e, lk, first.pick, n, second.pick);
    }
    DeliveryKeepsMember(g, id, e, Aborted(n), lk, first, d, false);
    DeliveryKeepsMember(h, id, e, NoFault, lk, second, d, r == Some(d));
  }

  /** The deletion removes the row the first time, and changes nothing the second. */
  lemma DeletedTwice(t: Tables, e: Event, lk: Linker, pick: string, n: nat, again: string, d: string)
    requires n > 0 && ForgetsMember(t, e, lk) && CustomerLink(t, EventCustomer(e).value.id) == Some(d)
    ensures var cid := EventCustomer(e).value.id;
      var u := PartialEvent(t, e, lk, pick, n);
      && ApplyEvent(u, e, lk, again) == (u, ResolveFromMeta(e.metadata, lk))
      && cid in CustomersOf(t, d) && CustomersOf(u, d) == CustomersOf(t, d) - {cid} && SubsOf(u, d) == SubsOf(t, d)
  {
    hide ResolveFromMeta;
    var cid := EventCustomer(e).value.id;
    assert PartialEvent(t, e, lk, pick, n) == t.(customers := t.customers - {cid});
    assert t.customers - {cid} - {cid} == t.customers - {cid};
  }

  /** The forgotten member's row is never recomputed: it stays right about the member's having
      rows exactly when the deleted customer was not its last one. */
  lemma ForgottenMember(g: Ledger, id: string, e: Event, n: nat, lk: Linker, first: Choice, second: Choice, d: string)
    requires Retry(g, id, e, n, lk, first, second) && MemberExact(g.tables, g.facts, d)
    requires ForgetsMember(g.tables, e, lk) && CustomerLink(g.tables, EventCustomer(e).value.id) == Some(d)
    ensures var k := Retried(g, id, e, n, lk, first, second);
      && d in k.facts && k.facts[d] == g.facts[d]
      && (HasRows(k.tables, d) <==>
            CustomersOf(g.tables, d) != {EventCustomer(e).value.id} || SubsOf(g.tables, d) != {})
  {
    hide ApplyEvent, PartialEvent, EventGuard, PickForEvent, Aggregate, OrdersOk, Recompute;
    var h := Deliver(g, id, e, Aborted(n), lk, first);
    DeletedTwice(g.tables, e, lk, first.pick, n, second.pick, d);
    assert d in g.facts && ResolveFromMeta(e.metadata, lk) != Some(d);
    hide MemberExact, ForgetsMember, CustomersOf, SubsOf, ResolveFromMeta;
    var r := ApplyEvent(h.tables, e, lk, second.pick).1;
    if r.Some? {
      RecomputeIsExact(h.tables, h.facts, r.value, second);
    }
  }
}
