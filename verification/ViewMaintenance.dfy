/** `stripe_member_facts` as an incrementally maintained view of the mirror. */
module ViewMaintenance {
  import opened Wrappers
  import opened MemberFacts
  import opened Ingest
  import opened Webhooks

  /** The facts row of `d` is the aggregate of the rows now linked to `d`, fetched in
      some order, and is absent exactly when there are none. */
  ghost predicate MemberExact(t: Tables, facts: map<string, FactsRow>, d: string) {
    if CustomersOf(t, d) == {} && SubsOf(t, d) == {} then d !in facts
    else
      && d in facts
      && exists cs: seq<string>, ss: seq<string> ::
           && Enumerates(cs, CustomersOf(t, d)) && Enumerates(ss, SubsOf(t, d))
           && facts[d] == Aggregate(FetchCustomers(t, d, cs), FetchSubs(t, d, ss))
  }

  ghost predicate ViewExact(t: Tables, facts: map<string, FactsRow>) {
    forall d: string :: MemberExact(t, facts, d)
  }

  /** The rows linked to `d` are the same before and after. */
  predicate SameFor(t: Tables, u: Tables, d: string) {
    && (forall cid | cid in t.customers && t.customers[cid].discord == Some(d) ::
          cid in u.customers && u.customers[cid] == t.customers[cid])
    && (forall cid | cid in u.customers && u.customers[cid].discord == Some(d) ::
          cid in t.customers && t.customers[cid] == u.customers[cid])
    && (forall sid | sid in t.subs && t.subs[sid].discord == Some(d) ::
          sid in u.subs && u.subs[sid] == t.subs[sid])
    && (forall sid | sid in u.subs && u.subs[sid].discord == Some(d) ::
          sid in t.subs && t.subs[sid] == u.subs[sid])
  }

  // ---- the guard on one event ----

  /** A row's link, if set, is the id the event resolves. */
  predicate Covered(link: Option<string>, r: Option<string>) {
    link.None? || link == r
  }

  /** Every row a customer upsert overwrites, and the link it gives, belong to `r`. */
  predicate CustomerGuard(t: Tables, c: CustomerFields, lk: Linker, pick: string, r: Option<string>) {
    Covered(CustomerLink(t, c.id), r) && (c.deleted || Covered(CustomerDiscord(t, c, lk, pick), r))
  }

  predicate SubGuard(t: Tables, s: SubFields, lk: Linker, fallback: Option<string>, pick: string) {
    var r := UpsertSubscription(t, s, lk, fallback, pick).1;
    && Covered(SubLink(t, s.id), r)
    && (s.customer.Some? ==> CustomerGuard(t, s.customer.value, lk, pick, r))
  }

  /** Read from the event and the stored rows before applying it: no stored link is
      changed to another id, and no linked row is written without resolving its id. */
  predicate EventGuard(t: Tables, e: Event, lk: Linker, pick: string) {
    match e
    case CustomerEvent(c) =>
      c.Some? ==> CustomerGuard(t, c.value, lk, pick, UpsertCustomer(t, c.value, lk, pick).1)
    case CustomerDeletedEvent(_, _, c) =>
      c.Some? ==> CustomerGuard(t, c.value, lk, pick, DeletedMember(t, e, lk))
    case SubscriptionEvent(s) => s.Some? ==> SubGuard(t, s.value, lk, None, pick)
    case CheckoutEvent(clientRef, s) => s.Some? ==> SubGuard(t, s.value, lk, clientRef, pick)
    case InvoiceEvent(s) => s.Some? ==> SubGuard(t, s.value, lk, None, pick)
    case _ => true
  }

  // ---- one step ----

  lemma CustomerStep(t: Tables, c: CustomerFields, lk: Linker, pick: string, r: Option<string>, d: string)
    requires CustomerGuard(t, c, lk, pick, r) && r != Some(d)
    ensures SameFor(t, UpsertCustomer(t, c, lk, pick).0, d)
  {
  }

  lemma SubscriptionStep(t: Tables, s: SubFields, lk: Linker, fallback: Option<string>, pick: string, d: string)
    requires SubGuard(t, s, lk, fallback, pick)
    requires UpsertSubscription(t, s, lk, fallback, pick).1 != Some(d)
    ensures SameFor(t, UpsertSubscription(t, s, lk, fallback, pick).0, d)
  {
    hide SubDiscord, UpsertCustomer, CustomerDiscord;
    var (t1, cd) := ExpandedCustomer(t, s, lk, pick);
    var r := SubDiscord(t1, s, lk, fallback, cd);
    if s.customer.Some? {
      CustomerStep(t, s.customer.value, lk, pick, r, d);
      SubsKeepLinks(t, s.customer.value, lk, pick, r, s.id);
    }
    OwnRows(t1, s, r, d);
  }

  /** After the expanded customer, the subscription's own link is still covered. */
  lemma SubsKeepLinks(t: Tables, c: CustomerFields, lk: Linker, pick: string, r: Option<string>, sid: string)
    requires CustomerGuard(t, c, lk, pick, r) && Covered(SubLink(t, sid), r)
    ensures Covered(SubLink(UpsertCustomer(t, c, lk, pick).0, sid), r)
  {
  }

  /** The subscription row and the back-fill touch only rows of `r`. */
  lemma OwnRows(t: Tables, s: SubFields, r: Option<string>, d: string)
    requires Covered(SubLink(t, s.id), r) && r != Some(d)
    ensures SameFor(t, Tables(BackFill(t.customers, s.customerId, r), t.subs[s.id := MergeSub(t, s, r)]), d)
  {
  }

  /** An event leaves alone every row linked to a member other than the returned one. */
  lemma EventStep(t: Tables, e: Event, lk: Linker, pick: string, d: string)
    requires EventGuard(t, e, lk, pick)
    requires ApplyEvent(t, e, lk, pick).1 != Some(d)
    ensures SameFor(t, ApplyEvent(t, e, lk, pick).0, d)
  {
    hide UpsertCustomer, UpsertSubscription, CustomerGuard, SubGuard;
    match e {
      case CustomerEvent(c) =>
        if c.Some? {
          CustomerStep(t, c.value, lk, pick, UpsertCustomer(t, c.value, lk, pick).1, d);
        }
      case CustomerDeletedEvent(_, _, c) =>
        if c.Some? {
          CustomerStep(t, c.value, lk, pick, DeletedMember(t, e, lk), d);
        }
      case SubscriptionEvent(s) =>
        if s.Some? {
          SubscriptionStep(t, s.value, lk, None, pick, d);
        }
      case CheckoutEvent(clientRef, s) =>
        if s.Some? {
          SubscriptionStep(t, s.value, lk, clientRef, pick, d);
        }
      case InvoiceEvent(s) =>
        if s.Some? {
          SubscriptionStep(t, s.value, lk, None, pick, d);
        }
      case _ =>
    }
  }

  // ---- an event that fails between its statements ----

  lemma PartialCustomerStep(t: Tables, c: CustomerFields, lk: Linker, pick: string, n: nat, r: Option<string>,
                            d: string)
    requires CustomerGuard(t, c, lk, pick, r) && r != Some(d)
    ensures SameFor(t, PartialCustomer(t, c, lk, pick, n), d)
  {
    CustomerStep(t, c, lk, pick, r, d);
    hide UpsertCustomer, CustomerDiscord;
  }

  lemma PartialSubscriptionStep(t: Tables, s: SubFields, lk: Linker, fallback: Option<string>, pick: string, n: nat,
                                d: string)
    requires SubGuard(t, s, lk, fallback, pick)
    requires UpsertSubscription(t, s, lk, fallback, pick).1 != Some(d)
    ensures SameFor(t, PartialSubscription(t, s, lk, fallback, pick, n), d)
  {
    hide SubDiscord, UpsertCustomer, CustomerDiscord, PartialCustomer;
    var (t1, cd) := ExpandedCustomer(t, s, lk, pick);
    var r := SubDiscord(t1, s, lk, fallback, cd);
    if n <= 2 && s.customer.Some? {
      PartialCustomerStep(t, s.customer.value, lk, pick, n, r, d);
    } else if n == 3 {
      if s.customer.Some? {
        CustomerStep(t, s.customer.value, lk, pick, r, d);
        SubsKeepLinks(t, s.customer.value, lk, pick, r, s.id);
      }
      OwnSub(t1, s, r, d);
    } else if n > 3 {
      SubscriptionStep(t, s, lk, fallback, pick, d);
    }
  }

  lemma OwnSub(t: Tables, s: SubFields, r: Option<string>, d: string)
    requires Covered(SubLink(t, s.id), r) && r != Some(d)
    ensures SameFor(t, t.(subs := t.subs[s.id := MergeSub(t, s, r)]), d)
  {
  }

  /** The same, wherever the event's statements stop. */
  lemma PartialStep(t: Tables, e: Event, lk: Linker, pick: string, n: nat, d: string)
    requires EventGuard(t, e, lk, pick)
    requires ApplyEvent(t, e, lk, pick).1 != Some(d)
    ensures SameFor(t, PartialEvent(t, e, lk, pick, n), d)
  {
    hide UpsertCustomer, UpsertSubscription, PartialCustomer, PartialSubscription, CustomerGuard, SubGuard;
    match e {
      case CustomerEvent(Some(c)) =>
        PartialCustomerStep(t, c, lk, pick, n, UpsertCustomer(t, c, lk, pick).1, d);
      case CustomerDeletedEvent(_, _, Some(c)) =>
        PartialCustomerStep(t, c, lk, pick, n, DeletedMember(t, e, lk), d);
      case SubscriptionEvent(Some(s)) => PartialSubscriptionStep(t, s, lk, None, pick, n, d);
      case CheckoutEvent(clientRef, Some(s)) => PartialSubscriptionStep(t, s, lk, clientRef, pick, n, d);
      case InvoiceEvent(Some(s)) => PartialSubscriptionStep(t, s, lk, None, pick, n, d);
      case _ =>
    }
  }

  lemma SameFetch(t: Tables, u: Tables, d: string, cs: seq<string>, ss: seq<string>)
    requires SameFor(t, u, d)
    requires Enumerates(cs, CustomersOf(t, d)) && Enumerates(ss, SubsOf(t, d))
    ensures CustomersOf(t, d) == CustomersOf(u, d) && SubsOf(t, d) == SubsOf(u, d)
    ensures FetchCustomers(t, d, cs) == FetchCustomers(u, d, cs)
    ensures FetchSubs(t, d, ss) == FetchSubs(u, d, ss)
  {
    assert forall i | 0 <= i < |cs| :: cs[i] in cs;
    assert forall i | 0 <= i < |ss| :: ss[i] in ss;
  }

  lemma SameForKeepsExact(t: Tables, u: Tables, facts: map<string, FactsRow>, after: map<string, FactsRow>, d: string)
    requires SameFor(t, u, d) && MemberExact(t, facts, d)
    requires (d in facts <==> d in after) && (d in facts ==> facts[d] == after[d])
    ensures MemberExact(u, after, d)
  {
    assert CustomersOf(t, d) == CustomersOf(u, d) && SubsOf(t, d) == SubsOf(u, d);
    hide Aggregate, SameFor, Enumerates, CustomersOf, SubsOf, FetchCustomers, FetchSubs;
    if d in facts {
      var cs, ss :| Enumerates(cs, CustomersOf(t, d)) && Enumerates(ss, SubsOf(t, d))
        && facts[d] == Aggregate(FetchCustomers(t, d, cs), FetchSubs(t, d, ss));
      SameFetch(t, u, d, cs, ss);
    }
  }

  lemma RecomputeIsExact(t: Tables, facts: map<string, FactsRow>, d: string, ch: Choice)
    requires OrdersOk(t, d, ch)
    ensures MemberExact(t, Recompute(t, facts, d, ch), d)
    ensures forall x :: x != d ==>
      (x in facts <==> x in Recompute(t, facts, d, ch))
      && (x in facts ==> facts[x] == Recompute(t, facts, d, ch)[x])
  {
    hide Aggregate;
    var cs, ss := ch.customerOrder, ch.subOrder;
    if cs == [] && ss == [] {
      assert CustomersOf(t, d) == {} && SubsOf(t, d) == {};
    } else {
      assert CustomersOf(t, d) != {} || SubsOf(t, d) != {} by {
        if cs != [] {
          assert cs[0] in cs;
        } else {
          assert ss[0] in ss;
        }
      }
    }
  }

  /** A delivery that writes, neither ignored as a duplicate nor stopped before. */
  predicate Effective(g: Ledger, id: string, fault: Fault) {
    id !in g.log && fault.Writes() > 0
  }

  /** Whether `d`'s facts row lags behind its rows after a delivery: recomputing `d` catches
      up; an event of `d` that writes and is not followed by a recompute falls behind. */
  predicate LagsAfter(g: Ledger, id: string, e: Event, fault: Fault, lk: Linker, pick: string, d: string, lags: bool) {
    if !Effective(g, id, fault) || ApplyEvent(g.tables, e, lk, pick).1 != Some(d) then lags else !fault.Recomputes()
  }

  /** Whatever goes wrong in a guarded delivery, a member whose row does not lag is exact. */
  lemma DeliveryKeepsMember(g: Ledger, id: string, e: Event, fault: Fault, lk: Linker, ch: Choice, d: string,
                            lags: bool)
    requires ChoiceOk(g, e, lk, ch) && (Effective(g, id, fault) ==> EventGuard(g.tables, e, lk, ch.pick))
    requires lags || MemberExact(g.tables, g.facts, d)
    ensures var h := Deliver(g, id, e, fault, lk, ch);
      LagsAfter(g, id, e, fault, lk, ch.pick, d, lags) || MemberExact(h.tables, h.facts, d)
  {
    PartialBounds(g.tables, e, lk, ch.pick, 0);
    PartialBounds(g.tables, e, lk, ch.pick, fault.Writes());
    if Effective(g, id, fault) {
      hide ApplyEvent, PartialEvent, EventGuard, Recompute, MemberExact, SameFor;
      var h := Deliver(g, id, e, fault, lk, ch);
      var (t, r) := ApplyEvent(g.tables, e, lk, ch.pick);
      if r != Some(d) {
        PartialStep(g.tables, e, lk, ch.pick, fault.Writes(), d);
        if r.Some? && fault.Recomputes() {
          RecomputeIsExact(t, g.facts, r.value, ch);
        }
        if !lags {
          SameForKeepsExact(g.tables, h.tables, g.facts, h.facts, d);
        }
      } else if fault.Recomputes() {
        RecomputeIsExact(t, g.facts, d, ch);
      }
    }
  }

  // ---- whole runs ----

  datatype Delivery = Delivery(id: string, event: Event, fault: Fault, choice: Choice)

  /** A run whose choices are real fetches and whose events pass the guard when they are
      delivered to effect; any delivery may meet any fault. */
  ghost predicate GuardedRun(g: Ledger, run: seq<Delivery>, lk: Linker)
    decreases |run|
  {
    run == [] ||
    var x := run[0];
    && ChoiceOk(g, x.event, lk, x.choice)
    && (Effective(g, x.id, x.fault) ==> EventGuard(g.tables, x.event, lk, x.choice.pick))
    && GuardedRun(Deliver(g, x.id, x.event, x.fault, lk, x.choice), run[1..], lk)
  }

  ghost function Run(g: Ledger, run: seq<Delivery>, lk: Linker): Ledger
    requires GuardedRun(g, run, lk)
    decreases |run|
  {
    if run == [] then g
    else
      var x := run[0];
      Run(Deliver(g, x.id, x.event, x.fault, lk, x.choice), run[1..], lk)
  }

  /** Whether `d`'s row lags at the end of the run. */
  ghost predicate Lags(g: Ledger, run: seq<Delivery>, lk: Linker, d: string, lags: bool)
    requires GuardedRun(g, run, lk)
    decreases |run|
  {
    if run == [] then lags
    else
      var x := run[0];
      Lags(Deliver(g, x.id, x.event, x.fault, lk, x.choice), run[1..], lk, d,
           LagsAfter(g, x.id, x.event, x.fault, lk, x.choice.pick, d, lags))
  }

  /** Over every guarded run, with duplicates, retries, undecryptable keys, applies that stop
      after any of their writes, re-opened or not, and recomputes that fail: every member's facts
      row is exact, unless an event of that member wrote and none of the member's events has
      been delivered in full since. */
  lemma {:induction false} RunKeepsMember(g: Ledger, run: seq<Delivery>, lk: Linker, d: string, lags: bool)
    requires GuardedRun(g, run, lk) && (lags || MemberExact(g.tables, g.facts, d))
    ensures var h := Run(g, run, lk); Lags(g, run, lk, d, lags) || MemberExact(h.tables, h.facts, d)
    decreases |run|
  {
    hide ChoiceOk, Deliver, EventGuard, MemberExact, LagsAfter;
    if run != [] {
      var x := run[0];
      DeliveryKeepsMember(g, x.id, x.event, x.fault, lk, x.choice, d, lags);
      RunKeepsMember(Deliver(g, x.id, x.event, x.fault, lk, x.choice), run[1..], lk, d,
                     LagsAfter(g, x.id, x.event, x.fault, lk, x.choice.pick, d, lags));
    }
  }

  /** Faults that leave the tables and the view as they were. */
  predicate Harmless(fault: Fault) {
    fault.Recomputes() || fault.Writes() == 0
  }

  lemma {:induction false} HarmlessNeverLags(g: Ledger, run: seq<Delivery>, lk: Linker, d: string)
    requires GuardedRun(g, run, lk) && forall x <- run :: Harmless(x.fault)
    ensures !Lags(g, run, lk, d, false)
    decreases |run|
  {
    hide ChoiceOk, Deliver, EventGuard, ApplyEvent;
    if run != [] {
      var x := run[0];
      assert x in run;
      HarmlessNeverLags(Deliver(g, x.id, x.event, x.fault, lk, x.choice), run[1..], lk, d);
    }
  }

  /** Hence when applies fail only before writing and recomputes succeed, recomputing only
      the returned member keeps every member's facts row exact. */
  lemma RunKeepsView(g: Ledger, run: seq<Delivery>, lk: Linker)
    requires GuardedRun(g, run, lk) && ViewExact(g.tables, g.facts) && forall x <- run :: Harmless(x.fault)
    ensures var h := Run(g, run, lk); ViewExact(h.tables, h.facts)
  {
    hide GuardedRun, Run, Lags, Harmless, MemberExact;
    var h := Run(g, run, lk);
    forall d: string
      ensures MemberExact(h.tables, h.facts, d)
    {
      assert MemberExact(g.tables, g.facts, d);
      HarmlessNeverLags(g, run, lk, d);
      RunKeepsMember(g, run, lk, d, false);
    }
  }
}
