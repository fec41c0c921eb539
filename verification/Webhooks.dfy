/** The webhook ingestor: deliveries are de-duplicated, applied to the mirror, and the
    one affected member's facts are recomputed. */
module Webhooks {
  import opened Wrappers
  import opened MemberFacts
  import opened Ingest

  /** `sub` and `customer` are None when the object does not parse (or names none). */
  datatype Event =
    | SubscriptionEvent(sub: Option<SubFields>)
    | CustomerEvent(customer: Option<CustomerFields>)
    | CustomerDeletedEvent(customerId: Option<string>, metadata: map<string, string>, customer: Option<CustomerFields>)
    | ChargeEvent(charged: Option<string>, amount: int, paid: bool, status: string)
    | CheckoutEvent(clientRef: Option<string>, sub: Option<SubFields>)
    | InvoiceEvent(sub: Option<SubFields>)
    | OtherEvent

  // ---- applying one event ----

  predicate IsChargeOf(e: Event, cid: string) {
    e.ChargeEvent? && e.charged == Some(cid) && e.paid && e.status == "succeeded"
  }

  function ApplySub(t: Tables, s: Option<SubFields>, lk: Linker, fallback: Option<string>, pick: string)
    : (Tables, Option<string>)
  {
    if s.Some? then UpsertSubscription(t, s.value, lk, fallback, pick) else (t, None)
  }

  function DeletedMember(t: Tables, e: Event, lk: Linker): Option<string>
    requires e.CustomerDeletedEvent?
  {
    (if e.customerId.Some? then CustomerLink(t, e.customerId.value) else None)
    .OrElse(ResolveFromMeta(e.metadata, lk))
  }

  /** The new tables, and the member whose facts are to be recomputed. */
  function ApplyEvent(t: Tables, e: Event, lk: Linker, pick: string): (Tables, Option<string>) {
    match e
    case SubscriptionEvent(s) => ApplySub(t, s, lk, None, pick)
    case CustomerEvent(c) =>
      if c.Some? then UpsertCustomer(t, c.value, lk, pick) else (t, None)
    case CustomerDeletedEvent(_, _, c) =>
      (if c.Some? then UpsertCustomer(t, c.value, lk, pick).0 else t, DeletedMember(t, e, lk))
    case ChargeEvent(charged, amount, _, _) =>
      if charged.Some? && IsChargeOf(e, charged.value)
      then (ApplyCharge(t, charged.value, amount), CustomerLink(t, charged.value))
      else (t, None)
    case CheckoutEvent(clientRef, s) => ApplySub(t, s, lk, clientRef, pick)
    case InvoiceEvent(s) => ApplySub(t, s, lk, None, pick)
    case OtherEvent => (t, None)
  }

  /** The tables when the event's statements fail after `n` writes. */
  function PartialEvent(t: Tables, e: Event, lk: Linker, pick: string, n: nat): Tables {
    match e
    case CustomerEvent(Some(c)) => PartialCustomer(t, c, lk, pick, n)
    case CustomerDeletedEvent(_, _, Some(c)) => PartialCustomer(t, c, lk, pick, n)
    case SubscriptionEvent(Some(s)) => PartialSubscription(t, s, lk, None, pick, n)
    case CheckoutEvent(clientRef, Some(s)) => PartialSubscription(t, s, lk, clientRef, pick, n)
    case InvoiceEvent(Some(s)) => PartialSubscription(t, s, lk, None, pick, n)
    case ChargeEvent(_, _, _, _) => if n == 0 then t else ApplyEvent(t, e, lk, pick).0
    case _ => t
  }

  /** No event makes more writes: two for a customer and two for a subscription. */
  const ALL_WRITES := 4

  /** From nothing written to all four writes. */
  lemma PartialBounds(t: Tables, e: Event, lk: Linker, pick: string, n: nat)
    ensures PartialEvent(t, e, lk, pick, 0) == t
    ensures n >= ALL_WRITES ==> PartialEvent(t, e, lk, pick, n) == ApplyEvent(t, e, lk, pick).0
  {
    hide UpsertCustomer, UpsertSubscription;
  }

  function EventSub(e: Event): Option<SubFields> {
    match e
    case SubscriptionEvent(s) => s
    case CheckoutEvent(_, s) => s
    case InvoiceEvent(s) => s
    case _ => None
  }

  /** The customer object an event carries, on its own or inside a subscription. */
  function EventCustomer(e: Event): Option<CustomerFields> {
    match e
    case CustomerEvent(c) => c
    case CustomerDeletedEvent(_, _, c) => c
    case _ => if EventSub(e).Some? then EventSub(e).value.customer else None
  }

  predicate PickForEvent(t: Tables, e: Event, lk: Linker, pick: string) {
    EventCustomer(e).Some? ==> PickFor(t, EventCustomer(e).value, lk, pick)
  }

  // ---- recomputing a member ----

  function CustomersOf(t: Tables, d: string): set<string> {
    set cid | cid in t.customers && t.customers[cid].discord == Some(d)
  }

  function SubsOf(t: Tables, d: string): set<string> {
    set sid | sid in t.subs && t.subs[sid].discord == Some(d)
  }

  /** `order` lists `ids`, each once: a fetch in some row order. */
  ghost predicate Enumerates(order: seq<string>, ids: set<string>) {
    && (forall i, j | 0 <= i < j < |order| :: order[i] != order[j])
    && (forall x :: x in order <==> x in ids)
  }

  function FetchCustomers(t: Tables, d: string, order: seq<string>): seq<CustomerRow>
    requires Enumerates(order, CustomersOf(t, d))
  {
    seq(|order|, i requires 0 <= i < |order| =>
      (assert order[i] in order; t.customers[order[i]]))
  }

  function FetchSubs(t: Tables, d: string, order: seq<string>): seq<SubRow>
    requires Enumerates(order, SubsOf(t, d))
  {
    seq(|order|, i requires 0 <= i < |order| =>
      (assert order[i] in order; t.subs[order[i]]))
  }

  /** What the environment chose: the row of a LIMIT 1 and the two fetch orders. */
  datatype Choice = Choice(pick: string, customerOrder: seq<string>, subOrder: seq<string>)

  ghost predicate OrdersOk(t: Tables, d: string, ch: Choice) {
    Enumerates(ch.customerOrder, CustomersOf(t, d)) && Enumerates(ch.subOrder, SubsOf(t, d))
  }

  function Recompute(t: Tables, facts: map<string, FactsRow>, d: string, ch: Choice): map<string, FactsRow>
    requires OrdersOk(t, d, ch)
  {
    if ch.customerOrder == [] && ch.subOrder == [] then facts - {d}
    else facts[d := Aggregate(FetchCustomers(t, d, ch.customerOrder), FetchSubs(t, d, ch.subOrder))]
  }

  // ---- one delivery ----

  /** Where a delivery can go wrong after its event id is logged. The key does not decrypt. The
      event's statements stop after some writes: `apply_event` fails and the log entry is
      deleted again, or it stays, because deleting it fails too or the handler dies. The
      recompute fails, the sync cannot be queued, or both, which is only logged. */
  datatype Fault =
    | NoFault
    | KeyFault
    | Aborted(writes: nat)
    | Stranded(writes: nat)
    | RecomputeFault(queued: bool)
    | EnqueueFault
  {
    /** Every statement of the event is made and its result acknowledged. */
    predicate Applies() { NoFault? || RecomputeFault? || EnqueueFault? }

    predicate Recomputes() { NoFault? || EnqueueFault? }

    predicate Queues() { NoFault? || (RecomputeFault? && queued) }

    /** The writes that are made. */
    function Writes(): nat {
      if Aborted? || Stranded? then writes else if KeyFault? then 0 else ALL_WRITES
    }
  }

  datatype Ledger = Ledger(
    tables: Tables, facts: map<string, FactsRow>, log: set<string>, syncs: seq<string>)

  ghost predicate ChoiceOk(g: Ledger, e: Event, lk: Linker, ch: Choice) {
    var (t, d) := ApplyEvent(g.tables, e, lk, ch.pick);
    PickForEvent(g.tables, e, lk, ch.pick) && (d.Some? ==> OrdersOk(t, d.value, ch))
  }

  function Deliver(g: Ledger, id: string, e: Event, fault: Fault, lk: Linker, ch: Choice): Ledger
    requires ChoiceOk(g, e, lk, ch)
  {
    if id in g.log then g
    else if fault == KeyFault then g.(log := g.log + {id})
    else if fault.Aborted? then g.(tables := PartialEvent(g.tables, e, lk, ch.pick, fault.writes))
    else if fault.Stranded? then
      g.(tables := PartialEvent(g.tables, e, lk, ch.pick, fault.writes), log := g.log + {id})
    else
      var (t, d) := ApplyEvent(g.tables, e, lk, ch.pick);
      if d.None? then Ledger(t, g.facts, g.log + {id}, g.syncs)
      else
        Ledger(t, if fault.Recomputes() then Recompute(t, g.facts, d.value, ch) else g.facts,
               g.log + {id}, if fault.Queues() then g.syncs + [d.value] else g.syncs)
  }

  /** The handler as the program runs it, over its own tables. */
  class Ingestor {
    const mirror: Mirror
    var facts: map<string, FactsRow>
    var log: set<string>
    var syncs: seq<string>

    ghost function Contents(): Ledger
      reads this, mirror
    {
      Ledger(mirror.Contents(), facts, log, syncs)
    }

    constructor ()
      ensures Contents() == Ledger(Tables(map[], map[]), map[], {}, []) && fresh(mirror)
    {
      mirror := new Mirror();
      facts, log, syncs := map[], {}, [];
    }

    method ApplySubscription(s: Option<SubFields>, lk: Linker, fallback: Option<string>)
      returns (d: Option<string>, ghost pick: string)
      modifies mirror
      ensures s.Some? && s.value.customer.Some?
              ==> PickFor(old(mirror.Contents()), s.value.customer.value, lk, pick)
      ensures (mirror.Contents(), d) == ApplySub(old(mirror.Contents()), s, lk, fallback, pick)
    {
      d, pick := None, "";
      if s.Some? {
        d, pick := mirror.UpsertSubscriptionRow(s.value, lk, fallback);
      }
    }

    method Apply(e: Event, lk: Linker) returns (d: Option<string>, ghost pick: string)
      modifies mirror
      ensures PickForEvent(old(mirror.Contents()), e, lk, pick)
      ensures (mirror.Contents(), d) == ApplyEvent(old(mirror.Contents()), e, lk, pick)
    {
      d, pick := None, "";
      match e {
        case SubscriptionEvent(s) => d, pick := ApplySubscription(s, lk, None);
        case CustomerEvent(c) =>
          if c.Some? {
            d, pick := mirror.UpsertCustomerRow(c.value, lk);
          }
        case CustomerDeletedEvent(cid, metadata, c) =>
          if cid.Some? && cid.value in mirror.customers {
            d := mirror.customers[cid.value].discord;
          }
          if d.None? {
            d := ResolveFromMeta(metadata, lk);
          }
          if c.Some? {
            var ignored;
            ignored, pick := mirror.UpsertCustomerRow(c.value, lk);
          }
        case ChargeEvent(charged, amount, paid, status) =>
          if charged.Some? && paid && status == "succeeded" {
            d := mirror.ApplySuccessfulCharge(charged.value, amount);
          }
        case CheckoutEvent(clientRef, s) => d, pick := ApplySubscription(s, lk, clientRef);
        case InvoiceEvent(s) => d, pick := ApplySubscription(s, lk, None);
        case OtherEvent =>
      }
    }

    /** The same, failing after `n` writes. */
    method ApplyPartly(e: Event, lk: Linker, n: nat) returns (ghost pick: string)
      modifies mirror
      ensures PickForEvent(old(mirror.Contents()), e, lk, pick)
      ensures mirror.Contents() == PartialEvent(old(mirror.Contents()), e, lk, pick, n)
    {
      hide PartialCustomer, PartialSubscription, PickFor;
      pick := "";
      match e {
        case SubscriptionEvent(Some(s)) => pick := mirror.UpsertSubscriptionPartly(s, lk, None, n);
        case CheckoutEvent(clientRef, Some(s)) => pick := mirror.UpsertSubscriptionPartly(s, lk, clientRef, n);
        case InvoiceEvent(Some(s)) => pick := mirror.UpsertSubscriptionPartly(s, lk, None, n);
        case CustomerEvent(Some(c)) => pick := mirror.UpsertCustomerPartly(c, lk, n);
        case CustomerDeletedEvent(_, _, Some(c)) => pick := mirror.UpsertCustomerPartly(c, lk, n);
        case ChargeEvent(charged, amount, paid, status) =>
          if n > 0 && charged.Some? && paid && status == "succeeded" {
            var d := mirror.ApplySuccessfulCharge(charged.value, amount);
          }
        case _ =>
      }
    }

    /** Fetch in an arbitrary row order. */
    method Fetch(ids: set<string>) returns (order: seq<string>)
      ensures Enumerates(order, ids)
    {
      order := [];
      var left := ids;
      while left != {}
        invariant left <= ids && Enumerates(order, ids - left)
        decreases |left|
      {
        var id :| id in left;
        left := left - {id};
        order := order + [id];
      }
    }

    method RecomputeMember(d: string, ghost pick: string) returns (ghost ch: Choice)
      modifies this`facts
      ensures OrdersOk(mirror.Contents(), d, ch) && ch.pick == pick
      ensures facts == Recompute(mirror.Contents(), old(facts), d, ch)
    {
      hide Aggregate;
      var customers, subs := mirror.customers, mirror.subs;
      var customerOrder := Fetch(set cid | cid in customers && customers[cid].discord == Some(d));
      var subOrder := Fetch(set sid | sid in subs && subs[sid].discord == Some(d));
      ch := Choice(pick, customerOrder, subOrder);
      if customerOrder == [] && subOrder == [] {
        facts := facts - {d};
        return;
      }
      assert forall i | 0 <= i < |customerOrder| :: customerOrder[i] in customerOrder;
      assert forall i | 0 <= i < |subOrder| :: subOrder[i] in subOrder;
      var cs := seq(|customerOrder|, i requires 0 <= i < |customerOrder| && customerOrder[i] in customers =>
        customers[customerOrder[i]]);
      var ss := seq(|subOrder|, i requires 0 <= i < |subOrder| && subOrder[i] in subs => subs[subOrder[i]]);
      assert cs == FetchCustomers(mirror.Contents(), d, customerOrder);
      assert ss == FetchSubs(mirror.Contents(), d, subOrder);
      facts := facts[d := Aggregate(cs, ss)];
    }

    /** One delivery, with the fault it meets; a failed apply is re-opened in the log,
        unless that fails as well. */
    method Handle(id: string, e: Event, fault: Fault, lk: Linker) returns (ghost ch: Choice)
      modifies this, mirror
      ensures ChoiceOk(old(Contents()), e, lk, ch)
      ensures Contents() == Deliver(old(Contents()), id, e, fault, lk, ch)
    {
      hide ApplyEvent, PartialEvent, PickForEvent, OrdersOk, Recompute;
      ghost var start := Contents();
      if id in log {
        ch := SomeChoice(start, e, lk);
        return;
      }
      log := log + {id};
      if fault == KeyFault {
        ch := SomeChoice(start, e, lk);
        return;
      }
      if fault.Aborted? || fault.Stranded? {
        ghost var pick := ApplyPartly(e, lk, fault.writes);
        if fault.Aborted? {
          log := log - {id};
        }
        var (t, d) := ApplyEvent(start.tables, e, lk, pick);
        ch := SomeOrders(t, d, pick);
        return;
      }
      var d;
      ghost var pick;
      d, pick := Apply(e, lk);
      ch := Choice(pick, [], []);
      if d.Some? {
        if fault.Recomputes() {
          ch := RecomputeMember(d.value, pick);
        } else {
          ch := SomeOrders(mirror.Contents(), d, pick);
        }
        if fault.Queues() {
          syncs := syncs + [d.value];
        }
      }
    }
  }

  /** Every finite set of rows can be listed. */
  lemma Listing(ids: set<string>) returns (order: seq<string>)
    ensures Enumerates(order, ids)
  {
    if ids == {} {
      order := [];
    } else {
      var id :| id in ids;
      order := Listing(ids - {id});
      order := order + [id];
    }
  }

  lemma SomeOrders(t: Tables, d: Option<string>, pick: string) returns (ch: Choice)
    ensures ch.pick == pick && (d.Some? ==> OrdersOk(t, d.value, ch))
  {
    ch := Choice(pick, [], []);
    if d.Some? {
      var cs := Listing(CustomersOf(t, d.value));
      var ss := Listing(SubsOf(t, d.value));
      ch := Choice(pick, cs, ss);
    }
  }

  /** The environment can always answer the lookups of a delivery. */
  lemma SomeChoice(g: Ledger, e: Event, lk: Linker) returns (ch: Choice)
    ensures ChoiceOk(g, e, lk, ch)
  {
    var pick := "";
    var c := EventCustomer(e);
    if c.Some? {
      if sid :| sid in g.tables.subs && LinkedSubOf(g.tables, c.value.id, sid) {
        pick := sid;
      }
    }
    assert PickForEvent(g.tables, e, lk, pick);
    hide ApplyEvent, OrdersOk, PickForEvent;
    var (t, d) := ApplyEvent(g.tables, e, lk, pick);
    ch := SomeOrders(t, d, pick);
  }
}
