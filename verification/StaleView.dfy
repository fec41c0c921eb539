/** Exactly when an event leaves a member's facts row wrong. Only the returned member is
    recomputed, so an event that moves links or statuses of another member leaves that
    member's old facts behind; so does an apply that stops half-way, or a recompute that fails. */
module StaleView {
  import opened Wrappers
  import opened Text
  import opened Seqs
  import opened MemberFacts
  import opened Ingest
  import opened Webhooks
  import opened EventLinks
  import opened ViewMaintenance
  import opened Charges
  import FactsProperties
  import MemberSpend

  lemma ActiveColumn(cs: seq<CustomerRow>, ss: seq<SubRow>)
    ensures Aggregate(cs, ss).facts.hasActiveSubscription <==> exists s <- ss :: IsActive(s)
  {
    FactsProperties.ActiveMembers(ss);
    if ActiveSubs(ss) != [] {
      assert ActiveSubs(ss)[0] in ActiveSubs(ss);
    }
  }

  /** An exact row says "active" exactly when some linked subscription is. */
  lemma ExactActive(t: Tables, facts: map<string, FactsRow>, d: string)
    requires MemberExact(t, facts, d)
    ensures d in facts ==> (facts[d].facts.hasActiveSubscription <==> HasActive(t, d))
  {
    hide Aggregate;
    if d !in facts {
      return;
    }
    var cs, ss :| Enumerates(cs, CustomersOf(t, d)) && Enumerates(ss, SubsOf(t, d))
      && facts[d] == Aggregate(FetchCustomers(t, d, cs), FetchSubs(t, d, ss));
    var rows := FetchSubs(t, d, ss);
    ActiveColumn(FetchCustomers(t, d, cs), rows);
    if sid :| sid in SubsOf(t, d) && IsActive(t.subs[sid]) {
      assert sid in ss;
      var i :| 0 <= i < |ss| && ss[i] == sid;
      assert rows[i] == t.subs[sid] && rows[i] in rows;
    }
    if row :| row in rows && IsActive(row) {
      var i :| 0 <= i < |rows| && rows[i] == row;
      assert ss[i] in ss;
    }
  }

  /** An exact view has a row exactly for the members that rows are linked to. */
  lemma ExactPresence(t: Tables, facts: map<string, FactsRow>, d: string)
    requires MemberExact(t, facts, d)
    ensures d in facts <==> HasRows(t, d)
  {
    hide Aggregate;
  }

  // ---- after one delivery ----

  /** The event names the member, and the recompute goes through. */
  predicate Refreshed(t: Tables, e: Event, lk: Linker, pick: string, fault: Fault, d: string) {
    fault.Recomputes() && EventMember(t, e, lk, pick) == Some(d)
  }

  /** What a delivery does to the facts of the returned member and of the others. */
  lemma DeliveredFacts(g: Ledger, id: string, e: Event, fault: Fault, lk: Linker, ch: Choice, d: string)
    requires id !in g.log && ChoiceOk(g, e, lk, ch)
    ensures var h := Deliver(g, id, e, fault, lk, ch);
      && h.tables == PartialEvent(g.tables, e, lk, ch.pick, fault.Writes())
      && (if Refreshed(g.tables, e, lk, ch.pick, fault, d) then MemberExact(h.tables, h.facts, d)
          else (d in h.facts <==> d in g.facts) && (d in g.facts ==> h.facts[d] == g.facts[d]))
  {
    ReturnsEventMember(g.tables, e, lk, ch.pick);
    PartialBounds(g.tables, e, lk, ch.pick, fault.Writes());
    hide ApplyEvent, PartialEvent, Recompute, MemberExact, OrdersOk, EventMember;
    var (u, r) := ApplyEvent(g.tables, e, lk, ch.pick);
    if r.Some? {
      RecomputeIsExact(u, g.facts, r.value, ch);
    }
  }

  /** For every event, every member and every fault: the member has a facts row exactly when
      rows are linked to it, if and only if the member is recomputed, or the writes that are
      made leave it with rows exactly when it had some. */
  lemma PresenceExactly(g: Ledger, id: string, e: Event, fault: Fault, lk: Linker, ch: Choice, d: string)
    requires MemberExact(g.tables, g.facts, d) && id !in g.log && ChoiceOk(g, e, lk, ch)
    ensures var h := Deliver(g, id, e, fault, lk, ch);
      (d in h.facts <==> HasRows(h.tables, d)) <==>
        Refreshed(g.tables, e, lk, ch.pick, fault, d)
        || WillHaveRows(g.tables, e, lk, ch.pick, fault.Writes(), d) == HasRows(g.tables, d)
  {
    hide ApplyEvent, PartialEvent, ChoiceOk, Deliver, MemberExact, HasRows, WillHaveRows, Refreshed;
    ExactPresence(g.tables, g.facts, d);
    DeliveredFacts(g, id, e, fault, lk, ch, d);
    RowsAfter(g.tables, e, lk, ch.pick, fault.Writes(), d);
    var h := Deliver(g, id, e, fault, lk, ch);
    if Refreshed(g.tables, e, lk, ch.pick, fault, d) {
      ExactPresence(h.tables, h.facts, d);
    }
  }

  /** For every event, every fault and every member with a facts row: the row says "active"
      exactly when a linked subscription is, if and only if the member is recomputed, or the
      writes that are made leave it with an active subscription exactly when it had one. */
  lemma ActivityExactly(g: Ledger, id: string, e: Event, fault: Fault, lk: Linker, ch: Choice, d: string)
    requires MemberExact(g.tables, g.facts, d) && id !in g.log && ChoiceOk(g, e, lk, ch)
    ensures var h := Deliver(g, id, e, fault, lk, ch);
      d in h.facts ==>
        ((h.facts[d].facts.hasActiveSubscription <==> HasActive(h.tables, d)) <==>
          Refreshed(g.tables, e, lk, ch.pick, fault, d)
          || WillHaveActive(g.tables, e, lk, ch.pick, fault.Writes(), d) == HasActive(g.tables, d))
  {
    hide ApplyEvent, PartialEvent, ChoiceOk, Deliver, MemberExact, HasActive, WillHaveActive, Refreshed;
    DeliveredFacts(g, id, e, fault, lk, ch, d);
    ActiveAfter(g.tables, e, lk, ch.pick, fault.Writes(), d);
    var h := Deliver(g, id, e, fault, lk, ch);
    if d in h.facts {
      if Refreshed(g.tables, e, lk, ch.pick, fault, d) {
        ExactActive(h.tables, h.facts, d);
      } else {
        ExactActive(g.tables, g.facts, d);
      }
    }
  }

  // ---- the conditions, event by event ----

  /** An update of a subscription without an expanded customer leaves the facts of its last
      row's old member behind, and those only. */
  lemma BareSubscriptionPresence(g: Ledger, id: string, s: SubFields, lk: Linker, ch: Choice, d: string)
    requires MemberExact(g.tables, g.facts, d) && id !in g.log && s.customer.None?
    requires ChoiceOk(g, SubscriptionEvent(Some(s)), lk, ch)
    ensures var h := Deliver(g, id, SubscriptionEvent(Some(s)), NoFault, lk, ch);
      var r := SubDiscord(g.tables, s, lk, None, None);
      (d in h.facts <==> HasRows(h.tables, d)) <==>
        !(r.Some? && r != Some(d) && CustomersOf(g.tables, d) == {} && SubsOf(g.tables, d) == {s.id})
  {
    var e := SubscriptionEvent(Some(s));
    hide ChoiceOk, Deliver, MemberExact, SubDiscord;
    PresenceExactly(g, id, e, NoFault, lk, ch, d);
    BareMember(g.tables, s, lk, ch.pick);
    hide EventMember;
  }

  /** A customer upsert does so to the member whose only row the customer was; a deletion
      likewise, unless the event names the member. */
  lemma CustomerPresence(g: Ledger, id: string, c: CustomerFields, lk: Linker, ch: Choice, d: string)
    requires MemberExact(g.tables, g.facts, d) && id !in g.log && !c.deleted
    requires ChoiceOk(g, CustomerEvent(Some(c)), lk, ch)
    ensures var h := Deliver(g, id, CustomerEvent(Some(c)), NoFault, lk, ch);
      var r := CustomerDiscord(g.tables, c, lk, ch.pick);
      (d in h.facts <==> HasRows(h.tables, d)) <==>
        !(r.Some? && r != Some(d) && CustomersOf(g.tables, d) == {c.id} && SubsOf(g.tables, d) == {})
  {
    hide ChoiceOk, Deliver, MemberExact, CustomerDiscord;
    PresenceExactly(g, id, CustomerEvent(Some(c)), NoFault, lk, ch, d);
    LastCustomer(g.tables, c.id, d);
    hide HasRows, CustomersOf, SubsOf;
  }

  /** All of a member's rows are the one customer. */
  lemma LastCustomer(t: Tables, cid: string, d: string)
    ensures HasRows(t, d) && CustomersOf(t, d) <= {cid} && SubsOf(t, d) <= {}
      <==> CustomersOf(t, d) == {cid} && SubsOf(t, d) == {}
    ensures HasRows(t, d) || (CustomersOf(t, d) <= {} && SubsOf(t, d) <= {})
  {
    hide CustomersOf, SubsOf;
  }

  lemma DeletionPresence(g: Ledger, id: string, cid: Option<string>, metadata: map<string, string>, c: CustomerFields,
                         lk: Linker, ch: Choice, d: string)
    requires MemberExact(g.tables, g.facts, d) && id !in g.log && c.deleted
    requires ChoiceOk(g, CustomerDeletedEvent(cid, metadata, Some(c)), lk, ch)
    ensures var e := CustomerDeletedEvent(cid, metadata, Some(c));
      var h := Deliver(g, id, e, NoFault, lk, ch);
      (d in h.facts <==> HasRows(h.tables, d)) <==>
        !(DeletedMember(g.tables, e, lk) != Some(d) && CustomersOf(g.tables, d) == {c.id} && SubsOf(g.tables, d) == {})
  {
    hide ChoiceOk, Deliver, MemberExact, DeletedMember;
    PresenceExactly(g, id, CustomerDeletedEvent(cid, metadata, Some(c)), NoFault, lk, ch, d);
    LastCustomer(g.tables, c.id, d);
    hide HasRows, CustomersOf, SubsOf;
  }

  /** An update that resolves no id keeps the link but recomputes nobody: the linked member's
      row stays right exactly when the status stays as active as it was or another linked
      subscription is active. */
  lemma UnresolvedActivity(g: Ledger, id: string, s: SubFields, lk: Linker, ch: Choice, d: string)
    requires MemberExact(g.tables, g.facts, d) && id !in g.log && s.customer.None?
    requires ChoiceOk(g, SubscriptionEvent(Some(s)), lk, ch)
    requires SubDiscord(g.tables, s, lk, None, None).None? && SubLink(g.tables, s.id) == Some(d)
    ensures var h := Deliver(g, id, SubscriptionEvent(Some(s)), NoFault, lk, ch);
      && d in h.facts
      && ((h.facts[d].facts.hasActiveSubscription <==> HasActive(h.tables, d)) <==>
            IsActive(g.tables.subs[s.id]) == (s.status == "active" || s.status == "trialing")
            || exists sid <- SubsOf(g.tables, d) :: sid != s.id && IsActive(g.tables.subs[sid]))
  {
    var e := SubscriptionEvent(Some(s));
    hide ChoiceOk, Deliver, MemberExact, SubDiscord, ApplyEvent;
    BareMember(g.tables, s, lk, ch.pick);
    UnresolvedStatuses(g.tables, s, lk, ch.pick, d);
    ActivityExactly(g, id, e, NoFault, lk, ch, d);
    ExactPresence(g.tables, g.facts, d);
    DeliveredFacts(g, id, e, NoFault, lk, ch, d);
    hide EventMember, HasActive, WillHaveActive, SubsOf;
  }

  /** So when a member's only active subscription ends that way, or the first one starts, the
      view is no longer exact. */
  lemma UnresolvedEndGoesStale(g: Ledger, id: string, s: SubFields, lk: Linker, ch: Choice, d: string)
    requires MemberExact(g.tables, g.facts, d) && id !in g.log && s.customer.None?
    requires ChoiceOk(g, SubscriptionEvent(Some(s)), lk, ch)
    requires SubDiscord(g.tables, s, lk, None, None).None? && SubLink(g.tables, s.id) == Some(d)
    requires IsActive(g.tables.subs[s.id]) != (s.status == "active" || s.status == "trialing")
    requires forall sid <- SubsOf(g.tables, d) :: sid == s.id || !IsActive(g.tables.subs[sid])
    ensures var h := Deliver(g, id, SubscriptionEvent(Some(s)), NoFault, lk, ch);
      !MemberExact(h.tables, h.facts, d)
  {
    hide ApplyEvent, MemberExact, Deliver, ChoiceOk, SubDiscord;
    UnresolvedActivity(g, id, s, lk, ch, d);
    var h := Deliver(g, id, SubscriptionEvent(Some(s)), NoFault, lk, ch);
    if MemberExact(h.tables, h.facts, d) {
      ExactActive(h.tables, h.facts, d);
    }
  }

  /** Without an expanded customer the member is resolved from the stored rows. */
  lemma BareMember(t: Tables, s: SubFields, lk: Linker, pick: string)
    requires s.customer.None?
    ensures EventMember(t, SubscriptionEvent(Some(s)), lk, pick) == SubDiscord(t, s, lk, None, None)
  {
    assert t.(customers := t.customers - {}) == t;
    hide SubDiscord;
  }

  lemma UnresolvedStatuses(t: Tables, s: SubFields, lk: Linker, pick: string, d: string)
    requires s.customer.None? && EventMember(t, SubscriptionEvent(Some(s)), lk, pick).None?
    requires SubLink(t, s.id) == Some(d)
    ensures var e := SubscriptionEvent(Some(s));
      var others := exists sid <- SubsOf(t, d) :: sid != s.id && IsActive(t.subs[sid]);
      && HasRows(t, d)
      && (HasActive(t, d) <==> IsActive(t.subs[s.id]) || others)
      && (WillHaveActive(t, e, lk, pick, ALL_WRITES, d) <==> s.status == "active" || s.status == "trialing" || others)
  {
    hide EventMember, CustomerDiscord;
    assert s.id in SubsOf(t, d);
  }

  // ---- a recompute that is missing ----

  /** Written without a recompute: the recompute fails, or the apply stops after a write. When
      the event stays logged nothing will make up for it. */
  predicate Unrefreshed(fault: Fault) {
    fault.Writes() > 0 && !fault.Recomputes()
  }

  /** A charge written without a recompute leaves the payer's row wrong, always, and every
      other member's exact. */
  lemma ChargeWithoutRecompute(g: Ledger, id: string, e: Event, cid: string, fault: Fault, lk: Linker, ch: Choice,
                               d: string)
    requires MemberExact(g.tables, g.facts, d) && id !in g.log && ChoiceOk(g, e, lk, ch)
    requires IsChargeOf(e, cid) && Unrefreshed(fault)
    ensures var h := Deliver(g, id, e, fault, lk, ch);
      MemberExact(h.tables, h.facts, d) <==> CustomerLink(g.tables, cid) != Some(d)
  {
    var h := Deliver(g, id, e, fault, lk, ch);
    assert h.tables == ApplyCharge(g.tables, cid, e.amount) && h.facts == g.facts;
    DeliveryKeepsMember(g, id, e, fault, lk, ch, d, false);
    hide Deliver, ChoiceOk, MemberExact;
    if CustomerLink(g.tables, cid) == Some(d) {
      ChargedSumsDiffer(g.tables, cid, e.amount, g.facts, d);
    }
  }

  lemma ChargedSumsDiffer(t: Tables, cid: string, amount: int, facts: map<string, FactsRow>, d: string)
    requires MemberExact(t, facts, d) && CustomerLink(t, cid) == Some(d)
    ensures !MemberExact(ApplyCharge(t, cid, amount), facts, d)
  {
    var u := ApplyCharge(t, cid, amount);
    assert cid in CustomersOf(t, d) && CustomersOf(u, d) == CustomersOf(t, d);
    OneMorePayment(t, u, cid, CustomersOf(t, d));
    ExactPresence(t, facts, d);
    hide MemberExact, ApplyCharge, CustomersOf;
    if MemberExact(u, facts, d) {
      MemberSpend.ExactSpend(t, facts, d);
      MemberSpend.ExactSpend(u, facts, d);
    }
  }

  lemma OneMorePayment(t: Tables, u: Tables, cid: string, cids: set<string>)
    requires cid in cids && Payments(u, cid) == Payments(t, cid) + 1
    requires forall x <- cids :: x != cid ==> Payments(u, x) == Payments(t, x)
    ensures SetSum(cids, MemberSpend.PaymentsBy(u)) == SetSum(cids, MemberSpend.PaymentsBy(t)) + 1
  {
    SetSumRemove(cids, MemberSpend.PaymentsBy(t), cid);
    SetSumRemove(cids, MemberSpend.PaymentsBy(u), cid);
    MemberSpend.SetSumSame(cids - {cid}, MemberSpend.PaymentsBy(t), MemberSpend.PaymentsBy(u));
  }

  /** Whatever the event, a guarded delivery without its recompute leaves every member exact that
      the event does not name. */
  lemma OthersStayExact(g: Ledger, id: string, e: Event, fault: Fault, lk: Linker, ch: Choice, d: string)
    requires ViewExact(g.tables, g.facts) && ChoiceOk(g, e, lk, ch) && EventGuard(g.tables, e, lk, ch.pick)
    requires Unrefreshed(fault) && EventMember(g.tables, e, lk, ch.pick) != Some(d)
    ensures var h := Deliver(g, id, e, fault, lk, ch); MemberExact(h.tables, h.facts, d)
  {
    assert MemberExact(g.tables, g.facts, d);
    ReturnsEventMember(g.tables, e, lk, ch.pick);
    hide Deliver, ChoiceOk, MemberExact, EventGuard, ApplyEvent, EventMember, ViewExact;
    DeliveryKeepsMember(g, id, e, fault, lk, ch, d, false);
  }

  // ---- a run that gets there ----

  const MEMBER := "12345"
  const BUYER := CustomerFields("cus", None, None, None, None, false, None, map[], false)
  const BOUGHT := SubFields("sub", Some("cus"), "active", None, None, 500, None, None, 1, 1, false,
                            None, None, None, None, map[], Some(BUYER))
  const ENDED := BOUGHT.(status := "canceled", customer := None)
  const EMPTY := Ledger(Tables(map[], map[]), map[], {}, [])

  const CHECKOUT := Delivery("evt_1", CheckoutEvent(Some(MEMBER), Some(BOUGHT)), NoFault,
                             Choice("", ["cus"], ["sub"]))
  const DELETED := Delivery("evt_2", CustomerDeletedEvent(Some("cus"), map[], Some(BUYER.(deleted := true))), NoFault,
                            Choice("", [], ["sub"]))

  const CUSTOMER_ROW := CustomerRow(Some(MEMBER), None, None, None, None, false, None, 0, 0)
  const SUB_ROW := SubRow(Some("cus"), Some(MEMBER), "active", None, None, 500, None, None, 1, 1, false,
                          None, None, None, None)

  lemma {:induction false} NoKeys(keys: seq<string>, lk: Linker)
    ensures FirstKey(map[], keys, lk) == None
  {
    if keys != [] {
      NoKeys(keys[1..], lk);
    }
  }

  lemma MemberNormalizes(lk: Linker)
    ensures NormalizeDiscordId(MEMBER, lk) == Some(MEMBER)
  {
    TrimClean(MEMBER);
  }

  lemma CheckoutApplied(lk: Linker)
    ensures ApplyEvent(EMPTY.tables, CHECKOUT.event, lk, "")
         == (Tables(map["cus" := CUSTOMER_ROW], map["sub" := SUB_ROW]), Some(MEMBER))
    ensures EventGuard(EMPTY.tables, CHECKOUT.event, lk, "")
  {
    hide FirstKey, NormalizeDiscordId;
    NoKeys([lk.key, "discord_user_id", "discord_id", "discordId", "discord"], lk);
    MemberNormalizes(lk);
    var t1 := Tables(map["cus" := CUSTOMER_ROW.(discord := None)], map[]);
    assert LinkSubs(map[], "cus", None) == map[];
    assert ExpandedCustomer(EMPTY.tables, BOUGHT, lk, "") == (t1, None);
    assert BackFill(t1.customers, Some("cus"), Some(MEMBER)) == map["cus" := CUSTOMER_ROW];
  }

  lemma DeletionApplied(lk: Linker)
    ensures var t := Tables(map["cus" := CUSTOMER_ROW], map["sub" := SUB_ROW]);
      && ApplyEvent(t, DELETED.event, lk, "") == (Tables(map[], map["sub" := SUB_ROW]), Some(MEMBER))
      && EventGuard(t, DELETED.event, lk, "")
  {
    assert map["cus" := CUSTOMER_ROW] - {"cus"} == map[];
  }

  lemma EndResolvesNothing(lk: Linker)
    ensures ApplyEvent(ORPHANED, SubscriptionEvent(Some(ENDED)), lk, "").1 == None
    ensures SubDiscord(ORPHANED, ENDED, lk, None, None) == None
  {
    hide FirstKey;
    NoKeys([lk.key, "discord_user_id", "discord_id", "discordId", "discord"], lk);
  }

  const LINKED := Tables(map["cus" := CUSTOMER_ROW], map["sub" := SUB_ROW])
  const ORPHANED := Tables(map[], map["sub" := SUB_ROW])

  lemma Delivered(g: Ledger, x: Delivery, lk: Linker, t: Tables, d: string)
    requires x.id !in g.log && x.fault == NoFault && PickForEvent(g.tables, x.event, lk, x.choice.pick)
    requires ApplyEvent(g.tables, x.event, lk, x.choice.pick) == (t, Some(d)) && OrdersOk(t, d, x.choice)
    ensures ChoiceOk(g, x.event, lk, x.choice)
    ensures var h := Deliver(g, x.id, x.event, x.fault, lk, x.choice);
      h.tables == t && h.log == g.log + {x.id}
  {
    hide ApplyEvent, PickForEvent, Recompute;
  }

  lemma Environment(lk: Linker)
    ensures OrdersOk(LINKED, MEMBER, CHECKOUT.choice) && OrdersOk(ORPHANED, MEMBER, DELETED.choice)
    ensures PickForEvent(EMPTY.tables, CHECKOUT.event, lk, "")
    ensures PickForEvent(LINKED, DELETED.event, lk, "")
  {
    assert CustomersOf(LINKED, MEMBER) == {"cus"} && SubsOf(LINKED, MEMBER) == {"sub"};
    assert CustomersOf(ORPHANED, MEMBER) == {} && SubsOf(ORPHANED, MEMBER) == {"sub"};
  }

  lemma FirstTwo(lk: Linker)
    ensures GuardedRun(EMPTY, [CHECKOUT, DELETED], lk)
    ensures var g := Run(EMPTY, [CHECKOUT, DELETED], lk);
      g.tables == ORPHANED && g.log == {"evt_1", "evt_2"}
  {
    CheckoutApplied(lk);
    DeletionApplied(lk);
    Environment(lk);
    hide ApplyEvent, EventGuard, PickForEvent, ChoiceOk, Deliver, OrdersOk;
    Delivered(EMPTY, CHECKOUT, lk, LINKED, MEMBER);
    var g1 := Deliver(EMPTY, "evt_1", CHECKOUT.event, NoFault, lk, CHECKOUT.choice);
    Delivered(g1, DELETED, lk, ORPHANED, MEMBER);
    assert [CHECKOUT, DELETED][1..] == [DELETED] && [DELETED][1..] == [];
    var g2 := Deliver(g1, "evt_2", DELETED.event, NoFault, lk, DELETED.choice);
    assert GuardedRun(g2, [], lk) && Run(g2, [], lk) == g2;
    assert GuardedRun(g1, [DELETED], lk) && Run(g1, [DELETED], lk) == g2;
    assert Run(EMPTY, [CHECKOUT, DELETED], lk) == g2;
    assert g2.log == {"evt_1"} + {"evt_2"};
  }

  /** Checkout links the customer and the subscription; the customer is deleted; then the
      subscription ends. The first two deliveries keep the view exact, the third does not:
      the fallback to the stored subscription row is announced but not made. */
  lemma CancellationAfterDeletionGoesStale(lk: Linker)
    ensures GuardedRun(EMPTY, [CHECKOUT, DELETED], lk)
    ensures var g := Run(EMPTY, [CHECKOUT, DELETED], lk);
      && ViewExact(g.tables, g.facts)
      && ChoiceOk(g, SubscriptionEvent(Some(ENDED)), lk, Choice("", [], []))
      && var h := Deliver(g, "evt_3", SubscriptionEvent(Some(ENDED)), NoFault, lk, Choice("", [], []));
         !MemberExact(h.tables, h.facts, MEMBER)
  {
    FirstTwo(lk);
    EndResolvesNothing(lk);
    EmptyIsExact();
    RunKeepsView(EMPTY, [CHECKOUT, DELETED], lk);
    var g := Run(EMPTY, [CHECKOUT, DELETED], lk);
    assert SubsOf(ORPHANED, MEMBER) == {"sub"};
    hide ApplyEvent, GuardedRun, Run, ViewExact, MemberExact, Deliver, ChoiceOk, SubDiscord;
    UnresolvedEndGoesStale(g, "evt_3", ENDED, lk, Choice("", [], []), MEMBER);
  }

  lemma EmptyIsExact()
    ensures ViewExact(EMPTY.tables, EMPTY.facts)
  {
    forall d: string
      ensures MemberExact(EMPTY.tables, EMPTY.facts, d)
    {
      assert CustomersOf(EMPTY.tables, d) == {} && SubsOf(EMPTY.tables, d) == {};
    }
  }
}
