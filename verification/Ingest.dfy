/** The mirror of one Stripe account: customer and subscription rows, the Discord
    links that spread between them, and the steps that upsert them. */
module Ingest {
  import opened Wrappers
  import opened Text
  import opened MemberFacts

  // ---- resolving a link ----

  /** The account's metadata key, and the regex engine's `\d` class. */
  datatype Linker = Linker(key: string, isDecimal: char -> bool)

  /** The leading decimal run, cut at `max`. */
  function DecimalRun(t: string, max: nat, lk: Linker): (n: nat)
    ensures n <= |t| && n <= max
  {
    if max == 0 || t == [] || !lk.isDecimal(t[0]) then 0 else 1 + DecimalRun(t[1..], max - 1, lk)
  }

  /** The leftmost match of `\d{15,25}`. */
  function FindRun(t: string, lk: Linker): Option<string> {
    if t == [] then None
    else if DecimalRun(t, 25, lk) >= 15 then Some(t[..DecimalRun(t, 25, lk)])
    else FindRun(t[1..], lk)
  }

  function NormalizeDiscordId(raw: string, lk: Linker): Option<string> {
    var t := Trim(raw);
    if t == [] then None
    else if 5 <= |t| <= 25 && forall c <- t :: IsDigit(c) then Some(t)
    else FindRun(t, lk)
  }

  /** The regex engine's digits include the ASCII ones and no white space. */
  ghost predicate DecimalClass(lk: Linker) {
    forall c: char :: (IsDigit(c) ==> lk.isDecimal(c)) && (lk.isDecimal(c) ==> !IsWhite(c))
  }

  predicate DecimalText(t: string, lk: Linker) {
    forall c <- t :: lk.isDecimal(c)
  }

  lemma {:induction false} RunIsDecimal(t: string, max: nat, lk: Linker)
    ensures DecimalText(t[..DecimalRun(t, max, lk)], lk)
    ensures DecimalText(t, lk) && |t| <= max ==> DecimalRun(t, max, lk) == |t|
  {
    var n := DecimalRun(t, max, lk);
    if n > 0 {
      RunIsDecimal(t[1..], max - 1, lk);
      assert t[..n] == [t[0]] + t[1..][..n - 1];
      assert forall c <- t[1..] :: c in t;
    } else if t != [] {
      assert t[0] in t;
    }
  }

  lemma {:induction false} FoundRun(t: string, lk: Linker)
    ensures FindRun(t, lk).Some? ==> 15 <= |FindRun(t, lk).value| <= 25 && DecimalText(FindRun(t, lk).value, lk)
  {
    RunIsDecimal(t, 25, lk);
    if t != [] {
      FoundRun(t[1..], lk);
    }
  }

  /** A resolved id is 5 to 25 decimal digits, and resolving it again gives it back. */
  lemma ResolvedIdsAreStable(raw: string, lk: Linker)
    requires DecimalClass(lk)
    ensures var r := NormalizeDiscordId(raw, lk);
      r.Some? ==>
        5 <= |r.value| <= 25 && DecimalText(r.value, lk) && NormalizeDiscordId(r.value, lk) == r
  {
    var r := NormalizeDiscordId(raw, lk);
    FoundRun(Trim(raw), lk);
    if r.Some? {
      var id := r.value;
      assert id[0] in id && id[|id| - 1] in id;
      TrimClean(id);
      RunIsDecimal(id, 25, lk);
      assert id[..|id|] == id;
    }
  }

  function FirstKey(meta: map<string, string>, keys: seq<string>, lk: Linker): Option<string> {
    if keys == [] then None
    else
      var id := if keys[0] in meta then NormalizeDiscordId(meta[keys[0]], lk) else None;
      id.OrElse(FirstKey(meta, keys[1..], lk))
  }

  function ResolveFromMeta(meta: map<string, string>, lk: Linker): Option<string> {
    FirstKey(meta, [lk.key, "discord_user_id", "discord_id", "discordId", "discord"], lk)
  }

  // ---- incoming objects and the two tables ----

  datatype CustomerFields = CustomerFields(
    id: string, email: Option<string>, name: Option<string>, country: Option<string>,
    currency: Option<string>, delinquent: bool, createdAt: Option<int>,
    metadata: map<string, string>, deleted: bool)

  datatype SubFields = SubFields(
    id: string, customerId: Option<string>, status: string,
    priceId: Option<string>, productId: Option<string>, unitAmount: int,
    currency: Option<string>, interval: Option<string>, intervalCount: int, quantity: int,
    cancelAtPeriodEnd: bool, periodEnd: Option<int>, trialEnd: Option<int>,
    startedAt: Option<int>, createdAt: Option<int>,
    metadata: map<string, string>, customer: Option<CustomerFields>)

  datatype Tables = Tables(customers: map<string, CustomerRow>, subs: map<string, SubRow>)

  function CustomerLink(t: Tables, cid: string): Option<string> {
    if cid in t.customers then t.customers[cid].discord else None
  }

  function SubLink(t: Tables, sid: string): Option<string> {
    if sid in t.subs then t.subs[sid].discord else None
  }

  predicate LinkedSubOf(t: Tables, cid: string, sid: string) {
    sid in t.subs && t.subs[sid].customerId == Some(cid) && t.subs[sid].discord.Some?
  }

  /** `pick` is the row that an unordered `LIMIT 1` returned. */
  predicate PickOk(t: Tables, cid: string, pick: string) {
    (exists sid <- t.subs :: LinkedSubOf(t, cid, sid)) ==> LinkedSubOf(t, cid, pick)
  }

  /** The pick matters only when the customer carries no id of its own. */
  predicate PickFor(t: Tables, c: CustomerFields, lk: Linker, pick: string) {
    !c.deleted && ResolveFromMeta(c.metadata, lk).None? ==> PickOk(t, c.id, pick)
  }

  function InheritedLink(t: Tables, cid: string, pick: string): Option<string> {
    if LinkedSubOf(t, cid, pick) then t.subs[pick].discord else None
  }

  // ---- upserting a customer ----

  function CustomerDiscord(t: Tables, c: CustomerFields, lk: Linker, pick: string): Option<string> {
    ResolveFromMeta(c.metadata, lk).OrElse(InheritedLink(t, c.id, pick))
  }

  /** INSERT .. ON CONFLICT: links and creation times are kept when the new value is
      null, spend and payments are left alone. */
  function MergeCustomer(t: Tables, c: CustomerFields, did: Option<string>): CustomerRow {
    if c.id in t.customers then
      var row := t.customers[c.id];
      CustomerRow(did.OrElse(row.discord), c.email, c.name, c.country, c.currency, c.delinquent,
                  c.createdAt.OrElse(row.createdAt), row.lifetimeSpend, row.payments)
    else
      CustomerRow(did, c.email, c.name, c.country, c.currency, c.delinquent, c.createdAt, 0, 0)
  }

  /** An unlinked subscription of the customer takes the link. */
  function Linked(row: SubRow, cid: string, did: Option<string>): SubRow {
    if did.Some? && row.customerId == Some(cid) && row.discord.None? then row.(discord := did) else row
  }

  function LinkSubs(subs: map<string, SubRow>, cid: string, did: Option<string>): map<string, SubRow> {
    map sid | sid in subs :: Linked(subs[sid], cid, did)
  }

  function UpsertCustomer(t: Tables, c: CustomerFields, lk: Linker, pick: string): (Tables, Option<string>) {
    if c.deleted then (t.(customers := t.customers - {c.id}), None)
    else
      var did := CustomerDiscord(t, c, lk, pick);
      (Tables(t.customers[c.id := MergeCustomer(t, c, did)], LinkSubs(t.subs, c.id, did)), did)
  }

  // ---- upserting a subscription ----

  /** The expanded customer, when there is one, is upserted first. */
  function ExpandedCustomer(t: Tables, s: SubFields, lk: Linker, pick: string): (Tables, Option<string>) {
    if s.customer.Some? then UpsertCustomer(t, s.customer.value, lk, pick) else (t, None)
  }

  /** Subscription metadata, then the expanded customer's metadata, then that
      customer's link, then the checkout reference, then the stored customer row. */
  function SubDiscord(t: Tables, s: SubFields, lk: Linker, fallback: Option<string>,
                      customerDiscord: Option<string>): Option<string>
  {
    ResolveFromMeta(s.metadata, lk)
    .OrElse(if s.customer.Some? then ResolveFromMeta(s.customer.value.metadata, lk) else None)
    .OrElse(customerDiscord)
    .OrElse(if fallback.Some? then NormalizeDiscordId(fallback.value, lk) else None)
    .OrElse(if s.customerId.Some? then CustomerLink(t, s.customerId.value) else None)
  }

  function MergeSub(t: Tables, s: SubFields, did: Option<string>): SubRow {
    var kept := s.id in t.subs;
    SubRow(s.customerId, if kept then did.OrElse(t.subs[s.id].discord) else did, s.status,
           s.priceId, s.productId, s.unitAmount, s.currency, s.interval, s.intervalCount, s.quantity,
           s.cancelAtPeriodEnd, s.periodEnd, s.trialEnd, s.startedAt,
           if kept then s.createdAt.OrElse(t.subs[s.id].createdAt) else s.createdAt)
  }

  /** An unlinked customer row learns the link of its subscription. */
  function BackFill(customers: map<string, CustomerRow>, cid: Option<string>, did: Option<string>)
    : map<string, CustomerRow>
  {
    if cid.Some? && did.Some? && cid.value in customers && customers[cid.value].discord.None?
    then customers[cid.value := customers[cid.value].(discord := did)]
    else customers
  }

  function UpsertSubscription(t: Tables, s: SubFields, lk: Linker, fallback: Option<string>, pick: string)
    : (Tables, Option<string>)
  {
    var (t1, customerDiscord) := ExpandedCustomer(t, s, lk, pick);
    var did := SubDiscord(t1, s, lk, fallback, customerDiscord);
    (Tables(BackFill(t1.customers, s.customerId, did), t1.subs[s.id := MergeSub(t1, s, did)]), did)
  }

  // ---- an upsert that fails between its statements ----

  /** The tables after the first `n` writes of a customer upsert: the row (or its
      removal), then the link spread to the subscriptions. */
  function PartialCustomer(t: Tables, c: CustomerFields, lk: Linker, pick: string, n: nat): Tables {
    if n == 0 then t
    else if n == 1 && !c.deleted
    then t.(customers := t.customers[c.id := MergeCustomer(t, c, CustomerDiscord(t, c, lk, pick))])
    else UpsertCustomer(t, c, lk, pick).0
  }

  /** The two writes of the expanded customer come first, then the subscription row, then
      the back-filled customer link. */
  function PartialSubscription(t: Tables, s: SubFields, lk: Linker, fallback: Option<string>, pick: string,
                               n: nat): Tables {
    if n <= 2 then
      if s.customer.Some? then PartialCustomer(t, s.customer.value, lk, pick, n) else t
    else if n == 3 then
      var (t1, customerDiscord) := ExpandedCustomer(t, s, lk, pick);
      t1.(subs := t1.subs[s.id := MergeSub(t1, s, SubDiscord(t1, s, lk, fallback, customerDiscord))])
    else UpsertSubscription(t, s, lk, fallback, pick).0
  }

  // ---- charges ----

  /** charge.succeeded adds to the row, creating it if needed. */
  function ApplyCharge(t: Tables, cid: string, amount: int): Tables {
    var row := if cid in t.customers
      then var r := t.customers[cid];
           r.(lifetimeSpend := r.lifetimeSpend + amount, payments := r.payments + 1)
      else CustomerRow(None, None, None, None, None, false, None, amount, 1);
    t.(customers := t.customers[cid := row])
  }

  function SetSpend(t: Tables, cid: string, amount: int, payments: int): Tables {
    if cid in t.customers
    then t.(customers := t.customers[cid := t.customers[cid].(lifetimeSpend := amount, payments := payments)])
    else t
  }

  // ---- the mirror as the program updates it ----

  class Mirror {
    var customers: map<string, CustomerRow>
    var subs: map<string, SubRow>

    ghost function Contents(): Tables
      reads this
    {
      Tables(customers, subs)
    }

    constructor ()
      ensures Contents() == Tables(map[], map[])
    {
      customers, subs := map[], map[];
    }

    /** SELECT .. LIMIT 1 over the customer's linked subscriptions. */
    method PickLinkedSub(cid: string) returns (did: Option<string>, ghost pick: string)
      ensures PickOk(Contents(), cid, pick) && did == InheritedLink(Contents(), cid, pick)
    {
      pick := "";
      did := None;
      var linked := set sid | sid in subs && subs[sid].customerId == Some(cid) && subs[sid].discord.Some?;
      if linked != {} {
        var sid :| sid in linked;
        did := subs[sid].discord;
        pick := sid;
      } else {
        assert forall sid <- subs :: LinkedSubOf(Contents(), cid, sid) ==> sid in linked;
      }
    }

    /** The id the customer is linked by: its own, or that of a linked subscription. */
    method ResolveCustomer(c: CustomerFields, lk: Linker) returns (did: Option<string>, ghost pick: string)
      requires !c.deleted
      ensures PickFor(Contents(), c, lk, pick) && did == CustomerDiscord(Contents(), c, lk, pick)
    {
      hide ResolveFromMeta;
      pick := "";
      did := ResolveFromMeta(c.metadata, lk);
      if did.None? {
        did, pick := PickLinkedSub(c.id);
      }
    }

    /** INSERT .. ON CONFLICT of the customer row. */
    method WriteCustomer(c: CustomerFields, did: Option<string>)
      modifies this`customers
      ensures customers == old(customers)[c.id := MergeCustomer(old(Contents()), c, did)]
    {
      if c.id in customers {
        var row := customers[c.id];
        customers := customers[c.id := CustomerRow(
          if did.Some? then did else row.discord, c.email, c.name, c.country, c.currency, c.delinquent,
          if c.createdAt.Some? then c.createdAt else row.createdAt, row.lifetimeSpend, row.payments)];
      } else {
        customers := customers[c.id := CustomerRow(
          did, c.email, c.name, c.country, c.currency, c.delinquent, c.createdAt, 0, 0)];
      }
    }

    /** UPDATE of the customer's unlinked subscriptions. */
    method SpreadLink(cid: string, did: Option<string>)
      modifies this`subs
      ensures subs == LinkSubs(old(subs), cid, did)
    {
      if did.Some? {
        subs := map sid | sid in subs ::
          if subs[sid].customerId == Some(cid) && subs[sid].discord.None?
          then subs[sid].(discord := did) else subs[sid];
      }
      assert subs == LinkSubs(old(subs), cid, did);
    }

    method UpsertCustomerRow(c: CustomerFields, lk: Linker) returns (did: Option<string>, ghost pick: string)
      modifies this
      ensures PickFor(old(Contents()), c, lk, pick)
      ensures (Contents(), did) == UpsertCustomer(old(Contents()), c, lk, pick)
    {
      hide CustomerDiscord, MergeCustomer, LinkSubs;
      pick := "";
      if c.deleted {
        customers := customers - {c.id};
        did := None;
        return;
      }
      did, pick := ResolveCustomer(c, lk);
      WriteCustomer(c, did);
      SpreadLink(c.id, did);
    }

    /** The same, failing after `n` writes. */
    method UpsertCustomerPartly(c: CustomerFields, lk: Linker, n: nat) returns (ghost pick: string)
      modifies this
      ensures PickFor(old(Contents()), c, lk, pick)
      ensures Contents() == PartialCustomer(old(Contents()), c, lk, pick, n)
    {
      hide CustomerDiscord, MergeCustomer, LinkSubs, UpsertCustomer;
      if c.deleted || n >= 2 {
        if n == 0 {
          pick := "";
          return;
        }
        var did;
        did, pick := UpsertCustomerRow(c, lk);
        return;
      }
      var did;
      did, pick := ResolveCustomer(c, lk);
      if n == 1 {
        WriteCustomer(c, did);
      }
    }

    /** The id the subscription is linked by, in the coded order. */
    method ResolveSubscription(s: SubFields, lk: Linker, fallback: Option<string>, customerDiscord: Option<string>)
      returns (did: Option<string>)
      ensures did == SubDiscord(Contents(), s, lk, fallback, customerDiscord)
    {
      hide ResolveFromMeta, NormalizeDiscordId;
      did := ResolveFromMeta(s.metadata, lk);
      if did.None? && s.customer.Some? {
        did := ResolveFromMeta(s.customer.value.metadata, lk);
      }
      if did.None? {
        did := customerDiscord;
      }
      if did.None? && fallback.Some? {
        did := NormalizeDiscordId(fallback.value, lk);
      }
      if did.None? && s.customerId.Some? && s.customerId.value in customers {
        did := customers[s.customerId.value].discord;
      }
    }

    /** INSERT .. ON CONFLICT of the subscription row. */
    method WriteSubscription(s: SubFields, did: Option<string>)
      modifies this`subs
      ensures subs == old(subs)[s.id := MergeSub(old(Contents()), s, did)]
    {
      var link, created := did, s.createdAt;
      if s.id in subs {
        link := if did.Some? then did else subs[s.id].discord;
        created := if s.createdAt.Some? then s.createdAt else subs[s.id].createdAt;
      }
      subs := subs[s.id := SubRow(
        s.customerId, link, s.status, s.priceId, s.productId, s.unitAmount, s.currency, s.interval,
        s.intervalCount, s.quantity, s.cancelAtPeriodEnd, s.periodEnd, s.trialEnd, s.startedAt, created)];
    }

    method UpsertSubscriptionRow(s: SubFields, lk: Linker, fallback: Option<string>)
      returns (did: Option<string>, ghost pick: string)
      modifies this
      ensures s.customer.Some? ==> PickFor(old(Contents()), s.customer.value, lk, pick)
      ensures (Contents(), did) == UpsertSubscription(old(Contents()), s, lk, fallback, pick)
    {
      hide SubDiscord, MergeSub, UpsertCustomer, PickFor;
      pick := "";
      var customerDiscord: Option<string> := None;
      if s.customer.Some? {
        customerDiscord, pick := UpsertCustomerRow(s.customer.value, lk);
      }
      did := ResolveSubscription(s, lk, fallback, customerDiscord);
      WriteSubscription(s, did);
      if did.Some? && s.customerId.Some? && s.customerId.value in customers
         && customers[s.customerId.value].discord.None? {
        customers := customers[s.customerId.value := customers[s.customerId.value].(discord := did)];
      }
    }

    /** The same, failing after `n` writes. */
    method UpsertSubscriptionPartly(s: SubFields, lk: Linker, fallback: Option<string>, n: nat)
      returns (ghost pick: string)
      modifies this
      ensures s.customer.Some? ==> PickFor(old(Contents()), s.customer.value, lk, pick)
      ensures Contents() == PartialSubscription(old(Contents()), s, lk, fallback, pick, n)
    {
      hide SubDiscord, MergeSub, UpsertCustomer, PartialCustomer, UpsertSubscription, PickFor;
      pick := "";
      if n <= 2 {
        if s.customer.Some? {
          pick := UpsertCustomerPartly(s.customer.value, lk, n);
        }
        return;
      }
      var did: Option<string> := None;
      if n > 3 {
        did, pick := UpsertSubscriptionRow(s, lk, fallback);
        return;
      }
      if s.customer.Some? {
        did, pick := UpsertCustomerRow(s.customer.value, lk);
      }
      did := ResolveSubscription(s, lk, fallback, did);
      WriteSubscription(s, did);
    }

    method ApplySuccessfulCharge(cid: string, amount: int) returns (did: Option<string>)
      modifies this
      ensures Contents() == ApplyCharge(old(Contents()), cid, amount)
      ensures did == CustomerLink(Contents(), cid)
    {
      if cid in customers {
        var row := customers[cid];
        customers := customers[cid := row.(lifetimeSpend := row.lifetimeSpend + amount, payments := row.payments + 1)];
      } else {
        customers := customers[cid := CustomerRow(None, None, None, None, None, false, None, amount, 1)];
      }
      did := customers[cid].discord;
    }

    method SetCustomerSpend(cid: string, amount: int, payments: int) returns (did: Option<string>)
      modifies this
      ensures Contents() == SetSpend(old(Contents()), cid, amount, payments)
      ensures did == CustomerLink(Contents(), cid)
    {
      did := None;
      if cid in customers {
        customers := customers[cid := customers[cid].(lifetimeSpend := amount, payments := payments)];
        did := customers[cid].discord;
      }
    }
  }
}
