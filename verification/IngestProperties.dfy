/** What resolving an id means, in which order an event looks for its member, and what its writes
    put into the columns of the rows. */
module IngestProperties {
  import opened Wrappers
  import opened Text
  import opened MemberFacts
  import opened Ingest
  import opened Webhooks
  import opened EventLinks

  // ---- ids in text ----

  lemma {:induction false} RunIsMaximal(t: string, max: nat, lk: Linker)
    ensures var n := DecimalRun(t, max, lk);
      && DecimalText(t[..n], lk) && (n == max || n == |t| || !lk.isDecimal(t[n]))
      && forall m | n < m <= |t| && m <= max :: !DecimalText(t[..m], lk)
    decreases |t|
  {
    RunIsDecimal(t, max, lk);
    var n := DecimalRun(t, max, lk);
    if max > 0 && t != [] && lk.isDecimal(t[0]) {
      RunIsMaximal(t[1..], max - 1, lk);
    }
    forall m | n < m <= |t| && m <= max
      ensures !DecimalText(t[..m], lk)
    {
      assert t[..m][n] == t[n] && t[n] in t[..m];
    }
  }

  /** Fifteen decimal digits follow one another at position `k`. */
  predicate FifteenAt(t: string, k: int, lk: Linker) {
    0 <= k <= |t| - 15 && DecimalText(t[k..k + 15], lk)
  }

  /** `r` stands at the leftmost place where 15 decimal digits follow one another, and is as many as
      follow from there, 25 at most. */
  predicate LeftmostRun(t: string, i: nat, r: string, lk: Linker) {
    && i + |r| <= |t| && t[i..i + |r|] == r && 15 <= |r| <= 25 && DecimalText(r, lk)
    && (|r| < 25 && i + |r| < |t| ==> !lk.isDecimal(t[i + |r|]))
    && forall k | 0 <= k < i :: !FifteenAt(t, k, lk)
  }

  lemma FifteenShift(t: string, k: int, lk: Linker)
    requires t != [] && k > 0
    ensures FifteenAt(t, k, lk) <==> FifteenAt(t[1..], k - 1, lk)
  {
    if 0 <= k <= |t| - 15 {
      assert t[1..][k - 1..k - 1 + 15] == t[k..k + 15];
    }
  }

  lemma RunShift(t: string, i: nat, r: string, lk: Linker)
    requires t != [] && !FifteenAt(t, 0, lk) && LeftmostRun(t[1..], i, r, lk)
    ensures LeftmostRun(t, i + 1, r, lk)
  {
    hide FifteenAt, DecimalText;
    assert t[1..][i..i + |r|] == t[i + 1..i + 1 + |r|];
    forall k | 0 <= k < i + 1
      ensures !FifteenAt(t, k, lk)
    {
      if k > 0 {
        FifteenShift(t, k, lk);
      }
    }
  }

  lemma {:induction false} RunFound(t: string, lk: Linker)
    ensures FindRun(t, lk).None? ==> forall k :: !FifteenAt(t, k, lk)
    ensures FindRun(t, lk).Some? ==> exists i: nat :: LeftmostRun(t, i, FindRun(t, lk).value, lk)
  {
    if t != [] {
      var n := DecimalRun(t, 25, lk);
      RunIsMaximal(t, 25, lk);
      assert t[0..n] == t[..n] && (|t| >= 15 ==> t[0..15] == t[..15]);
      if n >= 15 {
        assert LeftmostRun(t, 0, t[..n], lk);
      } else {
        assert !FifteenAt(t, 0, lk) && FindRun(t, lk) == FindRun(t[1..], lk);
        RunFound(t[1..], lk);
        hide FindRun, DecimalRun, FifteenAt, LeftmostRun, DecimalText;
        if FindRun(t, lk).Some? {
          var i: nat :| LeftmostRun(t[1..], i, FindRun(t, lk).value, lk);
          RunShift(t, i, FindRun(t, lk).value, lk);
        } else {
          forall k
            ensures !FifteenAt(t, k, lk)
          {
            if k > 0 {
              FifteenShift(t, k, lk);
            } else {
              NoneBefore(t, k, lk);
            }
          }
        }
      }
    }
  }

  lemma NoneBefore(t: string, k: int, lk: Linker)
    requires k <= 0 && !FifteenAt(t, 0, lk)
    ensures !FifteenAt(t, k, lk)
  {
  }

  lemma RunHasFifteen(t: string, i: nat, r: string, lk: Linker)
    requires LeftmostRun(t, i, r, lk)
    ensures FifteenAt(t, i, lk)
  {
    assert t[i..i + 15] == r[..15];
  }

  /** The leftmost run is one place and one text. */
  lemma OneRun(t: string, i: nat, r: string, j: nat, q: string, lk: Linker)
    requires LeftmostRun(t, i, r, lk) && LeftmostRun(t, j, q, lk)
    ensures i == j && r == q
  {
    RunHasFifteen(t, i, r, lk);
    RunHasFifteen(t, j, q, lk);
    assert i == j;
    hide FifteenAt;
    assert forall k | 0 <= k < |r| :: t[i + k] == r[k] && r[k] in r;
    assert forall k | 0 <= k < |q| :: t[i + k] == q[k] && q[k] in q;
    assert |r| == |q|;
  }

  /** An id is a trimmed text of 5 to 25 ASCII digits, or else the leftmost run of 15 to 25 decimal
      digits in it, if there is one. */
  lemma ResolvedExactly(raw: string, lk: Linker)
    ensures var t, r := Trim(raw), NormalizeDiscordId(raw, lk);
      if 5 <= |t| <= 25 && forall i | 0 <= i < |t| :: '0' <= t[i] <= '9' then r == Some(t)
      else
        && (r.None? <==> forall k :: !FifteenAt(t, k, lk))
        && (r.Some? ==> exists i: nat :: LeftmostRun(t, i, r.value, lk))
  {
    var t := Trim(raw);
    RunFound(t, lk);
    assert (forall c <- t :: IsDigit(c)) <==> forall i | 0 <= i < |t| :: '0' <= t[i] <= '9' by {
      assert forall i | 0 <= i < |t| :: t[i] in t && (IsDigit(t[i]) <==> '0' <= t[i] <= '9');
    }
    hide LeftmostRun, Trim, FindRun, FifteenAt, IsDigit;
    if FindRun(t, lk).Some? {
      var i: nat :| LeftmostRun(t, i, FindRun(t, lk).value, lk);
      RunHasFifteen(t, i, FindRun(t, lk).value, lk);
    }
  }

  /** So the id is found inside a mention, whatever stands around it: text without decimal digits
      before it, and after it a text that does not go on with one. */
  lemma MentionResolves(before: string, id: string, after: string, lk: Linker)
    requires DecimalClass(lk) && 15 <= |id| <= 25 && forall c <- id :: IsDigit(c)
    requires before != [] && after != [] && (forall c <- before :: !lk.isDecimal(c)) && !lk.isDecimal(after[0])
    requires !IsWhite(before[0]) && !IsWhite(after[|after| - 1])
    ensures NormalizeDiscordId(before + id + after, lk) == Some(id)
  {
    var t := before + id + after;
    assert t[0] == before[0] && t[|t| - 1] == after[|after| - 1];
    TrimClean(t);
    assert !('0' <= t[0] <= '9') by {
      assert before[0] in before && !lk.isDecimal(t[0]);
    }
    StandsAlone(before, id, after, lk);
    ResolvedExactly(t, lk);
    hide Trim, NormalizeDiscordId, DecimalClass, LeftmostRun, FifteenAt;
    RunHasFifteen(t, |before|, id, lk);
    var i: nat :| LeftmostRun(t, i, NormalizeDiscordId(t, lk).value, lk);
    OneRun(t, |before|, id, i, NormalizeDiscordId(t, lk).value, lk);
  }

  lemma StandsAlone(before: string, id: string, after: string, lk: Linker)
    requires DecimalClass(lk) && 15 <= |id| <= 25 && forall c <- id :: IsDigit(c)
    requires (forall c <- before :: !lk.isDecimal(c)) && after != [] && !lk.isDecimal(after[0])
    ensures LeftmostRun(before + id + after, |before|, id, lk)
  {
    var t := before + id + after;
    assert t[|before|..|before| + |id|] == id && t[|before| + |id|] == after[0];
    forall k | 0 <= k < |before|
      ensures !FifteenAt(t, k, lk)
    {
      if k <= |t| - 15 {
        assert t[k..k + 15][0] == before[k] && before[k] in before;
        assert before[k] in t[k..k + 15];
      }
    }
  }

  // ---- which of several sources names the member ----

  /** `r` is the first of the sources that gives an id, if any does. */
  predicate FirstGiven(sources: seq<Option<string>>, r: Option<string>) {
    if r.None? then forall i | 0 <= i < |sources| :: sources[i].None?
    else exists i | 0 <= i < |sources| :: sources[i] == r && forall j | 0 <= j < i :: sources[j].None?
  }

  /** What a metadata key gives. */
  function Given(meta: map<string, string>, key: string, lk: Linker): Option<string> {
    if key in meta then NormalizeDiscordId(meta[key], lk) else None
  }

  /** The account's own key comes first, then the four common ones in this order. */
  lemma KeyOrder(meta: map<string, string>, lk: Linker)
    ensures FirstGiven(
      [Given(meta, lk.key, lk), Given(meta, "discord_user_id", lk), Given(meta, "discord_id", lk),
       Given(meta, "discordId", lk), Given(meta, "discord", lk)],
      ResolveFromMeta(meta, lk))
  {
    hide NormalizeDiscordId;
    var keys := [lk.key, "discord_user_id", "discord_id", "discordId", "discord"];
    var given := [Given(meta, lk.key, lk), Given(meta, "discord_user_id", lk), Given(meta, "discord_id", lk),
                  Given(meta, "discordId", lk), Given(meta, "discord", lk)];
    KeysInTurn(meta, keys, given, lk);
  }

  lemma {:induction false} KeysInTurn(meta: map<string, string>, keys: seq<string>, given: seq<Option<string>>,
                                      lk: Linker)
    requires |given| == |keys| && forall i | 0 <= i < |keys| :: given[i] == Given(meta, keys[i], lk)
    ensures FirstGiven(given, FirstKey(meta, keys, lk))
  {
    hide NormalizeDiscordId;
    if keys != [] {
      KeysInTurn(meta, keys[1..], given[1..], lk);
      NextSource(given, FirstKey(meta, keys[1..], lk));
    }
  }

  lemma NextSource(sources: seq<Option<string>>, rest: Option<string>)
    requires sources != [] && FirstGiven(sources[1..], rest)
    ensures FirstGiven(sources, sources[0].OrElse(rest))
  {
    if sources[0].None? && rest.Some? {
      var i :| 0 <= i < |sources[1..]| && sources[1..][i] == rest && forall j | 0 <= j < i :: sources[1..][j].None?;
      assert sources[i + 1] == rest;
      assert forall j | 0 <= j < i + 1 :: j > 0 ==> sources[j] == sources[1..][j - 1];
    }
  }

  lemma {:induction false} InTurn(sources: seq<Option<string>>)
    ensures FirstGiven(sources, Coalesced(sources))
  {
    if sources != [] {
      InTurn(sources[1..]);
      NextSource(sources, Coalesced(sources[1..]));
    }
  }

  function Coalesced(sources: seq<Option<string>>): Option<string> {
    if sources == [] then None else sources[0].OrElse(Coalesced(sources[1..]))
  }

  lemma TwoInTurn(a: Option<string>, b: Option<string>)
    ensures FirstGiven([a, b], a.OrElse(b))
  {
    InTurn([a, b]);
    assert [a, b][1..] == [b] && [b][1..] == [];
    assert Coalesced([b]) == b.OrElse(Coalesced([b][1..]));
  }

  lemma FiveInTurn(a: Option<string>, b: Option<string>, c: Option<string>, d: Option<string>, e: Option<string>)
    ensures FirstGiven([a, b, c, d, e], a.OrElse(b).OrElse(c).OrElse(d).OrElse(e))
  {
    InTurn([a, b, c, d, e]);
    assert [a, b, c, d, e][1..] == [b, c, d, e] && [b, c, d, e][1..] == [c, d, e];
    assert [c, d, e][1..] == [d, e] && [d, e][1..] == [e] && [e][1..] == [];
    assert Coalesced([e]) == e.OrElse(Coalesced([e][1..]));
    assert Coalesced([c, d, e]) == c.OrElse(Coalesced([c, d, e][1..]));
    assert Coalesced([b, c, d, e]) == b.OrElse(Coalesced([b, c, d, e][1..]));
    assert Coalesced([d, e]) == d.OrElse(Coalesced([d, e][1..]));
  }

  /** A customer is linked by its own metadata, or by a linked subscription of it. */
  lemma CustomerSources(t: Tables, c: CustomerFields, lk: Linker, pick: string)
    requires !c.deleted
    ensures FirstGiven(
      [ResolveFromMeta(c.metadata, lk),
       if pick in t.subs && t.subs[pick].customerId == Some(c.id) then t.subs[pick].discord else None],
      UpsertCustomer(t, c, lk, pick).1)
  {
    hide ResolveFromMeta, FirstGiven;
    TwoInTurn(ResolveFromMeta(c.metadata, lk),
      if pick in t.subs && t.subs[pick].customerId == Some(c.id) then t.subs[pick].discord else None);
  }

  /** The member of a subscription event: the subscription's metadata, the expanded customer's
      metadata, a linked subscription of that customer, the checkout's reference, and the stored row
      of the subscription's customer, unless the event removes it. */
  lemma SubscriptionSources(t: Tables, e: Event, lk: Linker, pick: string)
    requires EventSub(e).Some?
    ensures var s, c := EventSub(e).value, EventSub(e).value.customer;
      FirstGiven(
        [ResolveFromMeta(s.metadata, lk),
         if c.Some? then ResolveFromMeta(c.value.metadata, lk) else None,
         if c.Some? && !c.value.deleted && pick in t.subs && t.subs[pick].customerId == Some(c.value.id)
         then t.subs[pick].discord else None,
         if e.CheckoutEvent? && e.clientRef.Some? then NormalizeDiscordId(e.clientRef.value, lk) else None,
         if s.customerId.Some? && s.customerId.value in t.customers
            && !(c.Some? && c.value.deleted && c.value.id == s.customerId.value)
         then t.customers[s.customerId.value].discord else None],
        ApplyEvent(t, e, lk, pick).1)
  {
    ReturnsEventMember(t, e, lk, pick);
    hide ResolveFromMeta, NormalizeDiscordId, ApplyEvent, FirstGiven;
    var s, c := EventSub(e).value, EventSub(e).value.customer;
    FiveInTurn(
      ResolveFromMeta(s.metadata, lk),
      if c.Some? then ResolveFromMeta(c.value.metadata, lk) else None,
      if c.Some? && !c.value.deleted && pick in t.subs && t.subs[pick].customerId == Some(c.value.id)
      then t.subs[pick].discord else None,
      if e.CheckoutEvent? && e.clientRef.Some? then NormalizeDiscordId(e.clientRef.value, lk) else None,
      if s.customerId.Some? && s.customerId.value in t.customers
         && !(c.Some? && c.value.deleted && c.value.id == s.customerId.value)
      then t.customers[s.customerId.value].discord else None);
  }

  /** The member of a deletion: the stored row's link, before the row goes, and then the metadata. */
  lemma DeletionSources(t: Tables, cid: Option<string>, metadata: map<string, string>, c: Option<CustomerFields>,
                        lk: Linker, pick: string)
    ensures FirstGiven(
      [if cid.Some? && cid.value in t.customers then t.customers[cid.value].discord else None,
       ResolveFromMeta(metadata, lk)],
      ApplyEvent(t, CustomerDeletedEvent(cid, metadata, c), lk, pick).1)
  {
    hide ResolveFromMeta, UpsertCustomer, FirstGiven;
    TwoInTurn(if cid.Some? && cid.value in t.customers then t.customers[cid.value].discord else None,
              ResolveFromMeta(metadata, lk));
  }

  // ---- what the writes put into the columns ----

  /** A customer row: the new object's columns, with the creation time it had if the object has
      none and the totals it had; nothing in the subscriptions but unset links; no other customer. */
  lemma CustomerColumns(t: Tables, c: CustomerFields, lk: Linker, pick: string)
    requires !c.deleted
    ensures var u := UpsertCustomer(t, c, lk, pick).0;
      && u.customers.Keys == t.customers.Keys + {c.id}
      && (forall cid <- t.customers :: cid != c.id ==> u.customers[cid] == t.customers[cid])
      && u.customers[c.id].email == c.email && u.customers[c.id].name == c.name
      && u.customers[c.id].country == c.country && u.customers[c.id].currency == c.currency
      && u.customers[c.id].delinquent == c.delinquent
      && (if c.id in t.customers then
            && u.customers[c.id].createdAt == (if c.createdAt.Some? then c.createdAt else t.customers[c.id].createdAt)
            && u.customers[c.id].lifetimeSpend == t.customers[c.id].lifetimeSpend
            && u.customers[c.id].payments == t.customers[c.id].payments
          else
            u.customers[c.id].createdAt == c.createdAt
            && u.customers[c.id].lifetimeSpend == 0 && u.customers[c.id].payments == 0)
      && u.subs.Keys == t.subs.Keys
      && forall sid <- t.subs :: u.subs[sid].(discord := t.subs[sid].discord) == t.subs[sid]
  {
    hide CustomerDiscord;
  }

  /** A deletion removes that customer's row and nothing else. */
  lemma DeletedColumns(t: Tables, c: CustomerFields, lk: Linker, pick: string)
    requires c.deleted
    ensures var u := UpsertCustomer(t, c, lk, pick).0;
      && u.subs == t.subs && u.customers.Keys == t.customers.Keys - {c.id}
      && forall cid <- u.customers :: u.customers[cid] == t.customers[cid]
  {
  }

  /** A subscription row: the new object's columns, with the creation time it had if the object has
      none; nothing in the other subscriptions but unset links, and in the customers, other than an
      expanded one, nothing but one unset link. */
  lemma SubscriptionColumns(t: Tables, e: Event, lk: Linker, pick: string)
    requires EventSub(e).Some?
    ensures var s, u := EventSub(e).value, ApplyEvent(t, e, lk, pick).0;
      && u.subs.Keys == t.subs.Keys + {s.id}
      && (forall sid <- t.subs :: sid != s.id ==> u.subs[sid].(discord := t.subs[sid].discord) == t.subs[sid])
      && u.subs[s.id].(discord := None)
         == SubRow(s.customerId, None, s.status, s.priceId, s.productId, s.unitAmount, s.currency, s.interval,
                   s.intervalCount, s.quantity, s.cancelAtPeriodEnd, s.periodEnd, s.trialEnd, s.startedAt,
                   if s.createdAt.None? && s.id in t.subs then t.subs[s.id].createdAt else s.createdAt)
  {
    if EventSub(e).value.customer.Some? {
      SubsKeepColumns(t, EventSub(e).value.customer.value, lk, pick);
    }
    hide SubDiscord, UpsertCustomer, BackFill;
  }

  lemma SubsKeepColumns(t: Tables, c: CustomerFields, lk: Linker, pick: string)
    ensures var u := UpsertCustomer(t, c, lk, pick).0;
      && u.subs.Keys == t.subs.Keys
      && forall sid <- t.subs :: u.subs[sid].(discord := t.subs[sid].discord) == t.subs[sid]
  {
    hide CustomerDiscord;
  }

  /** The customers after a subscription event: those of the expanded customer's upsert, but for one
      unset link. */
  lemma ExpandedColumns(t: Tables, e: Event, lk: Linker, pick: string)
    requires EventSub(e).Some?
    ensures var c, u := EventSub(e).value.customer, ApplyEvent(t, e, lk, pick).0;
      var v := if c.Some? then UpsertCustomer(t, c.value, lk, pick).0 else t;
      && u.customers.Keys == v.customers.Keys
      && forall cid <- v.customers :: u.customers[cid].(discord := v.customers[cid].discord) == v.customers[cid]
  {
    hide SubDiscord, UpsertCustomer, MergeSub;
  }

  /** A charge counts when it is paid and has succeeded: its amount and one payment go to the named
      customer's totals, a customer not yet known starting with them, and nothing else changes. */
  lemma ChargeColumns(t: Tables, cid: string, amount: int, paid: bool, status: string, lk: Linker, pick: string)
    ensures var (u, d) := ApplyEvent(t, ChargeEvent(Some(cid), amount, paid, status), lk, pick);
      if paid && status == "succeeded" then
        && u.subs == t.subs && u.customers.Keys == t.customers.Keys + {cid}
        && (forall x <- t.customers :: x != cid ==> u.customers[x] == t.customers[x])
        && u.customers[cid] == (if cid in t.customers
             then t.customers[cid].(lifetimeSpend := t.customers[cid].lifetimeSpend + amount,
                                    payments := t.customers[cid].payments + 1)
             else CustomerRow(None, None, None, None, None, false, None, amount, 1))
        && d == u.customers[cid].discord
      else u == t && d == None
  {
  }
}
