/** What a saved condition says, read off its literal and the member's columns: the evaluator's
    answer for every target kind and operator, without the evaluator's own helpers. */
module RuleReading {
  import opened Wrappers
  import opened Rules
  import opened ConditionEval
  import opened RuleValidator
  import Sql

  // ---- lists of literals ----

  lemma {:induction false} StringItemsMember(items: seq<Json>, x: string)
    ensures x in StringItems(items) <==> exists j :: 0 <= j < |items| && items[j] == Str(x)
  {
    if items == [] {
    } else {
      var rest := items[1..];
      StringItemsMember(rest, x);
      assert forall j | 0 <= j < |rest| :: rest[j] == items[j + 1];
      if j :| 0 <= j < |items| && items[j] == Str(x) {
        assert j > 0 ==> rest[j - 1] == Str(x);
      }
    }
  }

  // ---- sets of ids ----

  /** A condition on products or prices: `eq` asks for one listed id, `in` for any of the listed
      ids, `not_in` for none of them; entries that are not strings match nothing. */
  lemma SetConditions(c: Condition, f: Facts, w: World)
    requires ValidCondition(c, w) && (c.target == SubscribedToProduct || c.target == SubscribedToPrice)
    ensures var ids := if c.target == SubscribedToProduct then f.productIds else f.priceIds;
      && (c.op == Eq ==> (EvaluateSingle(c, f, w) <==> exists i :: 0 <= i < |ids| && c.value == Str(ids[i])))
      && (c.op == In ==> (EvaluateSingle(c, f, w) <==>
            exists i, j :: 0 <= i < |ids| && 0 <= j < |c.value.items| && c.value.items[j] == Str(ids[i])))
      && (c.op == NotIn ==> (EvaluateSingle(c, f, w) <==>
            forall i, j :: 0 <= i < |ids| && 0 <= j < |c.value.items| ==> c.value.items[j] != Str(ids[i])))
      && c.op in {Eq, In, NotIn}
  {
    var ids := if c.target == SubscribedToProduct then f.productIds else f.priceIds;
    if c.op == In || c.op == NotIn {
      ListedIds(ids, c.value.items);
      assert EvaluateSingle(c, f, w) <==> (c.op == In) == Overlap(ids, StringItems(c.value.items));
      hide Overlap, StringItems;
    }
  }

  lemma ListedIds(ids: seq<string>, items: seq<Json>)
    ensures Overlap(ids, StringItems(items)) <==>
      exists i, j :: 0 <= i < |ids| && 0 <= j < |items| && items[j] == Str(ids[i])
  {
    forall x
      ensures x in StringItems(items) <==> exists j :: 0 <= j < |items| && items[j] == Str(x)
    {
      StringItemsMember(items, x);
    }
  }

  // ---- text ----

  /** A condition on a text column. An unset column satisfies `neq` only. */
  lemma TextConditions(c: Condition, f: Facts, w: World)
    requires ValidCondition(c, w) && c.target.Kind() == StringKind
    ensures var v := Sql.TargetValue(c.target, f, w.now);
      && (v == Sql.VNull || v.VText?)
      && (v == Sql.VNull ==> (EvaluateSingle(c, f, w) <==> c.op == Neq))
      && (v.VText? ==>
           && (c.op == Eq ==> (EvaluateSingle(c, f, w) <==> c.value == Str(v.s)))
           && (c.op == Neq ==> (EvaluateSingle(c, f, w) <==> c.value != Str(v.s)))
           && (c.op == Contains ==> (EvaluateSingle(c, f, w) <==>
                 exists before, after :: v.s == before + c.value.s + after))
           && (c.op == Regex ==> (EvaluateSingle(c, f, w) <==> w.regexMatches(c.value.s, v.s)))
           && (c.op == In ==> (EvaluateSingle(c, f, w) <==>
                 exists j :: 0 <= j < |c.value.items| && c.value.items[j] == Str(v.s)))
           && (c.op == NotIn ==> (EvaluateSingle(c, f, w) <==>
                 forall j :: 0 <= j < |c.value.items| ==> c.value.items[j] != Str(v.s))))
      && c.op in {Eq, Neq, Contains, Regex, In, NotIn}
  {
    var v := Sql.TargetValue(c.target, f, w.now);
    TextMatch(c, f, w);
    hide EvaluateSingle, IsSubstring, StringItems, Sql.TargetValue;
    if v.VText? && c.op == Contains {
      Substrings(c.value.s, v.s);
    }
    if v.VText? && (c.op == In || c.op == NotIn) {
      StringItemsMember(c.value.items, v.s);
    }
  }

  /** The evaluator and the query read the same text column. */
  lemma TextMatch(c: Condition, f: Facts, w: World)
    requires c.target.Kind() == StringKind
    ensures var v := Sql.TargetValue(c.target, f, w.now);
      && (v == Sql.VNull || v.VText?)
      && (EvaluateSingle(c, f, w) <==> StringMatch(c, if v.VText? then Some(v.s) else None, w))
  {
    hide StringMatch, IntMatch, StringListMatch;
  }

  lemma Substrings(s: string, a: string)
    ensures IsSubstring(s, a) <==> exists before, after :: a == before + s + after
  {
    if i :| 0 <= i <= |a| && s <= a[i..] {
      assert a == a[..i] + s + a[i..][|s|..];
    }
    if before, after :| a == before + s + after {
      assert a[|before|..] == s + after && s <= a[|before|..];
    }
  }

  // ---- numbers ----

  /** What the operator says of a count or an amount. */
  predicate Compares(c: Condition, n: int)
    requires c.value.Int? && (c.op == Between ==> c.valueEnd.Some? && c.valueEnd.value.Int?)
  {
    var v := c.value.n;
    || (c.op == Eq && n == v)
    || (c.op == Neq && n != v)
    || (c.op == Gt && v < n)
    || (c.op == Gte && v <= n)
    || (c.op == Lt && n < v)
    || (c.op == Lte && n <= v)
    || (c.op == Between && v <= n && n <= c.valueEnd.value.n)
  }

  lemma Compared(c: Condition, n: int, w: World)
    requires ValidCondition(c, w) && c.target.Kind() == IntKind
    ensures c.value.Int? && (c.op == Between ==> c.valueEnd.Some? && c.valueEnd.value.Int?)
    ensures IntMatch(c, Some(n)) <==> Compares(c, n)
    ensures !IntMatch(c, None)
  {
  }

  /** Conditions on counts and amounts compare the column with the literal. */
  lemma AmountConditions(c: Condition, f: Facts, w: World)
    requires ValidCondition(c, w) && c.target.Kind() == IntKind && !c.target.CountsDays()
    ensures c.value.Int? && (c.op == Between ==> c.valueEnd.Some? && c.valueEnd.value.Int?)
    ensures var v := Sql.TargetValue(c.target, f, w.now);
      v.VInt? && (EvaluateSingle(c, f, w) <==> Compares(c, v.n))
  {
    var v := Sql.TargetValue(c.target, f, w.now);
    Compared(c, if v.VInt? then v.n else 0, w);
    hide Compares, IntMatch, ValidCondition;
  }

  /** `k` is `d` in whole days, with the fraction dropped. */
  predicate WholeDays(d: int, k: int) {
    if d >= 0 then k * 86_400_000_000 <= d < (k + 1) * 86_400_000_000
    else (k - 1) * 86_400_000_000 < d <= k * 86_400_000_000
  }

  /** The instant a day count is about, and whether it looks ahead. */
  function Instant(t: Target, f: Facts): Option<int> {
    match t
    case SubscriptionAgeDays => f.subscriptionStartedAt
    case DaysUntilRenewal => f.currentPeriodEnd
    case CustomerAgeDays => f.customerCreatedAt
    case _ => None
  }

  /** Conditions on day counts: an unset date satisfies none, and otherwise the whole days since
      it, or until the renewal, are compared. */
  lemma DayConditions(c: Condition, f: Facts, w: World, k: int)
    requires ValidCondition(c, w) && c.target.CountsDays()
    ensures c.value.Int? && (c.op == Between ==> c.valueEnd.Some? && c.valueEnd.value.Int?)
    ensures var x := Instant(c.target, f);
      && (x.None? ==> !EvaluateSingle(c, f, w))
      && (x.Some? ==>
            var d := if c.target == DaysUntilRenewal then x.value - w.now else w.now - x.value;
            WholeDays(d, k) ==> (EvaluateSingle(c, f, w) <==> Compares(c, k)))
  {
    Compared(c, k, w);
    hide *;
    var x := Instant(c.target, f);
    DayMatch(c, f, w);
    if x.Some? {
      var d := if c.target == DaysUntilRenewal then x.value - w.now else w.now - x.value;
      CountedDays(d);
      if WholeDays(d, k) {
        OneCount(d, k, NumDays(d));
      }
    }
  }

  lemma DayMatch(c: Condition, f: Facts, w: World)
    requires c.target.CountsDays()
    ensures var x := Instant(c.target, f);
      EvaluateSingle(c, f, w) <==>
        IntMatch(c, if x.None? then None
                    else Some(NumDays(if c.target == DaysUntilRenewal then x.value - w.now else w.now - x.value)))
  {
    hide NumDays, IntMatch;
  }

  lemma OneCount(d: int, j: int, k: int)
    requires WholeDays(d, j) && WholeDays(d, k)
    ensures j == k
  {
  }

  /** Counting whole seconds and then whole days of those drops the fraction of a day. */
  lemma CountedDays(d: int)
    ensures WholeDays(d, NumDays(d))
  {
    var a := if d >= 0 then d else -d;
    var s := a / MICROS_PER_SEC;
    var q := s / SECS_PER_DAY;
    assert MICROS_PER_SEC * s <= a < MICROS_PER_SEC * (s + 1);
    assert SECS_PER_DAY * q <= s < SECS_PER_DAY * q + SECS_PER_DAY;
    assert NumDays(d) == if d >= 0 then q else -q;
  }

  // ---- rules ----

  /** A saved rule grants when it is the all-relations rule, or some group of it has all its
      conditions satisfied. */
  lemma SavedRules(tree: RuleTree, f: Facts, w: World)
    requires ValidTree(tree, w)
    ensures Evaluate(tree, f, w) <==>
      tree.grantOnAnyRelation || exists g <- tree.groups :: forall c <- g.conditions :: EvaluateSingle(c, f, w)
  {
    hide EvaluateSingle, ValidCondition;
    forall g <- tree.groups
      ensures GroupMatches(g, f, w) <==> forall c <- g.conditions :: EvaluateSingle(c, f, w)
    {
      assert tree.grantOnAnyRelation || ValidGroup(g, w);
    }
  }
}
