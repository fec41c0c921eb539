/** Save-time validation of the rule builder's payload. */
module RuleValidator {
  import opened Wrappers
  import opened Rules
  import opened Text

  datatype ConditionInput = ConditionInput(target: string, op: string, value: Json, valueEnd: Option<Json>)

  datatype RuleTreeBody = RuleTreeBody(
    stripeAccountRef: Option<int>, grantOnAnyRelation: bool, groups: seq<seq<ConditionInput>>)

  datatype ParsedRule = ParsedRule(stripeAccountRef: Option<int>, tree: RuleTree)

  datatype Reason =
    | NoGroups | TooManyGroups | EmptyGroup | TooManyConditions
    | UnknownTarget | UnknownOperator | OperatorNotValid
    | BadValue | MissingUpperBound | BadRegex

  /** A rejected payload: the reason, and the 1-based group and condition it names. */
  datatype Rejection = Rejection(reason: Reason, group: nat, cond: nat)

  // ---- literals in text ----

  function Split(s: string, sep: char): (parts: seq<string>)
    ensures parts != []
  {
    if s == [] then [[]]
    else
      var rest := Split(s[1..], sep);
      if s[0] == sep then [[]] + rest else [[s[0]] + rest[0]] + rest[1..]
  }

  function DigitsValue(s: string): int
    requires forall c <- s :: IsDigit(c)
  {
    if s == [] then 0
    else DigitsValue(s[..|s| - 1]) * 10 + (s[|s| - 1] as int - '0' as int)
  }

  /** `str::parse::<i64>`: an optional sign, then digits, within range. */
  function ParseI64(s: string): (r: Option<int>)
    ensures r.Some? ==> I64_MIN <= r.value <= I64_MAX
  {
    var signed := s != [] && (s[0] == '-' || s[0] == '+');
    var digits := if signed then s[1..] else s;
    if digits == [] || exists c <- digits :: !IsDigit(c) then None
    else
      var n := if signed && s[0] == '-' then -DigitsValue(digits) else DigitsValue(digits);
      if I64_MIN <= n <= I64_MAX then Some(n) else None
  }

  function Digits(n: nat): string {
    if n < 10 then [('0' as int + n) as char]
    else Digits(n / 10) + [('0' as int + n % 10) as char]
  }

  function ShowInt(n: int): string {
    if n < 0 then "-" + Digits(-n) else Digits(n)
  }

  /** A float cast to i64 drops the fraction and saturates. */
  function SaturatingI64(x: real): (n: int)
    ensures I64_MIN <= n <= I64_MAX
  {
    var t := if x >= 0.0 then x.Floor else -((-x).Floor);
    if t < I64_MIN then I64_MIN else if t > I64_MAX then I64_MAX else t
  }

  // ---- keys ----

  function TargetKey(t: Target): string {
    match t
    case HasActiveSubscription => "has_active_subscription"
    case SubscriptionStatus => "subscription_status"
    case IsTrialing => "is_trialing"
    case IsPastDue => "is_past_due"
    case CancelsAtPeriodEnd => "cancels_at_period_end"
    case ActiveSubscriptionCount => "active_subscription_count"
    case SubscribedToProduct => "subscribed_to_product"
    case SubscribedToPrice => "subscribed_to_price"
    case PlanAmount => "plan_amount"
    case BillingInterval => "billing_interval"
    case SubscriptionAgeDays => "subscription_age_days"
    case DaysUntilRenewal => "days_until_renewal"
    case TotalMrr => "total_mrr"
    case IsCustomer => "is_customer"
    case CustomerAgeDays => "customer_age_days"
    case IsDelinquent => "is_delinquent"
    case LifetimeSpend => "lifetime_spend"
    case SuccessfulPayments => "successful_payments"
    case CountryCode => "country_code"
    case Currency => "currency"
    case EmailDomain => "email_domain"
  }

  function TargetFromKey(s: string): Option<Target> {
    match s
    case "has_active_subscription" => Some(HasActiveSubscription)
    case "subscription_status" => Some(SubscriptionStatus)
    case "is_trialing" => Some(IsTrialing)
    case "is_past_due" => Some(IsPastDue)
    case "cancels_at_period_end" => Some(CancelsAtPeriodEnd)
    case "active_subscription_count" => Some(ActiveSubscriptionCount)
    case "subscribed_to_product" => Some(SubscribedToProduct)
    case "subscribed_to_price" => Some(SubscribedToPrice)
    case "plan_amount" => Some(PlanAmount)
    case "billing_interval" => Some(BillingInterval)
    case "subscription_age_days" => Some(SubscriptionAgeDays)
    case "days_until_renewal" => Some(DaysUntilRenewal)
    case "total_mrr" => Some(TotalMrr)
    case "is_customer" => Some(IsCustomer)
    case "customer_age_days" => Some(CustomerAgeDays)
    case "is_delinquent" => Some(IsDelinquent)
    case "lifetime_spend" => Some(LifetimeSpend)
    case "successful_payments" => Some(SuccessfulPayments)
    case "country_code" => Some(CountryCode)
    case "currency" => Some(Currency)
    case "email_domain" => Some(EmailDomain)
    case _ => None
  }

  function OperatorKey(op: Operator): string {
    match op
    case Eq => "eq"
    case Neq => "neq"
    case Gt => "gt"
    case Gte => "gte"
    case Lt => "lt"
    case Lte => "lte"
    case Between => "between"
    case Contains => "contains"
    case Regex => "regex"
    case In => "in"
    case NotIn => "not_in"
  }

  function OperatorFromKey(s: string): Option<Operator> {
    match s
    case "eq" => Some(Eq)
    case "neq" => Some(Neq)
    case "gt" => Some(Gt)
    case "gte" => Some(Gte)
    case "lt" => Some(Lt)
    case "lte" => Some(Lte)
    case "between" => Some(Between)
    case "contains" => Some(Contains)
    case "regex" => Some(Regex)
    case "in" => Some(In)
    case "not_in" => Some(NotIn)
    case _ => None
  }

  // ---- values ----

  predicate Blank(s: string) { Trim(s) == [] }

  /** List entries lose nulls and empty strings; anything else is kept. */
  function KeepEntries(items: seq<Json>): (r: seq<Json>)
    ensures forall v <- r :: v != Null && v != Str("")
  {
    if items == [] then []
    else (if items[0] == Null || items[0] == Str("") then [] else [items[0]]) + KeepEntries(items[1..])
  }

  function TrimmedEntries(parts: seq<string>): seq<Json> {
    if parts == [] then []
    else (if Blank(parts[0]) then [] else [Str(Trim(parts[0]))]) + TrimmedEntries(parts[1..])
  }

  function ListEntries(raw: Json): seq<Json> {
    match raw
    case Arr(items) => KeepEntries(items)
    case Str(s) => TrimmedEntries(Split(s, ','))
    case Null => []
    case _ => [raw]
  }

  function NormalizeValue(kind: Kind, op: Operator, raw: Json, w: World): Option<Json> {
    match kind
    case BoolKind =>
      if raw.Bool? then Some(raw)
      else if raw.Str? then
        var s := AsciiLower(Trim(raw.s));
        if s in ["true", "1", "yes"] then Some(Bool(true))
        else if s in ["false", "0", "no"] then Some(Bool(false))
        else None
      else None
    case IntKind =>
      if raw.Int? then
        Some(Int(if raw.AsI64().Some? then raw.n else SaturatingI64(raw.n as real)))
      else if raw.Float? then Some(Int(SaturatingI64(raw.x)))
      else if raw.Str? && ParseI64(Trim(raw.s)).Some? then Some(Int(ParseI64(Trim(raw.s)).value))
      else None
    case _ =>
      if op == In || op == NotIn then
        var arr := ListEntries(raw);
        if arr == [] then None else Some(Arr(arr))
      else if kind == StringListKind then
        if raw.Str? && !Blank(raw.s) then Some(raw) else None
      else
        match raw
        case Str(s) => if Blank(s) then None else Some(raw)
        case Int(n) => Some(Str(ShowInt(n)))
        case Float(x) => Some(Str(w.showFloat(x)))
        case Bool(b) => Some(Str(if b then "true" else "false"))
        case _ => None
  }

  function ValidateCondition(g: nat, c: nat, raw: ConditionInput, w: World): Result<Condition, Rejection> {
    var target := TargetFromKey(Trim(raw.target));
    if target.None? then Err(Rejection(UnknownTarget, g, c)) else
    var op := OperatorFromKey(Trim(raw.op));
    if op.None? then Err(Rejection(UnknownOperator, g, c)) else
    var kind := target.value.Kind();
    if !op.value.ValidFor(kind) then Err(Rejection(OperatorNotValid, g, c)) else
    var value := NormalizeValue(kind, op.value, raw.value, w);
    if value.None? then Err(Rejection(BadValue, g, c)) else
    if op.value == Between then
      if raw.valueEnd.None? then Err(Rejection(MissingUpperBound, g, c)) else
      var end := NormalizeValue(kind, op.value, raw.valueEnd.value, w);
      if end.None? then Err(Rejection(BadValue, g, c))
      else Ok(Condition(target.value, op.value, value.value, end))
    else if op.value == Regex
         && !w.regexCompiles(if value.value.Str? then value.value.s else "") then
      Err(Rejection(BadRegex, g, c))
    else Ok(Condition(target.value, op.value, value.value, None))
  }

  function ValidateConditions(g: nat, c: nat, raws: seq<ConditionInput>, w: World)
    : Result<seq<Condition>, Rejection>
    decreases |raws|
  {
    if raws == [] then Ok([]) else
    var first := ValidateCondition(g, c, raws[0], w);
    if first.Err? then Err(first.error) else
    var rest := ValidateConditions(g, c + 1, raws[1..], w);
    if rest.Err? then rest else Ok([first.value] + rest.value)
  }

  function ValidateGroup(g: nat, raws: seq<ConditionInput>, w: World): Result<ConditionGroup, Rejection> {
    if raws == [] then Err(Rejection(EmptyGroup, g, 0)) else
    if |raws| > MAX_CONDITIONS_PER_GROUP then Err(Rejection(TooManyConditions, g, 0)) else
    var conds := ValidateConditions(g, 1, raws, w);
    if conds.Err? then Err(conds.error) else Ok(ConditionGroup(conds.value))
  }

  function ValidateGroups(g: nat, groups: seq<seq<ConditionInput>>, w: World)
    : Result<seq<ConditionGroup>, Rejection>
    decreases |groups|
  {
    if groups == [] then Ok([]) else
    var first := ValidateGroup(g, groups[0], w);
    if first.Err? then Err(first.error) else
    var rest := ValidateGroups(g + 1, groups[1..], w);
    if rest.Err? then rest else Ok([first.value] + rest.value)
  }

  function ParseBody(body: RuleTreeBody, w: World): Result<ParsedRule, Rejection> {
    if body.grantOnAnyRelation then Ok(ParsedRule(body.stripeAccountRef, RuleTree(true, []))) else
    if body.groups == [] then Err(Rejection(NoGroups, 0, 0)) else
    if |body.groups| > MAX_GROUPS then Err(Rejection(TooManyGroups, 0, 0)) else
    var groups := ValidateGroups(1, body.groups, w);
    if groups.Err? then Err(groups.error)
    else Ok(ParsedRule(body.stripeAccountRef, RuleTree(false, groups.value)))
  }

  function Prepend<T>(done: seq<T>, rest: Result<seq<T>, Rejection>): Result<seq<T>, Rejection> {
    if rest.Ok? then Ok(done + rest.value) else rest
  }

  lemma EmptyPrefix<T>(rest: Result<seq<T>, Rejection>)
    ensures Prepend([], rest) == rest
  {
    if rest.Ok? {
      assert [] + rest.value == rest.value;
    }
  }

  method ParseGroup(groupNum: nat, raws: seq<ConditionInput>, w: World)
    returns (r: Result<ConditionGroup, Rejection>)
    ensures r == ValidateGroup(groupNum, raws, w)
  {
    hide ValidateCondition;
    if raws == [] {
      return Err(Rejection(EmptyGroup, groupNum, 0));
    }
    if |raws| > MAX_CONDITIONS_PER_GROUP {
      return Err(Rejection(TooManyConditions, groupNum, 0));
    }
    var conditions: seq<Condition> := [];
    EmptyPrefix(ValidateConditions(groupNum, 1, raws, w));
    assert raws[0..] == raws;
    for ci := 0 to |raws|
      invariant ValidateConditions(groupNum, 1, raws, w)
             == Prepend(conditions, ValidateConditions(groupNum, ci + 1, raws[ci..], w))
    {
      assert raws[ci..][0] == raws[ci] && raws[ci..][1..] == raws[ci + 1..];
      var c := ValidateCondition(groupNum, ci + 1, raws[ci], w);
      if c.Err? {
        return Err(c.error);
      }
      ghost var rest := ValidateConditions(groupNum, ci + 2, raws[ci + 1..], w);
      if rest.Ok? {
        assert conditions + ([c.value] + rest.value) == (conditions + [c.value]) + rest.value;
      }
      conditions := conditions + [c.value];
    }
    assert raws[|raws|..] == [] && conditions + [] == conditions;
    r := Ok(ConditionGroup(conditions));
  }

  method ParseRuleTree(body: RuleTreeBody, w: World) returns (r: Result<ParsedRule, Rejection>)
    ensures r == ParseBody(body, w)
  {
    hide ValidateGroup;
    if !body.grantOnAnyRelation {
      if body.groups == [] {
        return Err(Rejection(NoGroups, 0, 0));
      }
      if |body.groups| > MAX_GROUPS {
        return Err(Rejection(TooManyGroups, 0, 0));
      }
    }
    var groups: seq<ConditionGroup> := [];
    if !body.grantOnAnyRelation {
      EmptyPrefix(ValidateGroups(1, body.groups, w));
      assert body.groups[0..] == body.groups;
      for gi := 0 to |body.groups|
        invariant ValidateGroups(1, body.groups, w)
               == Prepend(groups, ValidateGroups(gi + 1, body.groups[gi..], w))
      {
        assert body.groups[gi..][0] == body.groups[gi] && body.groups[gi..][1..] == body.groups[gi + 1..];
        var g := ParseGroup(gi + 1, body.groups[gi], w);
        if g.Err? {
          return Err(g.error);
        }
        ghost var rest := ValidateGroups(gi + 2, body.groups[gi + 1..], w);
        if rest.Ok? {
          assert groups + ([g.value] + rest.value) == (groups + [g.value]) + rest.value;
        }
        groups := groups + [g.value];
      }
      assert body.groups[|body.groups|..] == [] && groups + [] == groups;
    }
    r := Ok(ParsedRule(body.stripeAccountRef, RuleTree(body.grantOnAnyRelation, groups)));
  }

  // ---- what acceptance guarantees ----

  /** The literal shapes that both evaluators can rely on. */
  predicate ValidCondition(c: Condition, w: World) {
    var kind := c.target.Kind();
    && c.op.ValidFor(kind)
    && match kind
       case BoolKind => c.value.Bool?
       case IntKind =>
         && c.value.AsI64().Some?
         && (c.op == Between ==> c.valueEnd.Some? && c.valueEnd.value.AsI64().Some?)
       case _ =>
         if c.op == In || c.op == NotIn then c.value.Arr? && c.value.items != []
         else c.value.Str? && (c.op == Regex ==> w.regexCompiles(c.value.s))
  }

  predicate ValidGroup(g: ConditionGroup, w: World) {
    && 1 <= |g.conditions| <= MAX_CONDITIONS_PER_GROUP
    && forall c <- g.conditions :: ValidCondition(c, w)
  }

  predicate ValidTree(tree: RuleTree, w: World) {
    if tree.grantOnAnyRelation then tree.groups == []
    else 1 <= |tree.groups| <= MAX_GROUPS && forall g <- tree.groups :: ValidGroup(g, w)
  }

  lemma ValidatedCondition(g: nat, c: nat, raw: ConditionInput, w: World)
    ensures var r := ValidateCondition(g, c, raw, w);
      r.Ok? ==> ValidCondition(r.value, w)
  {
  }

  lemma {:induction false} ValidatedConditions(g: nat, c: nat, raws: seq<ConditionInput>, w: World)
    ensures var r := ValidateConditions(g, c, raws, w);
      r.Ok? ==> |r.value| == |raws| && forall x <- r.value :: ValidCondition(x, w)
    decreases |raws|
  {
    hide ValidateCondition, ValidCondition;
    if raws != [] {
      ValidatedCondition(g, c, raws[0], w);
      ValidatedConditions(g, c + 1, raws[1..], w);
    }
  }

  lemma {:induction false} ValidatedGroups(g: nat, groups: seq<seq<ConditionInput>>, w: World)
    ensures var r := ValidateGroups(g, groups, w);
      r.Ok? ==> |r.value| == |groups| && forall x <- r.value :: ValidGroup(x, w)
    decreases |groups|
  {
    if groups != [] {
      ValidatedConditions(g, 1, groups[0], w);
      ValidatedGroups(g + 1, groups[1..], w);
    }
  }

  /** Every saved tree is one the two evaluators were written for. */
  lemma AcceptedTreeIsValid(body: RuleTreeBody, w: World)
    ensures var r := ParseBody(body, w); r.Ok? ==> ValidTree(r.value.tree, w)
  {
    if !body.grantOnAnyRelation {
      ValidatedGroups(1, body.groups, w);
    }
  }
}
