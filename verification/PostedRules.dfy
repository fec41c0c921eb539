/** From the payload to the decision: what a condition posted under its keys asks of a facts row. */
module PostedRules {
  import opened Wrappers
  import opened Rules
  import opened Text
  import opened ConditionEval
  import opened RuleValidator
  import opened Acceptance

  // ---- the column that a key names ----

  function FlagOf(key: string, f: Facts): bool {
    if key == "has_active_subscription" then f.hasActiveSubscription
    else if key == "is_trialing" then f.isTrialing
    else if key == "is_past_due" then f.isPastDue
    else if key == "cancels_at_period_end" then f.cancelsAtPeriodEnd
    else if key == "is_customer" then f.isCustomer
    else f.isDelinquent
  }

  /** None for the day counts of an unset date. */
  function NumberOf(key: string, f: Facts, now: int): Option<int> {
    if key == "active_subscription_count" then Some(f.activeSubscriptionCount)
    else if key == "plan_amount" then Some(f.planAmountCents)
    else if key == "subscription_age_days" then DaysSince(f.subscriptionStartedAt, now)
    else if key == "days_until_renewal" then DaysUntil(f.currentPeriodEnd, now)
    else if key == "total_mrr" then Some(f.totalMrrCents)
    else if key == "customer_age_days" then DaysSince(f.customerCreatedAt, now)
    else if key == "lifetime_spend" then Some(f.lifetimeSpendCents)
    else Some(f.successfulPayments)
  }

  function TextOf(key: string, f: Facts): Option<string> {
    if key == "subscription_status" then f.subscriptionStatus
    else if key == "billing_interval" then f.billingInterval
    else if key == "country_code" then f.countryCode
    else if key == "currency" then f.currency
    else f.emailDomain
  }

  function IdsOf(key: string, f: Facts): seq<string> {
    if key == "subscribed_to_product" then f.productIds else f.priceIds
  }

  lemma FlagColumn(key: string)
    requires FlagTarget(key)
    ensures TargetFromKey(key) == Some(
      if key == "has_active_subscription" then HasActiveSubscription
      else if key == "is_trialing" then IsTrialing
      else if key == "is_past_due" then IsPastDue
      else if key == "cancels_at_period_end" then CancelsAtPeriodEnd
      else if key == "is_customer" then IsCustomer
      else IsDelinquent)
  {
  }

  lemma FlagRead(key: string, c: Condition, f: Facts, w: World)
    requires FlagTarget(key) && TargetFromKey(key) == Some(c.target)
    ensures EvaluateSingle(c, f, w) <==> BoolMatch(c, FlagOf(key, f))
  {
    FlagColumn(key);
    hide BoolMatch, TargetFromKey, FlagTarget;
  }

  lemma NumberRead(key: string, c: Condition, f: Facts, w: World)
    requires NumberTarget(key) && TargetFromKey(key) == Some(c.target)
    ensures EvaluateSingle(c, f, w) <==> IntMatch(c, NumberOf(key, f, w.now))
  {
    hide IntMatch, DaysSince, DaysUntil;
  }

  lemma TextRead(key: string, c: Condition, f: Facts, w: World)
    requires TextTarget(key) && TargetFromKey(key) == Some(c.target)
    ensures EvaluateSingle(c, f, w) <==> StringMatch(c, TextOf(key, f), w)
  {
    hide StringMatch;
  }

  lemma IdsRead(key: string, c: Condition, f: Facts, w: World)
    requires SetTarget(key) && TargetFromKey(key) == Some(c.target)
    ensures EvaluateSingle(c, f, w) <==> StringListMatch(c, IdsOf(key, f))
  {
    hide StringListMatch;
  }

  // ---- the operator that a key names ----

  function OperatorOf(key: string): Operator {
    if key == "eq" then Eq
    else if key == "neq" then Neq
    else if key == "gt" then Gt
    else if key == "gte" then Gte
    else if key == "lt" then Lt
    else if key == "lte" then Lte
    else if key == "between" then Between
    else if key == "contains" then Contains
    else if key == "regex" then Regex
    else if key == "in" then In
    else NotIn
  }

  lemma OperatorRead(key: string)
    requires KnownOperator(key)
    ensures OperatorFromKey(key) == Some(OperatorOf(key))
  {
  }

  lemma OfferedIsKnown(target: string, op: string)
    requires Offered(target, op)
    ensures KnownOperator(op)
  {
    hide FlagTarget, NumberTarget, TextTarget, SetTarget;
  }

  /** Every acceptable condition is saved under the operator its key names, and compares the column
      its target's key names. */
  lemma PostedCondition(raw: ConditionInput, f: Facts, w: World)
    requires Acceptable(raw, w)
    ensures var r := ValidateCondition(1, 1, raw, w);
      var key := Trim(raw.target);
      && r.Ok? && r.value.op == OperatorOf(Trim(raw.op))
      && (FlagTarget(key) ==> (EvaluateSingle(r.value, f, w) <==> BoolMatch(r.value, FlagOf(key, f))))
      && (NumberTarget(key) ==> (EvaluateSingle(r.value, f, w) <==> IntMatch(r.value, NumberOf(key, f, w.now))))
      && (TextTarget(key) ==> (EvaluateSingle(r.value, f, w) <==> StringMatch(r.value, TextOf(key, f), w)))
      && (SetTarget(key) ==> (EvaluateSingle(r.value, f, w) <==> StringListMatch(r.value, IdsOf(key, f))))
  {
    hide FlagTarget, NumberTarget, TextTarget, SetTarget, KnownOperator, Offered, Literal, AsText, Trim;
    assert Offered(Trim(raw.target), Trim(raw.op));
    hide *;
    ConditionAccepted(1, 1, raw, w);
    var key, c := Trim(raw.target), ValidateCondition(1, 1, raw, w).value;
    OfferedIsKnown(key, Trim(raw.op));
    OperatorRead(Trim(raw.op));
    if FlagTarget(key) {
      FlagRead(key, c, f, w);
    }
    if NumberTarget(key) {
      NumberRead(key, c, f, w);
    }
    if TextTarget(key) {
      TextRead(key, c, f, w);
    }
    if SetTarget(key) {
      IdsRead(key, c, f, w);
    }
  }
}
