/** The in-process evaluator that single-member sync uses. */
module ConditionEval {
  import opened Wrappers
  import opened Rules

  const MICROS_PER_SEC := 1_000_000
  const SECS_PER_DAY := 86_400
  const MICROS_PER_DAY := 86_400_000_000

  predicate Evaluate(tree: RuleTree, f: Facts, w: World) {
    if tree.grantOnAnyRelation then true
    else exists g <- tree.groups :: GroupMatches(g, f, w)
  }

  predicate GroupMatches(g: ConditionGroup, f: Facts, w: World) {
    g.conditions != [] && forall c <- g.conditions :: EvaluateSingle(c, f, w)
  }

  predicate EvaluateSingle(c: Condition, f: Facts, w: World) {
    match c.target
    case HasActiveSubscription => BoolMatch(c, f.hasActiveSubscription)
    case IsTrialing => BoolMatch(c, f.isTrialing)
    case IsPastDue => BoolMatch(c, f.isPastDue)
    case CancelsAtPeriodEnd => BoolMatch(c, f.cancelsAtPeriodEnd)
    case IsCustomer => BoolMatch(c, f.isCustomer)
    case IsDelinquent => BoolMatch(c, f.isDelinquent)
    case ActiveSubscriptionCount => IntMatch(c, Some(f.activeSubscriptionCount))
    case PlanAmount => IntMatch(c, Some(f.planAmountCents))
    case SubscriptionAgeDays => IntMatch(c, DaysSince(f.subscriptionStartedAt, w.now))
    case DaysUntilRenewal => IntMatch(c, DaysUntil(f.currentPeriodEnd, w.now))
    case TotalMrr => IntMatch(c, Some(f.totalMrrCents))
    case CustomerAgeDays => IntMatch(c, DaysSince(f.customerCreatedAt, w.now))
    case LifetimeSpend => IntMatch(c, Some(f.lifetimeSpendCents))
    case SuccessfulPayments => IntMatch(c, Some(f.successfulPayments))
    case SubscriptionStatus => StringMatch(c, f.subscriptionStatus, w)
    case BillingInterval => StringMatch(c, f.billingInterval, w)
    case CountryCode => StringMatch(c, f.countryCode, w)
    case Currency => StringMatch(c, f.currency, w)
    case EmailDomain => StringMatch(c, f.emailDomain, w)
    case SubscribedToProduct => StringListMatch(c, f.productIds)
    case SubscribedToPrice => StringListMatch(c, f.priceIds)
  }

  predicate BoolMatch(c: Condition, actual: bool) {
    c.op == Eq && c.value.AsBool() == Some(actual)
  }

  predicate IntMatch(c: Condition, actual: Option<int>) {
    if actual.None? then false
    else
      var a := actual.value;
      var v := c.value.AsI64();
      match c.op
      case Eq => v.Some? && a == v.value
      case Neq => v.Some? && a != v.value
      case Gt => v.Some? && a > v.value
      case Gte => v.Some? && a >= v.value
      case Lt => v.Some? && a < v.value
      case Lte => v.Some? && a <= v.value
      case Between =>
        var hi := if c.valueEnd.Some? then c.valueEnd.value.AsI64() else None;
        v.Some? && hi.Some? && v.value <= a <= hi.value
      case _ => false
  }

  predicate StringMatch(c: Condition, actual: Option<string>, w: World) {
    if actual.None? then c.op == Neq
    else
      var a := actual.value;
      var v := c.value.AsStr();
      match c.op
      case Eq => v.Some? && a == v.value
      case Neq => v.Some? && a != v.value
      case Contains => v.Some? && IsSubstring(v.value, a)
      case Regex => v.Some? && w.regexCompiles(v.value) && w.regexMatches(v.value, a)
      case In => a in StrArray(c)
      case NotIn => a !in StrArray(c)
      case _ => false
  }

  predicate StringListMatch(c: Condition, actual: seq<string>) {
    match c.op
    case Eq => c.value.Str? && c.value.s in actual
    case In => Overlap(actual, StrArray(c))
    case NotIn => !Overlap(actual, StrArray(c))
    case _ => false
  }

  predicate Overlap(xs: seq<string>, ys: seq<string>) {
    exists x <- xs :: x in ys
  }

  predicate IsSubstring(s: string, a: string) {
    exists i | 0 <= i <= |a| :: s <= a[i..]
  }

  /** Rust integer division: the quotient is truncated toward zero. */
  function TruncDiv(a: int, b: int): int
    requires b > 0
  {
    if a >= 0 then a / b else -((-a) / b)
  }

  /** chrono counts whole seconds first and whole days of those. */
  function NumDays(micros: int): int {
    TruncDiv(TruncDiv(micros, MICROS_PER_SEC), SECS_PER_DAY)
  }

  function DaysSince(t: Option<int>, now: int): Option<int> {
    if t.None? then None else Some(NumDays(now - t.value))
  }

  function DaysUntil(t: Option<int>, now: int): Option<int> {
    if t.None? then None else Some(NumDays(t.value - now))
  }
}
