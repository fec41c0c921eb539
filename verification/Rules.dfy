/** The rule model: JSON literals, condition targets and operators, the two-level
    rule tree and the facts row that both evaluators read. */
module Rules {
  import opened Wrappers

  const I64_MIN: int := -0x8000_0000_0000_0000
  const I64_MAX: int := 0x7fff_ffff_ffff_ffff

  /** A JSON literal. A number is either an integer or a float, as in serde_json. */
  datatype Json =
    | Null
    | Bool(b: bool)
    | Int(n: int)
    | Float(x: real)
    | Str(s: string)
    | Arr(items: seq<Json>)
    | Obj(fields: seq<(string, Json)>)
  {
    function AsBool(): Option<bool> {
      if Bool? then Some(b) else None
    }

    /** Integers outside the 64-bit range and floats are not an i64. */
    function AsI64(): Option<int> {
      if Int? && I64_MIN <= n <= I64_MAX then Some(n) else None
    }

    function AsStr(): Option<string> {
      if Str? then Some(s) else None
    }
  }

  datatype Kind = BoolKind | IntKind | StringKind | StringListKind

  datatype Target =
    | HasActiveSubscription
    | SubscriptionStatus
    | IsTrialing
    | IsPastDue
    | CancelsAtPeriodEnd
    | ActiveSubscriptionCount
    | SubscribedToProduct
    | SubscribedToPrice
    | PlanAmount
    | BillingInterval
    | SubscriptionAgeDays
    | DaysUntilRenewal
    | TotalMrr
    | IsCustomer
    | CustomerAgeDays
    | IsDelinquent
    | LifetimeSpend
    | SuccessfulPayments
    | CountryCode
    | Currency
    | EmailDomain
  {
    function Kind(): Kind {
      match this
      case HasActiveSubscription | IsTrialing | IsPastDue | CancelsAtPeriodEnd
         | IsCustomer | IsDelinquent => BoolKind
      case ActiveSubscriptionCount | PlanAmount | SubscriptionAgeDays | DaysUntilRenewal
         | TotalMrr | CustomerAgeDays | LifetimeSpend | SuccessfulPayments => IntKind
      case SubscriptionStatus | BillingInterval | CountryCode | Currency | EmailDomain => StringKind
      case SubscribedToProduct | SubscribedToPrice => StringListKind
    }

    /** The targets computed from a timestamp and the clock. */
    predicate CountsDays() {
      this in {SubscriptionAgeDays, DaysUntilRenewal, CustomerAgeDays}
    }
  }

  datatype Operator = Eq | Neq | Gt | Gte | Lt | Lte | Between | Contains | Regex | In | NotIn
  {
    predicate ValidFor(kind: Kind) {
      match kind
      case BoolKind => this == Eq
      case IntKind => this in {Eq, Neq, Gt, Gte, Lt, Lte, Between}
      case StringKind => this in {Eq, Neq, Contains, Regex, In, NotIn}
      case StringListKind => this in {Eq, In, NotIn}
    }
  }

  datatype Condition = Condition(target: Target, op: Operator, value: Json, valueEnd: Option<Json>)

  datatype ConditionGroup = ConditionGroup(conditions: seq<Condition>)

  /** OR of AND-groups. */
  datatype RuleTree = RuleTree(grantOnAnyRelation: bool, groups: seq<ConditionGroup>)

  const MAX_GROUPS := 8
  const MAX_CONDITIONS_PER_GROUP := 12

  /** One member's `stripe_member_facts` row. Instants are microseconds since the epoch. */
  datatype Facts = Facts(
    hasActiveSubscription: bool,
    subscriptionStatus: Option<string>,
    isTrialing: bool,
    isPastDue: bool,
    cancelsAtPeriodEnd: bool,
    activeSubscriptionCount: int,
    productIds: seq<string>,
    priceIds: seq<string>,
    planAmountCents: int,
    billingInterval: Option<string>,
    subscriptionStartedAt: Option<int>,
    currentPeriodEnd: Option<int>,
    totalMrrCents: int,
    isCustomer: bool,
    customerCreatedAt: Option<int>,
    isDelinquent: bool,
    lifetimeSpendCents: int,
    successfulPayments: int,
    countryCode: Option<string>,
    currency: Option<string>,
    emailDomain: Option<string>)

  /** What both evaluators consult besides the row: one clock reading, and the regex
      engine and float printer, which this model leaves uninterpreted. */
  datatype World = World(
    now: int,
    regexCompiles: string -> bool,
    regexMatches: (string, string) -> bool,
    showFloat: real -> string)

  /** The string entries of a list literal; anything else yields none. */
  function StringItems(items: seq<Json>): seq<string> {
    if items == [] then []
    else (if items[0].Str? then [items[0].s] else []) + StringItems(items[1..])
  }

  function StrArray(c: Condition): seq<string> {
    if c.value.Arr? then StringItems(c.value.items) else []
  }
}
