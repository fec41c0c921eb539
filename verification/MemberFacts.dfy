/** The member-facts row: an aggregate of one member's customer and subscription rows. */
module MemberFacts {
  import opened Wrappers
  import opened Rules
  import opened Seqs
  import opened Text

  datatype CustomerRow = CustomerRow(
    discord: Option<string>, email: Option<string>, name: Option<string>, country: Option<string>,
    currency: Option<string>, delinquent: bool, createdAt: Option<int>,
    lifetimeSpend: int, payments: int)

  datatype SubRow = SubRow(
    customerId: Option<string>, discord: Option<string>, status: string,
    priceId: Option<string>, productId: Option<string>, unitAmount: int,
    currency: Option<string>, interval: Option<string>, intervalCount: int, quantity: int,
    cancelAtPeriodEnd: bool, periodEnd: Option<int>, trialEnd: Option<int>,
    startedAt: Option<int>, createdAt: Option<int>)

  /** The stored row: what rules read, and two columns only shown to people. */
  datatype FactsRow = FactsRow(facts: Facts, email: Option<string>, trialEnd: Option<int>)

  predicate IsActive(s: SubRow) {
    s.status == "active" || s.status == "trialing"
  }

  function StatusRank(s: string): int {
    match s
    case "active" => 7
    case "trialing" => 6
    case "past_due" => 5
    case "unpaid" => 4
    case "paused" => 3
    case "incomplete" => 2
    case "canceled" => 1
    case _ => 0
  }

  /** Half away from zero, like `f64::round`. */
  function Round(x: real): int {
    if x >= 0.0 then (x + 0.5).Floor else -((-x + 0.5).Floor)
  }

  /** The exact monthly value of a recurring amount. */
  function ExactMonthly(amount: int, interval: Option<string>, count: int): real {
    var n := (if count >= 1 then count else 1) as real;
    var amt := amount as real;
    match if interval.Some? then interval.value else "month"
    case "year" => amt / (12.0 * n)
    case "week" => amt * 52.0 / 12.0 / n
    case "day" => amt * 30.0 / n
    case _ => amt / n
  }

  function MonthlyValue(amount: int, interval: Option<string>, count: int): int {
    Round(ExactMonthly(amount, interval, count))
  }

  /** The charge of one period: unit amount times quantity, counting at least one. */
  function PeriodCharge(s: SubRow): int {
    s.unitAmount * (if s.quantity >= 1 then s.quantity else 1)
  }

  function Mrr(s: SubRow): int {
    MonthlyValue(PeriodCharge(s), s.interval, s.intervalCount)
  }

  /** The part after the last '@', lower-cased; none without an '@'. */
  function Domain(e: string): Option<string> {
    if e == [] then None
    else
      var rest := Domain(e[1..]);
      if rest.Some? then rest
      else if e[0] == '@' then Some(AsciiLower(e[1..]))
      else None
  }

  function EmailDomainOf(email: Option<string>): Option<string> {
    if email.Some? then Domain(email.value) else None
  }

  function EmailOf(c: CustomerRow): Option<string> { c.email }
  function CountryOf(c: CustomerRow): Option<string> { c.country }
  function CustomerCurrencyOf(c: CustomerRow): Option<string> { c.currency }
  function CreatedOf(c: CustomerRow): Option<int> { c.createdAt }
  function SpendOf(c: CustomerRow): int { c.lifetimeSpend }
  function PaymentsOf(c: CustomerRow): int { c.payments }
  function RankOf(s: SubRow): int { StatusRank(s.status) }
  function ProductOf(s: SubRow): Option<string> { s.productId }
  function PriceOf(s: SubRow): Option<string> { s.priceId }
  function SubCurrencyOf(s: SubRow): Option<string> { s.currency }
  function StartedOf(s: SubRow): Option<int> { s.startedAt }
  function PeriodEndOf(s: SubRow): Option<int> { s.periodEnd }
  function TrialEndOf(s: SubRow): Option<int> { s.trialEnd }

  function ActiveSubs(ss: seq<SubRow>): seq<SubRow> {
    Filter(IsActive, ss)
  }

  function SortedIds(ids: seq<Option<string>>): seq<string> {
    Dedup(Sort(Values(ids)))
  }

  /** The aggregate over the fetched rows, in the order they were fetched. */
  function Aggregate(cs: seq<CustomerRow>, ss: seq<SubRow>): FactsRow {
    var active := ActiveSubs(ss);
    var email := FirstSome(Map(EmailOf, cs));
    var headline := MaxBy(RankOf, ss);
    var primary := MaxBy(PeriodCharge, active);
    var customerCurrency := FirstSome(Map(CustomerCurrencyOf, cs));
    FactsRow(
      Facts(
        hasActiveSubscription := active != [],
        subscriptionStatus := if headline.Some? then Some(headline.value.status) else None,
        isTrialing := exists s <- ss :: s.status == "trialing",
        isPastDue := exists s <- ss :: s.status == "past_due",
        cancelsAtPeriodEnd := exists s <- active :: s.cancelAtPeriodEnd,
        activeSubscriptionCount := |active|,
        productIds := SortedIds(Map(ProductOf, active)),
        priceIds := SortedIds(Map(PriceOf, active)),
        planAmountCents := if primary.Some? then PeriodCharge(primary.value) else 0,
        billingInterval := if primary.Some? then primary.value.interval else None,
        subscriptionStartedAt := MinSome(Map(StartedOf, active)),
        currentPeriodEnd := MinSome(Map(PeriodEndOf, active)),
        totalMrrCents := Sum(Map(Mrr, active)),
        isCustomer := true,
        customerCreatedAt := MinSome(Map(CreatedOf, cs)),
        isDelinquent := exists c <- cs :: c.delinquent,
        lifetimeSpendCents := Sum(Map(SpendOf, cs)),
        successfulPayments := Sum(Map(PaymentsOf, cs)),
        countryCode := FirstSome(Map(CountryOf, cs)),
        currency := customerCurrency.OrElse(FirstSome(Map(SubCurrencyOf, active))),
        emailDomain := EmailDomainOf(email)),
      email,
      MinSome(Map(TrialEndOf, active)))
  }
}
