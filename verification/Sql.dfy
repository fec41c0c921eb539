/** The fragment of PostgreSQL that a rule clause uses: tokens, a parser with the
    documented operator precedence, and evaluation in three-valued logic
    (PostgreSQL manual, sections 4.1.6, 9.1, 9.2, 9.7 and 9.24). */
module Sql {
  import opened Wrappers
  import opened Rules
  import opened ConditionEval
  import Like

  /** A column of `stripe_member_facts`, or the whole expression a target reads. */
  datatype Column = AccountRef | DiscordId | Fact(target: Target)

  datatype CmpOp = EqOp | NeOp | GtOp | GeOp | LtOp | LeOp

  /** `CastT` is `::text[]`, `MatchT` is `~` and `OverlapT` is `&&`. */
  datatype Token =
    | LParen | RParen
    | AndT | OrT | NotT | IsT | NullT | DistinctT | FromT
    | TrueT | FalseT
    | LikeT | MatchT | OverlapT | AnyT | AllT | CastT
    | CmpT(op: CmpOp)
    | ColT(col: Column)
    | ParamT(index: nat)

  datatype Expr =
    | Lit(b: bool)
    | Col(col: Column)
    | Param(index: nat)
    | And(l: Expr, r: Expr)
    | Or(l: Expr, r: Expr)
    | Not(e: Expr)
    | Cmp(op: CmpOp, l: Expr, r: Expr)
    | EqAny(l: Expr, r: Expr)
    | NeAll(l: Expr, r: Expr)
    | LikeOp(l: Expr, r: Expr)
    | RegexOp(l: Expr, r: Expr)
    | Overlaps(l: Expr, r: Expr)
    | IsNotNull(e: Expr)
    | IsDistinct(l: Expr, r: Expr)
    | AsTextArray(e: Expr)

  // ---- parsing ----

  datatype Parsed = Fail | Got(e: Expr, rest: seq<Token>)

  predicate StartsWith(s: seq<Token>, t: Token) {
    s != [] && s[0] == t
  }

  /** Lowest precedence first: OR, AND, NOT, IS, comparison, LIKE, other operators,
      primaries with their cast. */
  function ParseOr(s: seq<Token>): (r: Parsed)
    ensures r.Got? ==> |r.rest| < |s|
    decreases |s|, 7
  {
    var l := ParseAnd(s);
    if l.Got? && StartsWith(l.rest, OrT) then
      var r := ParseOr(l.rest[1..]);
      if r.Got? then Got(Or(l.e, r.e), r.rest) else Fail
    else l
  }

  function ParseAnd(s: seq<Token>): (r: Parsed)
    ensures r.Got? ==> |r.rest| < |s|
    decreases |s|, 6
  {
    var l := ParseNot(s);
    if l.Got? && StartsWith(l.rest, AndT) then
      var r := ParseAnd(l.rest[1..]);
      if r.Got? then Got(And(l.e, r.e), r.rest) else Fail
    else l
  }

  function ParseNot(s: seq<Token>): (r: Parsed)
    ensures r.Got? ==> |r.rest| < |s|
    decreases |s|, 5
  {
    if StartsWith(s, NotT) then
      var r := ParseNot(s[1..]);
      if r.Got? then Got(Not(r.e), r.rest) else Fail
    else ParseIs(s)
  }

  function ParseIs(s: seq<Token>): (r: Parsed)
    ensures r.Got? ==> |r.rest| < |s|
    decreases |s|, 4
  {
    var l := ParseCmp(s);
    if l.Fail? || !StartsWith(l.rest, IsT) then l
    else if [IsT, NotT, NullT] <= l.rest then Got(IsNotNull(l.e), l.rest[3..])
    else if [IsT, DistinctT, FromT] <= l.rest then
      var r := ParseCmp(l.rest[3..]);
      if r.Got? then Got(IsDistinct(l.e, r.e), r.rest) else Fail
    else Fail
  }

  function ParseCmp(s: seq<Token>): (r: Parsed)
    ensures r.Got? ==> |r.rest| < |s|
    decreases |s|, 3
  {
    var l := ParseLike(s);
    if l.Fail? || l.rest == [] || !l.rest[0].CmpT? then l
    else if [CmpT(EqOp), AnyT, LParen] <= l.rest then
      var r := ParseOr(l.rest[3..]);
      if r.Got? && StartsWith(r.rest, RParen) then Got(EqAny(l.e, r.e), r.rest[1..]) else Fail
    else if [CmpT(NeOp), AllT, LParen] <= l.rest then
      var r := ParseOr(l.rest[3..]);
      if r.Got? && StartsWith(r.rest, RParen) then Got(NeAll(l.e, r.e), r.rest[1..]) else Fail
    else
      var r := ParseLike(l.rest[1..]);
      if r.Got? then Got(Cmp(l.rest[0].op, l.e, r.e), r.rest) else Fail
  }

  function ParseLike(s: seq<Token>): (r: Parsed)
    ensures r.Got? ==> |r.rest| < |s|
    decreases |s|, 2
  {
    var l := ParseOther(s);
    if l.Got? && StartsWith(l.rest, LikeT) then
      var r := ParseOther(l.rest[1..]);
      if r.Got? then Got(LikeOp(l.e, r.e), r.rest) else Fail
    else l
  }

  function ParseOther(s: seq<Token>): (r: Parsed)
    ensures r.Got? ==> |r.rest| < |s|
    decreases |s|, 1
  {
    var l := ParsePrimary(s);
    if l.Got? && (StartsWith(l.rest, MatchT) || StartsWith(l.rest, OverlapT)) then
      var r := ParsePrimary(l.rest[1..]);
      if r.Fail? then Fail
      else if l.rest[0] == MatchT then Got(RegexOp(l.e, r.e), r.rest)
      else Got(Overlaps(l.e, r.e), r.rest)
    else l
  }

  function ParsePrimary(s: seq<Token>): (r: Parsed)
    ensures r.Got? ==> |r.rest| < |s|
    decreases |s|, 0
  {
    if s == [] then Fail
    else match s[0]
      case LParen =>
        var r := ParseOr(s[1..]);
        if r.Got? && StartsWith(r.rest, RParen) then Cast(r.e, r.rest[1..]) else Fail
      case ColT(c) => Cast(Col(c), s[1..])
      case ParamT(i) => Cast(Param(i), s[1..])
      case TrueT => Cast(Lit(true), s[1..])
      case FalseT => Cast(Lit(false), s[1..])
      case _ => Fail
  }

  function Cast(e: Expr, rest: seq<Token>): (r: Parsed)
    ensures r.Got? && |r.rest| <= |rest|
  {
    if StartsWith(rest, CastT) then Got(AsTextArray(e), rest[1..]) else Got(e, rest)
  }

  // ---- evaluation ----

  datatype Value = VNull | VBool(b: bool) | VInt(n: int) | VText(s: string) | VArray(a: seq<string>)

  /** A statement the server would reject for its operand types is a `TypeError`. */
  datatype Outcome = Val(v: Value) | TypeError

  datatype Row = Row(accountRef: int, discordId: string, facts: Facts)

  function OptInt(o: Option<int>): Value {
    if o.Some? then VInt(o.value) else VNull
  }

  function OptText(o: Option<string>): Value {
    if o.Some? then VText(o.value) else VNull
  }

  /** FLOOR(EXTRACT(EPOCH FROM interval) / 86400); Dafny's division floors here
      because the divisor is positive. */
  function FloorDays(micros: int): int {
    micros / MICROS_PER_DAY
  }

  /** The signed interval a day-counting target measures, when its column is set. */
  function Elapsed(t: Target, f: Facts, now: int): Option<int> {
    match t
    case SubscriptionAgeDays =>
      if f.subscriptionStartedAt.Some? then Some(now - f.subscriptionStartedAt.value) else None
    case CustomerAgeDays =>
      if f.customerCreatedAt.Some? then Some(now - f.customerCreatedAt.value) else None
    case DaysUntilRenewal =>
      if f.currentPeriodEnd.Some? then Some(f.currentPeriodEnd.value - now) else None
    case _ => None
  }

  function DaysColumn(t: Target, f: Facts, now: int): Value {
    var d := Elapsed(t, f, now);
    if d.Some? then VInt(FloorDays(d.value)) else VNull
  }

  function TargetValue(t: Target, f: Facts, now: int): Value {
    match t
    case HasActiveSubscription => VBool(f.hasActiveSubscription)
    case SubscriptionStatus => OptText(f.subscriptionStatus)
    case IsTrialing => VBool(f.isTrialing)
    case IsPastDue => VBool(f.isPastDue)
    case CancelsAtPeriodEnd => VBool(f.cancelsAtPeriodEnd)
    case ActiveSubscriptionCount => VInt(f.activeSubscriptionCount)
    case SubscribedToProduct => VArray(f.productIds)
    case SubscribedToPrice => VArray(f.priceIds)
    case PlanAmount => VInt(f.planAmountCents)
    case BillingInterval => OptText(f.billingInterval)
    case SubscriptionAgeDays | DaysUntilRenewal | CustomerAgeDays => DaysColumn(t, f, now)
    case TotalMrr => VInt(f.totalMrrCents)
    case IsCustomer => VBool(f.isCustomer)
    case IsDelinquent => VBool(f.isDelinquent)
    case LifetimeSpend => VInt(f.lifetimeSpendCents)
    case SuccessfulPayments => VInt(f.successfulPayments)
    case CountryCode => OptText(f.countryCode)
    case Currency => OptText(f.currency)
    case EmailDomain => OptText(f.emailDomain)
  }

  function ColumnValue(c: Column, row: Row, now: int): Value {
    match c
    case AccountRef => VInt(row.accountRef)
    case DiscordId => VText(row.discordId)
    case Fact(t) => TargetValue(t, row.facts, now)
  }

  predicate Logical(v: Value) { v.VBool? || v.VNull? }

  function And3(a: Value, b: Value): Outcome {
    if !Logical(a) || !Logical(b) then TypeError
    else if a == VBool(false) || b == VBool(false) then Val(VBool(false))
    else if a == VNull || b == VNull then Val(VNull)
    else Val(VBool(true))
  }

  function Or3(a: Value, b: Value): Outcome {
    if !Logical(a) || !Logical(b) then TypeError
    else if a == VBool(true) || b == VBool(true) then Val(VBool(true))
    else if a == VNull || b == VNull then Val(VNull)
    else Val(VBool(false))
  }

  function Not3(a: Value): Outcome {
    if a.VBool? then Val(VBool(!a.b)) else if a.VNull? then Val(VNull) else TypeError
  }

  function Compare(op: CmpOp, a: Value, b: Value): Outcome {
    if a.VNull? || b.VNull? then Val(VNull)
    else if a.VInt? && b.VInt? then
      Val(VBool(match op
                case EqOp => a.n == b.n
                case NeOp => a.n != b.n
                case GtOp => a.n > b.n
                case GeOp => a.n >= b.n
                case LtOp => a.n < b.n
                case LeOp => a.n <= b.n))
    else if (a.VBool? && b.VBool?) || (a.VText? && b.VText?) then
      match op
      case EqOp => Val(VBool(a == b))
      case NeOp => Val(VBool(a != b))
      case _ => TypeError
    else TypeError
  }

  /** Array elements are never null in these columns and binds. */
  function Quantified(any: bool, a: Value, b: Value): Outcome {
    if !(a.VNull? || a.VText?) || !(b.VNull? || b.VArray?) then TypeError
    else if b.VArray? && b.a == [] then Val(VBool(!any))
    else if a.VNull? || b.VNull? then Val(VNull)
    else if any then Val(VBool(a.s in b.a))
    else Val(VBool(a.s !in b.a))
  }

  function Binary(e: Expr, a: Value, b: Value, w: World): Outcome {
    match e
    case And(_, _) => And3(a, b)
    case Or(_, _) => Or3(a, b)
    case Cmp(op, _, _) => Compare(op, a, b)
    case EqAny(_, _) => Quantified(true, a, b)
    case NeAll(_, _) => Quantified(false, a, b)
    case LikeOp(_, _) =>
      if a.VNull? || b.VNull? then Val(VNull)
      else if a.VText? && b.VText? then Val(VBool(Like.Matches(b.s, a.s)))
      else TypeError
    case RegexOp(_, _) =>
      if a.VNull? || b.VNull? then Val(VNull)
      else if a.VText? && b.VText? && w.regexCompiles(b.s) then Val(VBool(w.regexMatches(b.s, a.s)))
      else TypeError
    case Overlaps(_, _) =>
      if a.VNull? || b.VNull? then Val(VNull)
      else if a.VArray? && b.VArray? then Val(VBool(Overlap(a.a, b.a)))
      else TypeError
    case IsDistinct(_, _) =>
      if a.VNull? || b.VNull? || (a.VText? && b.VText?) || (a.VInt? && b.VInt?)
      then Val(VBool(a != b))
      else TypeError
    case _ => TypeError
  }

  /** `$i` is the i-th bound value, counting from 1. */
  function Eval(e: Expr, row: Row, params: seq<Value>, w: World): Outcome
    decreases e, 1
  {
    match e
    case Lit(b) => Val(VBool(b))
    case Col(c) => Val(ColumnValue(c, row, w.now))
    case Param(i) => if 1 <= i <= |params| then Val(params[i - 1]) else TypeError
    case Not(x) =>
      var a := Eval(x, row, params, w);
      if a.Val? then Not3(a.v) else TypeError
    case IsNotNull(x) =>
      var a := Eval(x, row, params, w);
      if a.Val? then Val(VBool(a.v != VNull)) else TypeError
    case AsTextArray(x) =>
      var a := Eval(x, row, params, w);
      if a.Val? && (a.v.VArray? || a.v.VNull?) then a else TypeError
    case And(l, r) => Eval2(e, l, r, row, params, w)
    case Or(l, r) => Eval2(e, l, r, row, params, w)
    case Cmp(_, l, r) => Eval2(e, l, r, row, params, w)
    case EqAny(l, r) => Eval2(e, l, r, row, params, w)
    case NeAll(l, r) => Eval2(e, l, r, row, params, w)
    case LikeOp(l, r) => Eval2(e, l, r, row, params, w)
    case RegexOp(l, r) => Eval2(e, l, r, row, params, w)
    case Overlaps(l, r) => Eval2(e, l, r, row, params, w)
    case IsDistinct(l, r) => Eval2(e, l, r, row, params, w)
  }

  function Eval2(e: Expr, l: Expr, r: Expr, row: Row, params: seq<Value>, w: World): Outcome
    requires l < e && r < e
    decreases e, 0
  {
    var a := Eval(l, row, params, w);
    var b := Eval(r, row, params, w);
    if a.Val? && b.Val? then Binary(e, a.v, b.v, w) else TypeError
  }

  /** A WHERE clause keeps a row only when it is TRUE. */
  predicate Keeps(e: Expr, row: Row, params: seq<Value>, w: World) {
    Eval(e, row, params, w) == Val(VBool(true))
  }
}
