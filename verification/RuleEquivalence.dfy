/** The compiled clause and the in-process evaluator decide alike, except in two
    families of cases that are characterised exactly. */
module RuleEquivalence {
  import opened Wrappers
  import opened Rules
  import opened ConditionEval
  import opened Sql
  import opened RuleSql
  import opened RuleValidator
  import opened Text
  import opened MemberFacts
  import Seqs
  import Like
  import SqlParsing

  // ---- where the two disagree ----

  /** `c` tells the day count `day` from `day + 1`. */
  predicate Straddles(c: Condition, day: int) {
    var lo := IntOr(c.value, 0);
    var hi := UpperBound(c);
    match c.op
    case Eq | Neq => lo == day || lo == day + 1
    case Gt | Lte => lo == day
    case Gte | Lt => lo == day + 1
    case _ => lo <= hi && (hi == day || lo == day + 1)
  }

  /** FLOOR against truncation: a negative interval that is not a whole number of
      days, compared with a literal right at the step. */
  predicate RoundingDiverges(c: Condition, f: Facts, now: int) {
    var d := Elapsed(c.target, f, now);
    d.Some? && d.value < 0 && d.value % MICROS_PER_DAY != 0 && Straddles(c, FloorDays(d.value))
  }

  /** `not_in` with no string in its list is the constant TRUE in SQL, but the
      evaluator still fails closed on an unset column. */
  predicate NullListDiverges(c: Condition, f: Facts, now: int) {
    && c.target.Kind() == StringKind && c.op == NotIn
    && StrArray(c) == [] && TargetValue(c.target, f, now) == VNull
  }

  predicate Diverges(c: Condition, f: Facts, now: int) {
    RoundingDiverges(c, f, now) || NullListDiverges(c, f, now)
  }

  // ---- day counts ----

  /** Truncating to seconds and then to days is truncating to days. */
  lemma NumDaysTruncates(d: int)
    ensures NumDays(d) == TruncDiv(d, MICROS_PER_DAY)
  {
    var a := if d >= 0 then d else -d;
    var q := a / MICROS_PER_SEC / SECS_PER_DAY;
    assert q == a / MICROS_PER_DAY by {
      var s := a / MICROS_PER_SEC;
      assert SECS_PER_DAY * q <= s < SECS_PER_DAY * q + SECS_PER_DAY;
      assert MICROS_PER_DAY * q <= a < MICROS_PER_DAY * (q + 1);
    }
  }

  /** The two day counts agree exactly on non-negative and whole-day intervals, and
      otherwise the evaluator's is one larger. */
  lemma DayCounts(d: int)
    ensures NumDays(d) == FloorDays(d) <==> d >= 0 || d % MICROS_PER_DAY == 0
    ensures NumDays(d) != FloorDays(d) ==> NumDays(d) == FloorDays(d) + 1
  {
    NumDaysTruncates(d);
    if d < 0 {
      var q := (-d) / MICROS_PER_DAY;
      var r := (-d) % MICROS_PER_DAY;
      assert d == MICROS_PER_DAY * (-q) - r;
      if r == 0 {
        DivisionIsUnique(d, -q, 0);
      } else {
        DivisionIsUnique(d, -q - 1, MICROS_PER_DAY - r);
      }
    }
  }

  lemma DivisionIsUnique(d: int, q: int, r: int)
    requires d == MICROS_PER_DAY * q + r && 0 <= r < MICROS_PER_DAY
    ensures FloorDays(d) == q && d % MICROS_PER_DAY == r
  {
  }

  // ---- one condition ----

  /** The binds of `c` sit in the parameter list right after position `base`. */
  predicate Bound(c: Condition, base: nat, params: seq<Value>) {
    var b := CondBinds(c);
    base + |b| <= |params| && forall i | 0 <= i < |b| :: params[base + i] == b[i].Value()
  }

  /** `v` is a truth value that is TRUE exactly when `b`. */
  predicate Decides(v: Outcome, b: bool) {
    v.Val? && Logical(v.v) && (v.v == VBool(true) <==> b)
  }

  lemma Operands(t: Target, i: nat, row: Row, params: seq<Value>, w: World)
    requires 1 <= i <= |params|
    ensures Eval(Col(Fact(t)), row, params, w) == Val(TargetValue(t, row.facts, w.now))
    ensures Eval(Param(i), row, params, w) == Val(params[i - 1])
    ensures params[i - 1].VArray? ==> Eval(AsTextArray(Param(i)), row, params, w) == Val(params[i - 1])
  {
  }

  predicate IsBinary(e: Expr) {
    e.And? || e.Cmp? || e.EqAny? || e.NeAll? || e.LikeOp? || e.RegexOp? || e.Overlaps? || e.IsDistinct?
  }

  lemma BinaryValue(e: Expr, a: Value, b: Value, row: Row, params: seq<Value>, w: World)
    requires IsBinary(e)
    requires Eval(e.l, row, params, w) == Val(a) && Eval(e.r, row, params, w) == Val(b)
    ensures Eval(e, row, params, w) == Binary(e, a, b, w)
  {
  }

  lemma BindAt(c: Condition, i: nat, base: nat, params: seq<Value>)
    requires Bound(c, base, params) && i < |CondBinds(c)|
    ensures base + i < |params| && params[base + i] == CondBinds(c)[i].Value()
  {
  }

  lemma BoolMeaning(c: Condition, base: nat, row: Row, params: seq<Value>, w: World)
    requires ValidCondition(c, w) && c.target.Kind() == BoolKind && Bound(c, base, params)
    ensures Decides(Eval(CondExpr(c, base), row, params, w), EvaluateSingle(c, row.facts, w))
  {
    BindAt(c, 0, base, params);
    Operands(c.target, base + 1, row, params, w);
  }

  /** The clause on an integer column is the evaluator's match on the SQL value. */
  lemma IntMeaning(c: Condition, base: nat, row: Row, params: seq<Value>, w: World, actual: Option<int>)
    requires ValidCondition(c, w) && c.target.Kind() == IntKind && Bound(c, base, params)
    requires TargetValue(c.target, row.facts, w.now) == OptInt(actual)
    ensures Decides(Eval(CondExpr(c, base), row, params, w), IntMatch(c, actual))
  {
    assert c.value.AsI64().Some? && c.op.ValidFor(IntKind);
    assert c.op == Between ==> c.valueEnd.Some? && c.valueEnd.value.AsI64().Some?;
    hide TargetValue, Eval, ValidCondition, Bound;
    var e := CondExpr(c, base);
    var a := OptInt(actual);
    BindAt(c, 0, base, params);
    Operands(c.target, base + 1, row, params, w);
    if c.op == Between {
      BindAt(c, 1, base, params);
      Operands(c.target, base + 2, row, params, w);
      BinaryValue(e.l, a, params[base], row, params, w);
      BinaryValue(e.r, a, params[base + 1], row, params, w);
      BinaryValue(e, Compare(GeOp, a, params[base]).v, Compare(LeOp, a, params[base + 1]).v, row, params, w);
    } else {
      BinaryValue(e, a, params[base], row, params, w);
    }
  }

  lemma StringMeaning(c: Condition, base: nat, row: Row, params: seq<Value>, w: World, actual: Option<string>)
    requires ValidCondition(c, w) && c.target.Kind() == StringKind && Bound(c, base, params)
    requires TargetValue(c.target, row.facts, w.now) == OptText(actual)
    ensures Decides(Eval(CondExpr(c, base), row, params, w),
                    StringMatch(c, actual, w) != NullListDiverges(c, row.facts, w.now))
  {
    if (c.op == In || c.op == NotIn) && StrArray(c) == [] {
      return;
    }
    assert c.op.ValidFor(StringKind);
    assert !NullListDiverges(c, row.facts, w.now);
    hide TargetValue, Eval, ValidCondition, Bound, StringMatch, NullListDiverges, CondExpr, Decides;
    match c.op {
      case In => StringInMeaning(c, base, row, params, w, actual);
      case NotIn => StringNotInMeaning(c, base, row, params, w, actual);
      case Contains => StringContainsMeaning(c, base, row, params, w, actual);
      case _ => StringCompareMeaning(c, base, row, params, w, actual);
    }
  }

  /** Equality, difference and regular expressions. */
  lemma StringCompareMeaning(c: Condition, base: nat, row: Row, params: seq<Value>, w: World, actual: Option<string>)
    requires ValidCondition(c, w) && c.target.Kind() == StringKind && Bound(c, base, params)
    requires c.op == Eq || c.op == Neq || c.op == Regex
    requires TargetValue(c.target, row.facts, w.now) == OptText(actual)
    ensures Decides(Eval(CondExpr(c, base), row, params, w), StringMatch(c, actual, w))
  {
    assert c.value.Str? && (c.op == Regex ==> w.regexCompiles(c.value.s));
    hide TargetValue, Eval, ValidCondition, Bound, Like.Matches, Like.EscapeLike, StrArray, IsSubstring;
    BindAt(c, 0, base, params);
    Operands(c.target, base + 1, row, params, w);
    BinaryValue(CondExpr(c, base), OptText(actual), params[base], row, params, w);
  }

  lemma StringInMeaning(c: Condition, base: nat, row: Row, params: seq<Value>, w: World, actual: Option<string>)
    requires c.target.Kind() == StringKind && c.op == In && StrArray(c) != [] && Bound(c, base, params)
    requires TargetValue(c.target, row.facts, w.now) == OptText(actual)
    ensures Decides(Eval(CondExpr(c, base), row, params, w), StringMatch(c, actual, w))
  {
    hide TargetValue, Eval, Bound, StrArray;
    BindAt(c, 0, base, params);
    Operands(c.target, base + 1, row, params, w);
    BinaryValue(CondExpr(c, base), OptText(actual), params[base], row, params, w);
  }

  /** The escaped pattern matches exactly the texts that contain the literal. */
  lemma StringContainsMeaning(c: Condition, base: nat, row: Row, params: seq<Value>, w: World, actual: Option<string>)
    requires ValidCondition(c, w) && c.target.Kind() == StringKind && c.op == Contains && Bound(c, base, params)
    requires TargetValue(c.target, row.facts, w.now) == OptText(actual)
    ensures Decides(Eval(CondExpr(c, base), row, params, w), StringMatch(c, actual, w))
  {
    assert c.value.Str?;
    hide TargetValue, Eval, ValidCondition, Bound, Like.Matches, Like.EscapeLike, StrArray, IsSubstring;
    BindAt(c, 0, base, params);
    Operands(c.target, base + 1, row, params, w);
    if actual.Some? {
      Like.ContainsPattern(c.value.s, actual.value);
    }
    BinaryValue(CondExpr(c, base), OptText(actual), params[base], row, params, w);
  }

  /** NULL is not in any list, and neither side keeps it. */
  lemma StringNotInMeaning(c: Condition, base: nat, row: Row, params: seq<Value>, w: World, actual: Option<string>)
    requires c.target.Kind() == StringKind && c.op == NotIn && StrArray(c) != [] && Bound(c, base, params)
    requires TargetValue(c.target, row.facts, w.now) == OptText(actual)
    ensures Decides(Eval(CondExpr(c, base), row, params, w), StringMatch(c, actual, w))
  {
    hide TargetValue, Eval, Bound, StrArray;
    var e := CondExpr(c, base);
    var a := OptText(actual);
    BindAt(c, 0, base, params);
    Operands(c.target, base + 1, row, params, w);
    NotNullValue(e.l, row, params, w);
    BinaryValue(e.r, a, params[base], row, params, w);
    BinaryValue(e, VBool(a != VNull), Quantified(false, a, params[base]).v, row, params, w);
  }

  lemma NotNullValue(e: Expr, row: Row, params: seq<Value>, w: World)
    requires e.IsNotNull? && Eval(e.e, row, params, w).Val?
    ensures Eval(e, row, params, w) == Val(VBool(Eval(e.e, row, params, w).v != VNull))
  {
  }

  lemma StringListMeaning(c: Condition, base: nat, row: Row, params: seq<Value>, w: World, actual: seq<string>)
    requires ValidCondition(c, w) && c.target.Kind() == StringListKind && Bound(c, base, params)
    requires TargetValue(c.target, row.facts, w.now) == VArray(actual)
    ensures Decides(Eval(CondExpr(c, base), row, params, w), StringListMatch(c, actual))
  {
    if (c.op == In || c.op == NotIn) && StrArray(c) == [] {
      return;
    }
    assert c.op.ValidFor(StringListKind);
    assert c.op == Eq ==> c.value.Str?;
    hide TargetValue, Eval, ValidCondition, Bound, StrArray;
    var e := CondExpr(c, base);
    BindAt(c, 0, base, params);
    Operands(c.target, base + 1, row, params, w);
    match c.op {
      case Eq => BinaryValue(e, params[base], VArray(actual), row, params, w);
      case In => BinaryValue(e, VArray(actual), params[base], row, params, w);
      case NotIn =>
        BinaryValue(e.e, VArray(actual), params[base], row, params, w);
        NotValue(e, row, params, w);
    }
  }

  lemma NotValue(e: Expr, row: Row, params: seq<Value>, w: World)
    requires e.Not? && Eval(e.e, row, params, w).Val?
    ensures Eval(e, row, params, w) == Not3(Eval(e.e, row, params, w).v)
  {
  }

  /** The evaluator's own reading of an integer target. */
  function EvaluatorInt(t: Target, f: Facts, now: int): Option<int> {
    var d := Elapsed(t, f, now);
    if t.CountsDays() then (if d.Some? then Some(NumDays(d.value)) else None)
    else match TargetValue(t, f, now) case VInt(n) => Some(n) case _ => None
  }

  function SqlInt(t: Target, f: Facts, now: int): Option<int> {
    match TargetValue(t, f, now) case VInt(n) => Some(n) case _ => None
  }

  lemma IntTarget(c: Condition, f: Facts, w: World)
    requires c.target.Kind() == IntKind
    ensures EvaluateSingle(c, f, w) == IntMatch(c, EvaluatorInt(c.target, f, w.now))
    ensures TargetValue(c.target, f, w.now) == OptInt(SqlInt(c.target, f, w.now))
  {
    hide IntMatch, StringMatch, StringListMatch, NumDays, FloorDays;
  }

  /** On a day target the two readings differ by the rounding alone. */
  lemma IntReadings(c: Condition, f: Facts, w: World)
    requires ValidCondition(c, w) && c.target.Kind() == IntKind
    ensures IntMatch(c, SqlInt(c.target, f, w.now))
         == (IntMatch(c, EvaluatorInt(c.target, f, w.now)) != RoundingDiverges(c, f, w.now))
  {
    var d := Elapsed(c.target, f, w.now);
    if c.target.CountsDays() && d.Some? {
      DayCounts(d.value);
    }
  }

  /** For every validated condition, row and clock reading: the clause never raises a
      type error, and it is TRUE exactly when the evaluator says so, save where
      `Diverges` holds, where it is TRUE exactly when the evaluator says no. */
  lemma ConditionMeaning(c: Condition, base: nat, row: Row, params: seq<Value>, w: World)
    requires ValidCondition(c, w) && Bound(c, base, params)
    ensures Decides(Eval(CondExpr(c, base), row, params, w),
                    EvaluateSingle(c, row.facts, w) != Diverges(c, row.facts, w.now))
  {
    hide CondExpr, CondBinds, Eval;
    var v := TargetValue(c.target, row.facts, w.now);
    match c.target.Kind() {
      case BoolKind =>
        BoolMeaning(c, base, row, params, w);
      case IntKind =>
        IntTarget(c, row.facts, w);
        IntReadings(c, row.facts, w);
        IntMeaning(c, base, row, params, w, SqlInt(c.target, row.facts, w.now));
      case StringKind =>
        StringMeaning(c, base, row, params, w, if v.VText? then Some(v.s) else None);
      case StringListKind =>
        StringListMeaning(c, base, row, params, w, v.a);
    }
  }

  // ---- whole trees ----

  /** What the clause decides, for every row. */
  predicate ClauseVerdict(tree: RuleTree, f: Facts, w: World) {
    tree.grantOnAnyRelation || exists g <- tree.groups :: GroupVerdict(g.conditions, f, w)
  }

  predicate GroupVerdict(cs: seq<Condition>, f: Facts, w: World) {
    cs != [] && forall c <- cs :: EvaluateSingle(c, f, w) != Diverges(c, f, w.now)
  }

  predicate BoundAt(binds: seq<Bind>, base: nat, params: seq<Value>) {
    base + |binds| <= |params| && forall i | 0 <= i < |binds| :: params[base + i] == binds[i].Value()
  }

  lemma SplitBinds(a: seq<Bind>, b: seq<Bind>, base: nat, params: seq<Value>)
    requires BoundAt(a + b, base, params)
    ensures BoundAt(a, base, params) && BoundAt(b, base + |a|, params)
  {
    forall i | 0 <= i < |a|
      ensures params[base + i] == a[i].Value()
    {
      assert (a + b)[i] == a[i];
    }
    forall i | 0 <= i < |b|
      ensures params[base + |a| + i] == b[i].Value()
    {
      assert (a + b)[|a| + i] == b[i];
    }
  }

  lemma {:induction false} ConjunctionMeaning(cs: seq<Condition>, base: nat, row: Row, params: seq<Value>, w: World)
    requires cs != [] && BoundAt(CondsBinds(cs), base, params)
    requires forall c <- cs :: ValidCondition(c, w)
    ensures Decides(Eval(ConjExpr(cs, base), row, params, w), GroupVerdict(cs, row.facts, w))
  {
    hide CondExpr, CondBinds, ValidCondition, EvaluateSingle, Diverges;
    SplitBinds(CondBinds(cs[0]), CondsBinds(cs[1..]), base, params);
    ConditionMeaning(cs[0], base, row, params, w);
    if |cs| > 1 {
      ConjunctionMeaning(cs[1..], base + |CondBinds(cs[0])|, row, params, w);
      assert forall c :: c in cs <==> c == cs[0] || c in cs[1..];
    } else {
      assert cs == [cs[0]];
    }
  }

  lemma {:induction false} DisjunctionMeaning(gs: seq<ConditionGroup>, base: nat, row: Row, params: seq<Value>,
                                              w: World)
    requires gs != [] && BoundAt(GroupsBinds(gs), base, params)
    requires forall g <- gs :: ValidGroup(g, w)
    ensures Decides(Eval(DisjExpr(gs, base), row, params, w),
                    exists g <- gs :: GroupVerdict(g.conditions, row.facts, w))
  {
    hide CondsBinds, ValidCondition, GroupVerdict;
    var first := CondsBinds(gs[0].conditions);
    assert gs[0] in gs && ValidGroup(gs[0], w);
    SplitBinds(first, GroupsBinds(gs[1..]), base, params);
    ConjunctionMeaning(gs[0].conditions, base, row, params, w);
    if |gs| > 1 {
      DisjunctionMeaning(gs[1..], base + |first|, row, params, w);
      assert forall g :: g in gs <==> g == gs[0] || g in gs[1..];
    } else {
      assert gs == [gs[0]];
    }
  }

  /** Whatever parameters precede and follow the rule's binds. */
  lemma RuleMeaning(tree: RuleTree, before: seq<Value>, after: seq<Value>, row: Row, w: World)
    requires ValidTree(tree, w)
    ensures Decides(Eval(RuleExpr(tree, |before|), row,
                         before + BindValues(RuleBinds(tree)) + after, w),
                    ClauseVerdict(tree, row.facts, w))
  {
    if !tree.grantOnAnyRelation {
      DisjunctionMeaning(tree.groups, |before|, row, before + BindValues(RuleBinds(tree)) + after, w);
    }
  }

  lemma VerdictsAgree(tree: RuleTree, f: Facts, w: World)
    requires forall g <- tree.groups, c <- g.conditions :: !Diverges(c, f, w.now)
    ensures ClauseVerdict(tree, f, w) <==> Evaluate(tree, f, w)
  {
    forall g <- tree.groups
      ensures GroupVerdict(g.conditions, f, w) <==> GroupMatches(g, f, w)
    {
    }
  }

  /** The compiler is correct: for every accepted payload, surrounding parameters, row
      and clock reading, the emitted clause parses, evaluates without a type error, and
      keeps exactly the rows of `ClauseVerdict`; where no condition diverges those are
      the rows the evaluator grants. */
  lemma CompilerCorrect(body: RuleTreeBody, before: seq<Value>, after: seq<Value>, row: Row, w: World)
    ensures var accepted := ParseBody(body, w);
      accepted.Ok? ==>
        var tree := accepted.value.tree;
        var params := before + BindValues(RuleBinds(tree)) + after;
        var parsed := ParseOr(RuleTokens(tree, |before|));
        && parsed.Got? && parsed.rest == []
        && Decides(Eval(parsed.e, row, params, w), ClauseVerdict(tree, row.facts, w))
        && ((forall g <- tree.groups, c <- g.conditions :: !Diverges(c, row.facts, w.now))
            ==> (Keeps(parsed.e, row, params, w) <==> Evaluate(tree, row.facts, w)))
  {
    var accepted := ParseBody(body, w);
    if accepted.Ok? {
      var tree := accepted.value.tree;
      AcceptedTreeIsValid(body, w);
      hide ParseBody;
      SqlParsing.ClauseParsesBack(tree, |before|);
      RuleMeaning(tree, before, after, row, w);
      if forall g <- tree.groups, c <- g.conditions :: !Diverges(c, row.facts, w.now) {
        VerdictsAgree(tree, row.facts, w);
      }
    }
  }

  // ---- which saved rules can ever be decided differently ----

  /** Read off the condition alone: a day count compared with a literal at or below
      the step at zero, or a string `not_in` whose list holds no string. */
  predicate CanDiverge(c: Condition) {
    || (c.target.CountsDays() && StepsBelowZero(c))
    || (c.target.Kind() == StringKind && c.op == NotIn && StrArray(c) == [])
  }

  predicate StepsBelowZero(c: Condition) {
    var lo := IntOr(c.value, 0);
    match c.op
    case Eq | Neq | Gte | Lt => lo <= 0
    case Gt | Lte => lo < 0
    case _ => lo <= UpperBound(c) && lo <= 0
  }

  /** A row that a recompute writes: the aggregate of at least one linked row. */
  ghost predicate Storable(f: Facts) {
    exists cs: seq<CustomerRow>, ss: seq<SubRow> :: (cs != [] || ss != []) && f == Aggregate(cs, ss).facts
  }

  const BLANK_CUSTOMER := CustomerRow(None, None, None, None, None, false, None, 0, 0)

  /** A customer that was created, and a subscription that started, `d` ago, and renews in
      `d`. */
  function CustomerAt(d: int, now: int): CustomerRow {
    BLANK_CUSTOMER.(createdAt := Some(now - d))
  }

  function SubAt(d: int, now: int): SubRow {
    SubRow(None, None, "active", None, None, 0, None, None, 1, 1, false, Some(now + d), None, Some(now - d), None)
  }

  lemma OneRow<A>(f: A -> Option<int>, a: A)
    ensures Seqs.MinSome(Seqs.Map(f, [a])) == f(a)
  {
    assert [a][1..] == [];
  }

  /** On the row of the two the elapsed interval of every day target is `d`. */
  lemma DayRow(d: int, now: int, t: Target)
    requires t.CountsDays()
    ensures Elapsed(t, Aggregate([CustomerAt(d, now)], [SubAt(d, now)]).facts, now) == Some(d)
  {
    var c, s := CustomerAt(d, now), SubAt(d, now);
    assert ActiveSubs([s]) == [s] by {
      assert [s][1..] == [] && IsActive(s);
      assert Seqs.Filter(IsActive, [s]) == [s] + Seqs.Filter(IsActive, [s][1..]) == [s];
    }
    OneRow(CreatedOf, c);
    OneRow(StartedOf, s);
    OneRow(PeriodEndOf, s);
    hide Seqs.Map, Seqs.MinSome, Seqs.Sum, Seqs.MaxBy, SortedIds, Seqs.FirstSome, ActiveSubs, EmailDomainOf;
  }

  /** On the row of a customer about whom nothing is known every string column is unset. */
  lemma BlankRow(t: Target, now: int)
    requires t.Kind() == StringKind
    ensures TargetValue(t, Aggregate([BLANK_CUSTOMER], []).facts, now) == VNull
  {
    var cs := [BLANK_CUSTOMER];
    assert cs[1..] == [];
    assert Seqs.FirstSome(Seqs.Map(EmailOf, cs)) == None;
    assert Seqs.FirstSome(Seqs.Map(CountryOf, cs)) == None;
    assert Seqs.FirstSome(Seqs.Map(CustomerCurrencyOf, cs)) == None;
    assert ActiveSubs([]) == [] && Seqs.FirstSome(Seqs.Map(SubCurrencyOf, [])) == None;
    hide Seqs.Map, Seqs.MinSome, Seqs.Sum, SortedIds, Seqs.FirstSome, ActiveSubs;
  }

  /** A negative day count at which `c` steps. */
  function StepDay(c: Condition): int {
    var lo := IntOr(c.value, 0);
    match c.op
    case Eq | Neq | Gte | Lt => lo - 1
    case Gt | Lte => lo
    case _ => lo - 1
  }

  function DivergingRow(c: Condition, now: int): Facts {
    if c.target.CountsDays() then
      var d := MICROS_PER_DAY * StepDay(c) + 1;
      Aggregate([CustomerAt(d, now)], [SubAt(d, now)]).facts
    else Aggregate([BLANK_CUSTOMER], []).facts
  }

  lemma DivergingRowDiverges(c: Condition, now: int)
    requires CanDiverge(c)
    ensures Storable(DivergingRow(c, now)) && Diverges(c, DivergingRow(c, now), now)
  {
    var d := MICROS_PER_DAY * StepDay(c) + 1;
    hide Aggregate;
    if c.target.CountsDays() {
      DivisionIsUnique(d, StepDay(c), 1);
      DayRow(d, now, c.target);
    } else {
      BlankRow(c.target, now);
    }
  }

  lemma OnlyTheseDiverge(c: Condition, f: Facts, now: int)
    requires Diverges(c, f, now)
    ensures CanDiverge(c)
  {
  }

  /** Some row that the program stores is decided differently exactly when `CanDiverge`. */
  lemma DivergenceIsSyntactic(c: Condition, w: World)
    requires ValidCondition(c, w)
    ensures CanDiverge(c) <==> exists f: Facts :: Storable(f) && Diverges(c, f, w.now)
    ensures forall f: Facts :: Diverges(c, f, w.now) ==> CanDiverge(c)
  {
    if CanDiverge(c) {
      DivergingRowDiverges(c, w.now);
    }
    hide Storable, Diverges, CanDiverge;
    forall f | Diverges(c, f, w.now)
      ensures CanDiverge(c)
    {
      OnlyTheseDiverge(c, f, w.now);
    }
  }

  /** Trees free of such conditions are decided alike on every row at every moment. */
  lemma SafeTreesAgree(tree: RuleTree, f: Facts, w: World)
    requires ValidTree(tree, w)
    requires forall g <- tree.groups, c <- g.conditions :: !CanDiverge(c)
    ensures ClauseVerdict(tree, f, w) <==> Evaluate(tree, f, w)
  {
    forall g <- tree.groups, c <- g.conditions
      ensures !Diverges(c, f, w.now)
    {
      assert ValidGroup(g, w);
      DivergenceIsSyntactic(c, w);
    }
    VerdictsAgree(tree, f, w);
  }

  /** A one-condition tree is decided alike on every stored row exactly when it is safe. */
  lemma SingleConditionTrees(c: Condition, w: World)
    requires ValidCondition(c, w)
    ensures var tree := RuleTree(false, [ConditionGroup([c])]);
      (forall f: Facts :: Storable(f) ==> (ClauseVerdict(tree, f, w) <==> Evaluate(tree, f, w))) <==> !CanDiverge(c)
  {
    var tree := RuleTree(false, [ConditionGroup([c])]);
    forall f: Facts
      ensures (ClauseVerdict(tree, f, w) <==> Evaluate(tree, f, w)) <==> !Diverges(c, f, w.now)
    {
      assert tree.groups[0] in tree.groups && c in tree.groups[0].conditions;
      assert ClauseVerdict(tree, f, w) <==> GroupVerdict([c], f, w);
      assert Evaluate(tree, f, w) <==> GroupMatches(tree.groups[0], f, w);
    }
    hide Storable, Diverges;
    DivergenceIsSyntactic(c, w);
  }

  lemma SingleCondition(raw: ConditionInput, w: World)
    ensures var r := ValidateCondition(1, 1, raw, w);
      ParseBody(RuleTreeBody(None, false, [[raw]]), w)
      == if r.Err? then Err(r.error)
         else Ok(ParsedRule(None, RuleTree(false, [ConditionGroup([r.value])])))
  {
    hide ValidateCondition;
    var r := ValidateCondition(1, 1, raw, w);
    assert [raw][1..] == [] && [[raw]][1..] == [];
    if r.Ok? {
      assert [r.value] + [] == [r.value];
      var g := ConditionGroup([r.value]);
      assert ValidateConditions(1, 2, [raw][1..], w) == Ok([]);
      assert ValidateConditions(1, 1, [raw], w) == Ok([r.value]);
      assert ValidateGroup(1, [raw], w) == Ok(g);
      assert ValidateGroups(2, [[raw]][1..], w) == Ok([]);
      assert [g] + [] == [g];
      assert ValidateGroups(1, [[raw]], w) == Ok([g]);
    }
  }

  const AGE_RULE := ConditionInput("subscription_age_days", "gte", Int(0), None)
  const LIST_RULE := ConditionInput("country_code", "not_in", Arr([Int(1)]), None)

  lemma AgeRuleAccepted(w: World)
    ensures ValidateCondition(1, 1, AGE_RULE, w) == Ok(Condition(SubscriptionAgeDays, Gte, Int(0), None))
  {
    TrimClean("subscription_age_days");
    TrimClean("gte");
  }

  lemma NumberListKept(w: World)
    ensures NormalizeValue(StringKind, NotIn, Arr([Int(1)]), w) == Some(Arr([Int(1)]))
  {
    assert [Int(1)][1..] == [];
    assert KeepEntries([Int(1)]) == [Int(1)] + KeepEntries([]) == [Int(1)];
    assert ListEntries(Arr([Int(1)])) == [Int(1)];
    assert [Int(1)] != [];
  }

  lemma ListRuleAccepted(w: World)
    ensures ValidateCondition(1, 1, LIST_RULE, w) == Ok(Condition(CountryCode, NotIn, Arr([Int(1)]), None))
  {
    hide NormalizeValue, Trim;
    NumberListKept(w);
    TrimClean("country_code");
    TrimClean("not_in");
  }

  /** Both families are reachable: the validator accepts a one-condition payload of
      each, and saves a condition that can diverge. */
  lemma AcceptedPayloadsCanDiverge(w: World, raw: ConditionInput)
    requires raw == AGE_RULE || raw == LIST_RULE
    ensures exists c: Condition ::
              && CanDiverge(c)
              && ParseBody(RuleTreeBody(None, false, [[raw]]), w)
                 == Ok(ParsedRule(None, RuleTree(false, [ConditionGroup([c])])))
  {
    hide ValidateCondition, ParseBody, TargetFromKey, OperatorFromKey;
    SingleCondition(raw, w);
    if raw == AGE_RULE {
      AgeRuleAccepted(w);
      assert CanDiverge(Condition(SubscriptionAgeDays, Gte, Int(0), None));
    } else {
      ListRuleAccepted(w);
      assert [Int(1)][1..] == [];
      assert CanDiverge(Condition(CountryCode, NotIn, Arr([Int(1)]), None));
    }
  }
}
