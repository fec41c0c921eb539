/** The compiled clause parses back to the intended OR of ANDs, in every context the
    query embeds it in, and its placeholders are numbered consecutively. */
module SqlParsing {
  import opened Rules
  import opened Sql
  import opened RuleSql

  /** What may follow a condition inside a clause. */
  predicate Ends(rest: seq<Token>) {
    rest == [] || rest[0] in {RParen, AndT, OrT}
  }

  // ---- climbing from a tight level to a looser one ----

  lemma ClimbPrimary(s: seq<Token>, e: Expr, rest: seq<Token>)
    requires ParsePrimary(s) == Got(e, rest)
    ensures rest == [] || rest[0] !in {MatchT, OverlapT} ==> ParseOther(s) == Got(e, rest)
    ensures rest == [] || rest[0] !in {MatchT, OverlapT, LikeT} ==> ParseLike(s) == Got(e, rest)
    ensures rest == [] || (rest[0] !in {MatchT, OverlapT, LikeT} && !rest[0].CmpT?)
            ==> ParseCmp(s) == Got(e, rest)
  {
    if rest == [] || rest[0] !in {MatchT, OverlapT} {
      assert ParseOther(s) == Got(e, rest);
      if rest == [] || rest[0] != LikeT {
        assert ParseLike(s) == Got(e, rest);
      }
    }
  }

  lemma ClimbCmp(s: seq<Token>, e: Expr, rest: seq<Token>)
    requires ParseCmp(s) == Got(e, rest) && Ends(rest) && !StartsWith(s, NotT)
    ensures ParseNot(s) == Got(e, rest)
  {
    assert ParseIs(s) == Got(e, rest);
  }

  lemma ClimbNot(s: seq<Token>, e: Expr, rest: seq<Token>)
    requires ParseNot(s) == Got(e, rest)
    ensures !StartsWith(rest, AndT) ==> ParseAnd(s) == Got(e, rest)
    ensures !StartsWith(rest, AndT) && !StartsWith(rest, OrT) ==> ParseOr(s) == Got(e, rest)
  {
    if !StartsWith(rest, AndT) {
      assert ParseAnd(s) == Got(e, rest);
    }
  }

  /** A column, a placeholder or a truth constant, alone. */
  lemma Atom(s: seq<Token>, e: Expr)
    requires s != [] && !StartsWith(s[1..], CastT)
    requires match s[0]
             case ColT(c) => e == Col(c)
             case ParamT(i) => e == Param(i)
             case TrueT => e == Lit(true)
             case FalseT => e == Lit(false)
             case _ => false
    ensures ParsePrimary(s) == Got(e, s[1..])
  {
  }

  /** The placeholder of a list bind, with its cast. */
  lemma CastParam(i: nat, rest: seq<Token>)
    ensures ParsePrimary([ParamT(i), CastT] + rest) == Got(AsTextArray(Param(i)), rest)
  {
    var s := [ParamT(i), CastT] + rest;
    assert s[1..] == [CastT] + rest && s[1..][1..] == rest;
  }

  lemma Parens(inner: seq<Token>, e: Expr, rest: seq<Token>)
    requires ParseOr(inner + ([RParen] + rest)) == Got(e, [RParen] + rest)
    requires !StartsWith(rest, CastT)
    ensures ParsePrimary([LParen] + inner + [RParen] + rest) == Got(e, rest)
  {
    var s := [LParen] + inner + [RParen] + rest;
    assert s[1..] == inner + ([RParen] + rest);
    assert ([RParen] + rest)[1..] == rest;
  }

  /** `(x)`: redundant parentheses around an operand. */
  lemma ParenColumn(c: Column, rest: seq<Token>)
    requires !StartsWith(rest, CastT)
    ensures ParsePrimary([LParen, ColT(c), RParen] + rest) == Got(Col(c), rest)
  {
    hide ParseOr, ParsePrimary;
    var inner := [ColT(c)] + ([RParen] + rest);
    assert inner[1..] == [RParen] + rest;
    Atom(inner, Col(c));
    ListOperand(inner, Col(c), rest);
    Parens([ColT(c)], Col(c), rest);
    assert [LParen] + [ColT(c)] + [RParen] + rest == [LParen, ColT(c), RParen] + rest;
  }

  // ---- the operator shapes ----

  /** `operand op $i`, where the operand is any primary. */
  lemma Comparison(s: seq<Token>, x: Expr, op: CmpOp, i: nat, rest: seq<Token>)
    requires ParsePrimary(s) == Got(x, [CmpT(op), ParamT(i)] + rest) && Ends(rest)
    requires !StartsWith(s, NotT)
    ensures ParseNot(s) == Got(Cmp(op, x, Param(i)), rest)
  {
    hide ParseNot, ParseCmp, ParseLike, ParsePrimary;
    var operand := [ParamT(i)] + rest;
    assert [CmpT(op), ParamT(i)] + rest == [CmpT(op)] + operand && operand[1..] == rest;
    ClimbPrimary(s, x, [CmpT(op)] + operand);
    Atom(operand, Param(i));
    ClimbPrimary(operand, Param(i), rest);
    CmpStep(s, op, x, operand, Param(i), rest);
    ClimbCmp(s, Cmp(op, x, Param(i)), rest);
  }

  lemma CmpStep(s: seq<Token>, op: CmpOp, l: Expr, operand: seq<Token>, r: Expr, rest: seq<Token>)
    requires ParseLike(s) == Got(l, [CmpT(op)] + operand) && ParseLike(operand) == Got(r, rest)
    requires operand == [] || operand[0] !in {AnyT, AllT}
    ensures ParseCmp(s) == Got(Cmp(op, l, r), rest)
  {
    hide ParseLike;
    var tail := [CmpT(op)] + operand;
    assert tail[1..] == operand && (operand != [] ==> tail[1] == operand[0]);
  }

  /** An operator below the comparisons, as a condition. */
  lemma ClimbLike(s: seq<Token>, e: Expr, rest: seq<Token>)
    requires ParseLike(s) == Got(e, rest) && Ends(rest) && !StartsWith(s, NotT)
    ensures ParseNot(s) == Got(e, rest)
  {
    hide ParseLike, ParseNot;
    assert ParseCmp(s) == Got(e, rest);
    ClimbCmp(s, e, rest);
  }

  lemma LikeStep(s: seq<Token>, l: Expr, operand: seq<Token>, r: Expr, rest: seq<Token>)
    requires ParseOther(s) == Got(l, [LikeT] + operand) && ParseOther(operand) == Got(r, rest)
    ensures ParseLike(s) == Got(LikeOp(l, r), rest)
  {
    hide ParseOther;
    assert ([LikeT] + operand)[1..] == operand;
  }

  lemma OtherStep(s: seq<Token>, l: Expr, op: Token, operand: seq<Token>, r: Expr, rest: seq<Token>)
    requires ParsePrimary(s) == Got(l, [op] + operand) && ParsePrimary(operand) == Got(r, rest) && Ends(rest)
    ensures op == MatchT ==> ParseLike(s) == Got(RegexOp(l, r), rest)
    ensures op == OverlapT ==> ParseLike(s) == Got(Overlaps(l, r), rest)
  {
    hide ParsePrimary;
    assert ([op] + operand)[1..] == operand;
    assert op == MatchT ==> ParseOther(s) == Got(RegexOp(l, r), rest);
    assert op == OverlapT ==> ParseOther(s) == Got(Overlaps(l, r), rest);
  }

  lemma LikeShape(c: Column, i: nat, rest: seq<Token>)
    requires Ends(rest)
    ensures ParseNot([ColT(c), LikeT, ParamT(i)] + rest) == Got(LikeOp(Col(c), Param(i)), rest)
  {
    hide ParseNot, ParseLike, ParseOther, ParsePrimary;
    var s := [ColT(c), LikeT, ParamT(i)] + rest;
    var operand := [ParamT(i)] + rest;
    assert s[1..] == [LikeT] + operand && operand[1..] == rest;
    Atom(s, Col(c));
    ClimbPrimary(s, Col(c), s[1..]);
    Atom(operand, Param(i));
    ClimbPrimary(operand, Param(i), rest);
    LikeStep(s, Col(c), operand, Param(i), rest);
    ClimbLike(s, LikeOp(Col(c), Param(i)), rest);
  }

  lemma RegexShape(c: Column, i: nat, rest: seq<Token>)
    requires Ends(rest)
    ensures ParseNot([ColT(c), MatchT, ParamT(i)] + rest) == Got(RegexOp(Col(c), Param(i)), rest)
  {
    hide ParseNot, ParseLike, ParseOther, ParsePrimary;
    var s := [ColT(c), MatchT, ParamT(i)] + rest;
    var operand := [ParamT(i)] + rest;
    assert s[1..] == [MatchT] + operand && operand[1..] == rest;
    Atom(s, Col(c));
    Atom(operand, Param(i));
    OtherStep(s, Col(c), MatchT, operand, Param(i), rest);
    ClimbLike(s, RegexOp(Col(c), Param(i)), rest);
  }

  lemma DistinctShape(c: Column, i: nat, rest: seq<Token>)
    requires Ends(rest)
    ensures ParseNot([ColT(c), IsT, DistinctT, FromT, ParamT(i)] + rest)
         == Got(IsDistinct(Col(c), Param(i)), rest)
  {
    hide ParseNot, ParseIs;
    var s := [ColT(c), IsT, DistinctT, FromT, ParamT(i)] + rest;
    var operand := [ParamT(i)] + rest;
    var tail := [IsT, DistinctT, FromT] + operand;
    assert s[1..] == tail && operand[1..] == rest;
    Atom(s, Col(c));
    ClimbPrimary(s, Col(c), tail);
    Atom(operand, Param(i));
    ClimbPrimary(operand, Param(i), rest);
    DistinctStep(s, Col(c), operand, Param(i), rest);
  }

  lemma DistinctStep(s: seq<Token>, l: Expr, operand: seq<Token>, r: Expr, rest: seq<Token>)
    requires ParseCmp(s) == Got(l, [IsT, DistinctT, FromT] + operand)
    requires ParseCmp(operand) == Got(r, rest) && !StartsWith(s, NotT)
    ensures ParseNot(s) == Got(IsDistinct(l, r), rest)
  {
    var tail := [IsT, DistinctT, FromT] + operand;
    assert tail[1] == DistinctT && tail[3..] == operand;
    assert ParseIs(s) == Got(IsDistinct(l, r), rest);
  }

  lemma NotNullShape(c: Column, rest: seq<Token>)
    ensures ParseNot([ColT(c), IsT, NotT, NullT] + rest) == Got(IsNotNull(Col(c)), rest)
  {
    var s := [ColT(c), IsT, NotT, NullT] + rest;
    assert s[1..][3..] == rest;
    Atom(s, Col(c));
    ClimbPrimary(s, Col(c), s[1..]);
    assert [IsT, NotT, NullT] <= s[1..];
    assert ParseIs(s) == Got(IsNotNull(Col(c)), rest);
  }

  /** `x = ANY (list)` and `x <> ALL (list)`, given both operands. */
  lemma QuantifiedShape(any: bool, s: seq<Token>, x: Expr, inner: seq<Token>, l: Expr, rest: seq<Token>)
    requires Ends(rest) && !StartsWith(s, NotT)
    requires ParsePrimary(s) == Got(x, [CmpT(if any then EqOp else NeOp), if any then AnyT else AllT, LParen] + inner)
    requires ParseOr(inner) == Got(l, [RParen] + rest)
    ensures ParseNot(s) == Got(if any then EqAny(x, l) else NeAll(x, l), rest)
  {
    hide ParseNot, ParseCmp, ParseLike, ParsePrimary, ParseOr;
    var op, word := if any then EqOp else NeOp, if any then AnyT else AllT;
    var tail := [CmpT(op), word, LParen] + inner;
    ClimbPrimary(s, x, tail);
    QuantifiedStep(any, s, x, inner, l, rest);
    ClimbCmp(s, if any then EqAny(x, l) else NeAll(x, l), rest);
  }

  lemma QuantifiedStep(any: bool, s: seq<Token>, x: Expr, inner: seq<Token>, l: Expr, rest: seq<Token>)
    requires ParseLike(s) == Got(x, [CmpT(if any then EqOp else NeOp), if any then AnyT else AllT, LParen] + inner)
    requires ParseOr(inner) == Got(l, [RParen] + rest)
    ensures ParseCmp(s) == Got(if any then EqAny(x, l) else NeAll(x, l), rest)
  {
    hide ParseLike, ParseOr;
    var head := [CmpT(if any then EqOp else NeOp), if any then AnyT else AllT, LParen];
    assert (head + inner)[3..] == inner && ([RParen] + rest)[1..] == rest;
    assert head <= head + inner;
    assert (head + inner)[1] == if any then AnyT else AllT;
  }

  /** A primary standing alone between parentheses. */
  lemma ListOperand(inner: seq<Token>, l: Expr, rest: seq<Token>)
    requires ParsePrimary(inner) == Got(l, [RParen] + rest)
    ensures ParseOr(inner) == Got(l, [RParen] + rest)
  {
    ClimbPrimary(inner, l, [RParen] + rest);
    ClimbCmp(inner, l, [RParen] + rest);
    ClimbNot(inner, l, [RParen] + rest);
  }

  lemma OverlapShape(c: Column, i: nat, rest: seq<Token>)
    requires Ends(rest)
    ensures ParseNot([ColT(c), OverlapT, ParamT(i), CastT] + rest)
         == Got(Overlaps(Col(c), AsTextArray(Param(i))), rest)
  {
    hide ParseNot, ParseLike, ParseOther, ParsePrimary;
    var s := [ColT(c), OverlapT, ParamT(i), CastT] + rest;
    var operand := [ParamT(i), CastT] + rest;
    assert s[1..] == [OverlapT] + operand;
    Atom(s, Col(c));
    CastParam(i, rest);
    OtherStep(s, Col(c), OverlapT, operand, AsTextArray(Param(i)), rest);
    ClimbLike(s, Overlaps(Col(c), AsTextArray(Param(i))), rest);
  }

  /** `(a && b)` and `(NOT (a && b))`, as emitted for the set targets. */
  lemma OverlapParens(c: Column, i: nat, rest: seq<Token>)
    requires Ends(rest)
    ensures ParseNot([LParen, ColT(c), OverlapT, ParamT(i), CastT, RParen] + rest)
         == Got(Overlaps(Col(c), AsTextArray(Param(i))), rest)
  {
    hide ParseNot, ParseOr;
    var inner := [ColT(c), OverlapT, ParamT(i), CastT];
    var e := Overlaps(Col(c), AsTextArray(Param(i)));
    OverlapShape(c, i, [RParen] + rest);
    ClimbNot(inner + ([RParen] + rest), e, [RParen] + rest);
    Enclosed(inner, e, rest);
    assert [LParen] + inner + [RParen]
        == [LParen, ColT(c), OverlapT, ParamT(i), CastT, RParen];
  }

  lemma NotOverlapParens(c: Column, i: nat, rest: seq<Token>)
    requires Ends(rest)
    ensures ParseNot([LParen, NotT, LParen, ColT(c), OverlapT, ParamT(i), CastT, RParen, RParen] + rest)
         == Got(Not(Overlaps(Col(c), AsTextArray(Param(i)))), rest)
  {
    var operand := [LParen, ColT(c), OverlapT, ParamT(i), CastT, RParen];
    var inner := [NotT] + operand;
    var e := Not(Overlaps(Col(c), AsTextArray(Param(i))));
    OverlapParens(c, i, [RParen] + rest);
    hide ParseNot, ParseOr;
    NotStep(operand + ([RParen] + rest), e.e, [RParen] + rest);
    var s := inner + ([RParen] + rest);
    assert s == [NotT] + (operand + ([RParen] + rest));
    ClimbNot(s, e, [RParen] + rest);
    Enclosed(inner, e, rest);
    assert [LParen] + inner + [RParen]
        == [LParen, NotT, LParen, ColT(c), OverlapT, ParamT(i), CastT, RParen, RParen];
  }

  lemma NotStep(operand: seq<Token>, e: Expr, rest: seq<Token>)
    requires ParseNot(operand) == Got(e, rest)
    ensures ParseNot([NotT] + operand) == Got(Not(e), rest)
  {
    assert ([NotT] + operand)[1..] == operand;
  }

  /** A parenthesised boolean expression as a condition. */
  lemma Enclosed(inner: seq<Token>, e: Expr, rest: seq<Token>)
    requires ParseOr(inner + ([RParen] + rest)) == Got(e, [RParen] + rest) && Ends(rest)
    ensures ParseNot([LParen] + inner + [RParen] + rest) == Got(e, rest)
  {
    var s := [LParen] + inner + [RParen] + rest;
    Parens(inner, e, rest);
    ClimbPrimary(s, e, rest);
    ClimbCmp(s, e, rest);
  }

  lemma AndStep(s: seq<Token>, le: Expr, right: seq<Token>, re: Expr, rest: seq<Token>)
    requires ParseNot(s) == Got(le, [AndT] + right)
    requires ParseAnd(right) == Got(re, rest) && !StartsWith(rest, OrT)
    ensures ParseAnd(s) == Got(And(le, re), rest)
    ensures ParseOr(s) == Got(And(le, re), rest)
  {
    assert ([AndT] + right)[1..] == right;
    assert ParseAnd(s) == Got(And(le, re), rest);
  }

  lemma OrStep(s: seq<Token>, le: Expr, right: seq<Token>, re: Expr, rest: seq<Token>)
    requires ParseAnd(s) == Got(le, [OrT] + right)
    requires ParseOr(right) == Got(re, rest)
    ensures ParseOr(s) == Got(Or(le, re), rest)
  {
    assert ([OrT] + right)[1..] == right;
  }

  lemma ClimbAnd(s: seq<Token>, e: Expr, rest: seq<Token>)
    requires ParseAnd(s) == Got(e, rest) && !StartsWith(rest, OrT)
    ensures ParseOr(s) == Got(e, rest)
  {
  }

  /** `(l AND r)`. */
  lemma EnclosedAnd(l: seq<Token>, le: Expr, r: seq<Token>, re: Expr, rest: seq<Token>)
    requires Ends(rest)
    requires ParseNot(l + ([AndT] + (r + ([RParen] + rest)))) == Got(le, [AndT] + (r + ([RParen] + rest)))
    requires ParseNot(r + ([RParen] + rest)) == Got(re, [RParen] + rest)
    ensures ParseNot([LParen] + (l + [AndT] + r) + [RParen] + rest) == Got(And(le, re), rest)
  {
    hide ParseNot, ParseAnd, ParseOr;
    var right := r + ([RParen] + rest);
    ClimbNot(right, re, [RParen] + rest);
    AndStep(l + ([AndT] + right), le, right, re, [RParen] + rest);
    assert (l + [AndT] + r) + ([RParen] + rest) == l + ([AndT] + right);
    Enclosed(l + [AndT] + r, And(le, re), rest);
  }

  // ---- one condition ----

  lemma Constant(b: bool, rest: seq<Token>)
    requires Ends(rest)
    ensures ParseNot([if b then TrueT else FalseT] + rest) == Got(Lit(b), rest)
  {
    var s := [if b then TrueT else FalseT] + rest;
    assert s[1..] == rest;
    Atom(s, Lit(b));
    ClimbPrimary(s, Lit(b), rest);
    ClimbCmp(s, Lit(b), rest);
  }

  lemma BetweenShape(c: Column, i: nat, j: nat, rest: seq<Token>)
    requires Ends(rest)
    ensures ParseNot([LParen, LParen, ColT(c), RParen, CmpT(GeOp), ParamT(i), AndT,
                      LParen, ColT(c), RParen, CmpT(LeOp), ParamT(j), RParen] + rest)
         == Got(And(Cmp(GeOp, Col(c), Param(i)), Cmp(LeOp, Col(c), Param(j))), rest)
  {
    hide ParseNot;
    var l := [LParen, ColT(c), RParen, CmpT(GeOp), ParamT(i)];
    var r := [LParen, ColT(c), RParen, CmpT(LeOp), ParamT(j)];
    var afterR := [RParen] + rest;
    var afterL := [AndT] + (r + afterR);
    OrderShape(c, LeOp, j, afterR);
    OrderShape(c, GeOp, i, afterL);
    EnclosedAnd(l, Cmp(GeOp, Col(c), Param(i)), r, Cmp(LeOp, Col(c), Param(j)), rest);
    assert [LParen] + (l + [AndT] + r) + [RParen]
        == [LParen, LParen, ColT(c), RParen, CmpT(GeOp), ParamT(i), AndT,
            LParen, ColT(c), RParen, CmpT(LeOp), ParamT(j), RParen];
  }

  /** `(x) op $i`. */
  lemma OrderShape(c: Column, op: CmpOp, i: nat, rest: seq<Token>)
    requires Ends(rest)
    ensures ParseNot([LParen, ColT(c), RParen, CmpT(op), ParamT(i)] + rest)
         == Got(Cmp(op, Col(c), Param(i)), rest)
  {
    var tail := [CmpT(op), ParamT(i)] + rest;
    ParenColumn(c, tail);
    assert [LParen, ColT(c), RParen] + tail == [LParen, ColT(c), RParen, CmpT(op), ParamT(i)] + rest;
    Comparison([LParen, ColT(c), RParen] + tail, Col(c), op, i, rest);
  }

  lemma PlainShape(c: Column, op: CmpOp, i: nat, rest: seq<Token>)
    requires Ends(rest)
    ensures ParseNot([ColT(c), CmpT(op), ParamT(i)] + rest) == Got(Cmp(op, Col(c), Param(i)), rest)
  {
    var s := [ColT(c), CmpT(op), ParamT(i)] + rest;
    assert s[1..] == [CmpT(op), ParamT(i)] + rest;
    Atom(s, Col(c));
    Comparison(s, Col(c), op, i, rest);
  }

  /** `x = ANY($i::text[])` and `x <> ALL($i::text[])`. */
  lemma ListShape(any: bool, c: Column, i: nat, rest: seq<Token>)
    requires Ends(rest)
    ensures ParseNot([ColT(c), CmpT(if any then EqOp else NeOp), if any then AnyT else AllT, LParen,
                      ParamT(i), CastT, RParen] + rest)
         == Got(if any then EqAny(Col(c), AsTextArray(Param(i))) else NeAll(Col(c), AsTextArray(Param(i))),
                rest)
  {
    var inner := [ParamT(i), CastT] + ([RParen] + rest);
    CastParam(i, [RParen] + rest);
    ListOperand(inner, AsTextArray(Param(i)), rest);
    var s := [ColT(c), CmpT(if any then EqOp else NeOp), if any then AnyT else AllT, LParen,
              ParamT(i), CastT, RParen] + rest;
    assert s[1..] == [CmpT(if any then EqOp else NeOp), if any then AnyT else AllT, LParen] + inner;
    Atom(s, Col(c));
    QuantifiedShape(any, s, Col(c), inner, AsTextArray(Param(i)), rest);
  }

  lemma NotInShape(c: Column, i: nat, rest: seq<Token>)
    requires Ends(rest)
    ensures ParseNot([LParen, ColT(c), IsT, NotT, NullT, AndT, ColT(c), CmpT(NeOp), AllT, LParen,
                      ParamT(i), CastT, RParen, RParen] + rest)
         == Got(And(IsNotNull(Col(c)), NeAll(Col(c), AsTextArray(Param(i)))), rest)
  {
    hide ParseNot;
    var l := [ColT(c), IsT, NotT, NullT];
    var r := [ColT(c), CmpT(NeOp), AllT, LParen, ParamT(i), CastT, RParen];
    NotNullShape(c, [AndT] + (r + ([RParen] + rest)));
    ListShape(false, c, i, [RParen] + rest);
    EnclosedAnd(l, IsNotNull(Col(c)), r, NeAll(Col(c), AsTextArray(Param(i))), rest);
    assert [LParen] + (l + [AndT] + r) + [RParen]
        == [LParen, ColT(c), IsT, NotT, NullT, AndT, ColT(c), CmpT(NeOp), AllT, LParen,
            ParamT(i), CastT, RParen, RParen];
  }

  lemma MemberShape(c: Column, i: nat, rest: seq<Token>)
    requires Ends(rest)
    ensures ParseNot([ParamT(i), CmpT(EqOp), AnyT, LParen, ColT(c), RParen] + rest)
         == Got(EqAny(Param(i), Col(c)), rest)
  {
    var inner := [ColT(c)] + ([RParen] + rest);
    assert inner[1..] == [RParen] + rest;
    Atom(inner, Col(c));
    ListOperand(inner, Col(c), rest);
    var s := [ParamT(i), CmpT(EqOp), AnyT, LParen, ColT(c), RParen] + rest;
    assert s[1..] == [CmpT(EqOp), AnyT, LParen] + inner;
    Atom(s, Param(i));
    QuantifiedShape(true, s, Param(i), inner, Col(c), rest);
  }

  /** Every condition, validated or not, parses back wherever it is embedded. */
  lemma ConditionParsesBack(c: Condition, base: nat, rest: seq<Token>)
    requires Ends(rest)
    ensures ParseNot(CondTokens(c, base) + rest) == Got(CondExpr(c, base), rest)
  {
    hide ParseNot;
    var x := Fact(c.target);
    var i := base + 1;
    Constant(true, rest);
    Constant(false, rest);
    if c.target.Kind() == StringListKind {
      match c.op {
        case Eq => MemberShape(x, i, rest);
        case In => OverlapParens(x, i, rest);
        case NotIn => NotOverlapParens(x, i, rest);
        case _ =>
      }
    } else {
      match c.op {
        case Eq => PlainShape(x, EqOp, i, rest);
        case Neq => PlainShape(x, NeOp, i, rest); DistinctShape(x, i, rest);
        case Gt | Gte | Lt | Lte => OrderShape(x, OrderOp(c.op), i, rest);
        case Between => BetweenShape(x, i, base + 2, rest);
        case Contains => LikeShape(x, i, rest);
        case Regex => RegexShape(x, i, rest);
        case In => ListShape(true, x, i, rest);
        case NotIn => NotInShape(x, i, rest);
      }
    }
  }

  // ---- groups and trees ----

  lemma {:induction false} ConjunctionParsesBack(cs: seq<Condition>, base: nat, rest: seq<Token>)
    requires cs != [] && StartsWith(rest, RParen)
    ensures ParseAnd(Join(CondClauses(cs, base), AndT) + rest) == Got(ConjExpr(cs, base), rest)
  {
    hide CondTokens, CondExpr, CondBinds;
    var first := CondTokens(cs[0], base);
    var e := CondExpr(cs[0], base);
    if |cs| == 1 {
      assert CondClauses(cs, base) == [first];
      ConditionParsesBack(cs[0], base, rest);
      ClimbNot(first + rest, e, rest);
    } else {
      var next := base + |CondBinds(cs[0])|;
      var tail := Join(CondClauses(cs[1..], next), AndT) + rest;
      ConjunctionParsesBack(cs[1..], next, rest);
      var after := [AndT] + tail;
      assert after[1..] == tail;
      ConditionParsesBack(cs[0], base, after);
      assert CondClauses(cs, base)[1..] == CondClauses(cs[1..], next);
      assert Join(CondClauses(cs, base), AndT) + rest == first + after;
      AndStep(first + after, e, tail, ConjExpr(cs[1..], next), rest);
    }
  }

  lemma GroupParsesBack(g: ConditionGroup, base: nat, rest: seq<Token>)
    requires Ends(rest) && !StartsWith(rest, AndT)
    ensures ParseAnd(GroupTokens(g, base) + rest) == Got(GroupExpr(g, base), rest)
  {
    if g.conditions == [] {
      Constant(false, rest);
    } else {
      var inner := Join(CondClauses(g.conditions, base), AndT);
      var e := ConjExpr(g.conditions, base);
      ConjunctionParsesBack(g.conditions, base, [RParen] + rest);
      assert ParseOr(inner + ([RParen] + rest)) == Got(e, [RParen] + rest);
      Enclosed(inner, e, rest);
    }
    ClimbNot(GroupTokens(g, base) + rest, GroupExpr(g, base), rest);
  }

  lemma {:induction false} DisjunctionParsesBack(gs: seq<ConditionGroup>, base: nat, rest: seq<Token>)
    requires gs != [] && StartsWith(rest, RParen)
    ensures ParseOr(Join(GroupClauses(gs, base), OrT) + rest) == Got(DisjExpr(gs, base), rest)
  {
    hide GroupTokens, GroupExpr, CondsBinds, ParseOr, ParseAnd;
    var first := GroupTokens(gs[0], base);
    if |gs| == 1 {
      assert GroupClauses(gs, base) == [first];
      GroupParsesBack(gs[0], base, rest);
      ClimbAnd(first + rest, GroupExpr(gs[0], base), rest);
    } else {
      var next := base + |CondsBinds(gs[0].conditions)|;
      var tail := Join(GroupClauses(gs[1..], next), OrT) + rest;
      DisjunctionParsesBack(gs[1..], next, rest);
      var after := [OrT] + tail;
      assert after[1..] == tail;
      GroupParsesBack(gs[0], base, after);
      assert GroupClauses(gs, base)[1..] == GroupClauses(gs[1..], next);
      assert Join(GroupClauses(gs, base), OrT) + rest == first + after;
      OrStep(first + after, GroupExpr(gs[0], base), tail, DisjExpr(gs[1..], next), rest);
    }
  }

  /** The whole clause is one primary-like conjunct in any context. */
  lemma RuleParsesBack(tree: RuleTree, offset: nat, rest: seq<Token>)
    requires Ends(rest)
    ensures ParseNot(RuleTokens(tree, offset) + rest) == Got(RuleExpr(tree, offset), rest)
  {
    if tree.grantOnAnyRelation {
      Constant(true, rest);
    } else if tree.groups == [] {
      Constant(false, rest);
    } else {
      DisjunctionParsesBack(tree.groups, offset, [RParen] + rest);
      Enclosed(Join(GroupClauses(tree.groups, offset), OrT), DisjExpr(tree.groups, offset), rest);
    }
  }

  lemma ClauseParsesBack(tree: RuleTree, offset: nat)
    ensures ParseOr(RuleTokens(tree, offset)) == Got(RuleExpr(tree, offset), [])
  {
    RuleParsesBack(tree, offset, []);
    var s := RuleTokens(tree, offset);
    assert s + [] == s;
    ClimbNot(s, RuleExpr(tree, offset), []);
  }
}
