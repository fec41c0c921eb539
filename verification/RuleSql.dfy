/** The rule compiler: a rule tree becomes a WHERE clause and its numbered binds. */
module RuleSql {
  import opened Wrappers
  import opened Rules
  import opened Sql
  import Like

  datatype Bind = BoolBind(b: bool) | IntBind(n: int) | TextBind(s: string) | TextArrayBind(a: seq<string>)
  {
    function Value(): Value {
      match this
      case BoolBind(b) => VBool(b)
      case IntBind(n) => VInt(n)
      case TextBind(s) => VText(s)
      case TextArrayBind(a) => VArray(a)
    }
  }

  function BindValues(binds: seq<Bind>): seq<Value> {
    seq(|binds|, i requires 0 <= i < |binds| => binds[i].Value())
  }

  // ---- what one condition compiles to ----

  function StrOrEmpty(v: Json): string {
    if v.Str? then v.s else ""
  }

  function IntOr(v: Json, default: int): int {
    var n := v.AsI64();
    if n.Some? then n.value else default
  }

  function UpperBound(c: Condition): int {
    var lo := IntOr(c.value, 0);
    if c.valueEnd.Some? then IntOr(c.valueEnd.value, lo) else lo
  }

  function ListBinds(c: Condition): seq<Bind> {
    if StrArray(c) == [] then [] else [TextArrayBind(StrArray(c))]
  }

  function CondBinds(c: Condition): seq<Bind> {
    if c.target.Kind() == StringListKind then
      match c.op
      case Eq => [TextBind(StrOrEmpty(c.value))]
      case In | NotIn => ListBinds(c)
      case _ => []
    else
      match c.op
      case Eq =>
        if c.value.Bool? then [BoolBind(c.value.b)]
        else if c.value.AsI64().Some? then [IntBind(c.value.n)]
        else [TextBind(StrOrEmpty(c.value))]
      case Neq =>
        if c.value.AsI64().Some? then [IntBind(c.value.n)] else [TextBind(StrOrEmpty(c.value))]
      case Gt | Gte | Lt | Lte => [IntBind(IntOr(c.value, 0))]
      case Between => [IntBind(IntOr(c.value, 0)), IntBind(UpperBound(c))]
      case Contains => [TextBind("%" + Like.EscapeLike(StrOrEmpty(c.value)) + "%")]
      case Regex => [TextBind(StrOrEmpty(c.value))]
      case In | NotIn => ListBinds(c)
  }

  function OrderOp(op: Operator): CmpOp {
    match op
    case Gt => GtOp
    case Gte => GeOp
    case Lt => LtOp
    case _ => LeOp
  }

  /** The emitted tokens; the first placeholder is `$(base + 1)`. */
  function CondTokens(c: Condition, base: nat): seq<Token> {
    var x := ColT(Fact(c.target));
    var p := ParamT(base + 1);
    if c.target.Kind() == StringListKind then
      match c.op
      case Eq => [p, CmpT(EqOp), AnyT, LParen, x, RParen]
      case In =>
        if StrArray(c) == [] then [FalseT] else [LParen, x, OverlapT, p, CastT, RParen]
      case NotIn =>
        if StrArray(c) == [] then [TrueT]
        else [LParen, NotT, LParen, x, OverlapT, p, CastT, RParen, RParen]
      case _ => [FalseT]
    else
      match c.op
      case Eq => [x, CmpT(EqOp), p]
      case Neq =>
        if c.value.AsI64().Some? then [x, CmpT(NeOp), p] else [x, IsT, DistinctT, FromT, p]
      case Gt | Gte | Lt | Lte => [LParen, x, RParen, CmpT(OrderOp(c.op)), p]
      case Between =>
        [LParen, LParen, x, RParen, CmpT(GeOp), p, AndT,
         LParen, x, RParen, CmpT(LeOp), ParamT(base + 2), RParen]
      case Contains => [x, LikeT, p]
      case Regex => [x, MatchT, p]
      case In =>
        if StrArray(c) == [] then [FalseT] else [x, CmpT(EqOp), AnyT, LParen, p, CastT, RParen]
      case NotIn =>
        if StrArray(c) == [] then [TrueT]
        else [LParen, x, IsT, NotT, NullT, AndT, x, CmpT(NeOp), AllT, LParen, p, CastT, RParen, RParen]
  }

  /** The expression the tokens are meant to denote. */
  function CondExpr(c: Condition, base: nat): Expr {
    var x := Col(Fact(c.target));
    var p := Param(base + 1);
    var list := AsTextArray(p);
    if c.target.Kind() == StringListKind then
      match c.op
      case Eq => EqAny(p, x)
      case In => if StrArray(c) == [] then Lit(false) else Overlaps(x, list)
      case NotIn => if StrArray(c) == [] then Lit(true) else Not(Overlaps(x, list))
      case _ => Lit(false)
    else
      match c.op
      case Eq => Cmp(EqOp, x, p)
      case Neq => if c.value.AsI64().Some? then Cmp(NeOp, x, p) else IsDistinct(x, p)
      case Gt | Gte | Lt | Lte => Cmp(OrderOp(c.op), x, p)
      case Between => And(Cmp(GeOp, x, p), Cmp(LeOp, x, Param(base + 2)))
      case Contains => LikeOp(x, p)
      case Regex => RegexOp(x, p)
      case In => if StrArray(c) == [] then Lit(false) else EqAny(x, list)
      case NotIn => if StrArray(c) == [] then Lit(true) else And(IsNotNull(x), NeAll(x, list))
  }

  // ---- groups and trees ----

  function CondsBinds(cs: seq<Condition>): seq<Bind> {
    if cs == [] then [] else CondBinds(cs[0]) + CondsBinds(cs[1..])
  }

  function CondClauses(cs: seq<Condition>, base: nat): (r: seq<seq<Token>>)
    ensures |r| == |cs|
  {
    if cs == [] then []
    else [CondTokens(cs[0], base)] + CondClauses(cs[1..], base + |CondBinds(cs[0])|)
  }

  function Join(clauses: seq<seq<Token>>, sep: Token): seq<Token> {
    if clauses == [] then []
    else if |clauses| == 1 then clauses[0]
    else clauses[0] + [sep] + Join(clauses[1..], sep)
  }

  function GroupTokens(g: ConditionGroup, base: nat): seq<Token> {
    if g.conditions == [] then [FalseT]
    else [LParen] + Join(CondClauses(g.conditions, base), AndT) + [RParen]
  }

  function GroupsBinds(gs: seq<ConditionGroup>): seq<Bind> {
    if gs == [] then [] else CondsBinds(gs[0].conditions) + GroupsBinds(gs[1..])
  }

  function GroupClauses(gs: seq<ConditionGroup>, base: nat): (r: seq<seq<Token>>)
    ensures |r| == |gs|
  {
    if gs == [] then []
    else [GroupTokens(gs[0], base)] + GroupClauses(gs[1..], base + |CondsBinds(gs[0].conditions)|)
  }

  function RuleTokens(tree: RuleTree, offset: nat): seq<Token> {
    if tree.grantOnAnyRelation then [TrueT]
    else if tree.groups == [] then [FalseT]
    else [LParen] + Join(GroupClauses(tree.groups, offset), OrT) + [RParen]
  }

  function RuleBinds(tree: RuleTree): seq<Bind> {
    if tree.grantOnAnyRelation then [] else GroupsBinds(tree.groups)
  }

  function ConjExpr(cs: seq<Condition>, base: nat): Expr
    requires cs != []
  {
    var first := CondExpr(cs[0], base);
    if |cs| == 1 then first else And(first, ConjExpr(cs[1..], base + |CondBinds(cs[0])|))
  }

  function GroupExpr(g: ConditionGroup, base: nat): Expr {
    if g.conditions == [] then Lit(false) else ConjExpr(g.conditions, base)
  }

  function DisjExpr(gs: seq<ConditionGroup>, base: nat): Expr
    requires gs != []
  {
    var first := GroupExpr(gs[0], base);
    if |gs| == 1 then first
    else Or(first, DisjExpr(gs[1..], base + |CondsBinds(gs[0].conditions)|))
  }

  /** The OR of ANDs that the clause for a tree is meant to denote. */
  function RuleExpr(tree: RuleTree, offset: nat): Expr {
    if tree.grantOnAnyRelation then Lit(true)
    else if tree.groups == [] then Lit(false)
    else DisjExpr(tree.groups, offset)
  }

  // ---- the compiler itself ----

  /** The growing list of binds that the compiler passes along. */
  class BindList {
    var items: seq<Bind>

    constructor ()
      ensures items == []
    {
      items := [];
    }

    method Push(b: Bind)
      modifies this
      ensures items == old(items) + [b]
    {
      items := items + [b];
    }

    method Next(offset: nat) returns (i: nat)
      ensures i == offset + |items| + 1
    {
      i := offset + |items| + 1;
    }
  }

  method BuildCondition(c: Condition, offset: nat, binds: BindList) returns (clause: seq<Token>)
    modifies binds
    ensures binds.items == old(binds.items) + CondBinds(c)
    ensures clause == CondTokens(c, offset + |old(binds.items)|)
  {
    var x := ColT(Fact(c.target));
    if c.target.Kind() == StringListKind {
      clause := BuildStringListCondition(c, offset, binds);
      return;
    }
    var i := binds.Next(offset);
    match c.op {
      case Eq =>
        if c.value.Bool? {
          binds.Push(BoolBind(c.value.b));
        } else if c.value.AsI64().Some? {
          binds.Push(IntBind(c.value.n));
        } else {
          binds.Push(TextBind(StrOrEmpty(c.value)));
        }
        clause := [x, CmpT(EqOp), ParamT(i)];
      case Neq =>
        if c.value.AsI64().Some? {
          binds.Push(IntBind(c.value.n));
          clause := [x, CmpT(NeOp), ParamT(i)];
        } else {
          binds.Push(TextBind(StrOrEmpty(c.value)));
          clause := [x, IsT, DistinctT, FromT, ParamT(i)];
        }
      case Gt | Gte | Lt | Lte =>
        binds.Push(IntBind(IntOr(c.value, 0)));
        clause := [LParen, x, RParen, CmpT(OrderOp(c.op)), ParamT(i)];
      case Between =>
        binds.Push(IntBind(IntOr(c.value, 0)));
        var j := binds.Next(offset);
        binds.Push(IntBind(UpperBound(c)));
        clause := [LParen, LParen, x, RParen, CmpT(GeOp), ParamT(i), AndT,
                   LParen, x, RParen, CmpT(LeOp), ParamT(j), RParen];
      case Contains =>
        binds.Push(TextBind("%" + Like.EscapeLike(StrOrEmpty(c.value)) + "%"));
        clause := [x, LikeT, ParamT(i)];
      case Regex =>
        binds.Push(TextBind(StrOrEmpty(c.value)));
        clause := [x, MatchT, ParamT(i)];
      case In =>
        var arr := StrArray(c);
        if arr == [] {
          return [FalseT];
        }
        binds.Push(TextArrayBind(arr));
        clause := [x, CmpT(EqOp), AnyT, LParen, ParamT(i), CastT, RParen];
      case NotIn =>
        var arr := StrArray(c);
        if arr == [] {
          return [TrueT];
        }
        binds.Push(TextArrayBind(arr));
        clause := [LParen, x, IsT, NotT, NullT, AndT, x, CmpT(NeOp), AllT, LParen,
                   ParamT(i), CastT, RParen, RParen];
    }
  }

  method BuildStringListCondition(c: Condition, offset: nat, binds: BindList) returns (clause: seq<Token>)
    requires c.target.Kind() == StringListKind
    modifies binds
    ensures binds.items == old(binds.items) + CondBinds(c)
    ensures clause == CondTokens(c, offset + |old(binds.items)|)
  {
    var x := ColT(Fact(c.target));
    var i := binds.Next(offset);
    match c.op {
      case Eq =>
        binds.Push(TextBind(StrOrEmpty(c.value)));
        clause := [ParamT(i), CmpT(EqOp), AnyT, LParen, x, RParen];
      case In =>
        var arr := StrArray(c);
        if arr == [] {
          return [FalseT];
        }
        binds.Push(TextArrayBind(arr));
        clause := [LParen, x, OverlapT, ParamT(i), CastT, RParen];
      case NotIn =>
        var arr := StrArray(c);
        if arr == [] {
          return [TrueT];
        }
        binds.Push(TextArrayBind(arr));
        clause := [LParen, NotT, LParen, x, OverlapT, ParamT(i), CastT, RParen, RParen];
      case _ =>
        clause := [FalseT];
    }
  }

  /** The inner loop of `BuildRuleWhere`: the clauses of one AND-group. */
  method BuildConditions(conds: seq<Condition>, offset: nat, list: BindList)
    returns (clauses: seq<seq<Token>>)
    modifies list
    ensures list.items == old(list.items) + CondsBinds(conds)
    ensures clauses == CondClauses(conds, offset + |old(list.items)|)
  {
    hide CondBinds, CondTokens;
    clauses := [];
    for ci := 0 to |conds|
      invariant list.items + CondsBinds(conds[ci..]) == old(list.items) + CondsBinds(conds)
      invariant clauses + CondClauses(conds[ci..], offset + |list.items|)
             == CondClauses(conds, offset + |old(list.items)|)
    {
      assert conds[ci..][0] == conds[ci] && conds[ci..][1..] == conds[ci + 1..];
      var clause := BuildCondition(conds[ci], offset, list);
      clauses := clauses + [clause];
    }
  }

  lemma NextGroup(gs: seq<ConditionGroup>, i: nat, base: nat)
    requires i < |gs|
    ensures GroupsBinds(gs[i..]) == CondsBinds(gs[i].conditions) + GroupsBinds(gs[i + 1..])
    ensures GroupClauses(gs[i..], base)
         == [GroupTokens(gs[i], base)] + GroupClauses(gs[i + 1..], base + |CondsBinds(gs[i].conditions)|)
  {
    assert gs[i..][0] == gs[i] && gs[i..][1..] == gs[i + 1..];
  }

  lemma NoGroup(base: nat)
    ensures GroupsBinds([]) == [] && GroupClauses([], base) == []
  {
  }

  method BuildRuleWhere(tree: RuleTree, offset: nat) returns (clause: seq<Token>, binds: seq<Bind>)
    ensures clause == RuleTokens(tree, offset)
    ensures binds == RuleBinds(tree)
  {
    hide CondBinds, CondTokens, CondClauses, Join, GroupsBinds, GroupClauses;
    if tree.grantOnAnyRelation {
      return [TrueT], [];
    }
    if tree.groups == [] {
      NoGroup(offset);
      return [FalseT], [];
    }
    var gs := tree.groups;
    var list := new BindList();
    var groupClauses: seq<seq<Token>> := [];
    for gi := 0 to |gs|
      invariant fresh(list)
      invariant list.items + GroupsBinds(gs[gi..]) == GroupsBinds(gs)
      invariant groupClauses + GroupClauses(gs[gi..], offset + |list.items|) == GroupClauses(gs, offset)
    {
      var conds := gs[gi].conditions;
      NextGroup(gs, gi, offset + |list.items|);
      if conds == [] {
        groupClauses := groupClauses + [[FalseT]];
        continue;
      }
      var condClauses := BuildConditions(conds, offset, list);
      groupClauses := groupClauses + [[LParen] + Join(condClauses, AndT) + [RParen]];
    }
    NoGroup(offset + |list.items|);
    assert gs[|gs|..] == [] && groupClauses == GroupClauses(gs, offset);
    clause := [LParen] + Join(groupClauses, OrT) + [RParen];
    binds := list.items;
  }
}
