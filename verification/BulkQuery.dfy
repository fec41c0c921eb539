/** The bulk-sync query around a compiled rule: its placeholders, its parse and the
    rows it selects. */
module BulkQuery {
  import opened Wrappers
  import opened Rules
  import opened ConditionEval
  import opened Sql
  import opened RuleSql
  import opened RuleValidator
  import opened RuleEquivalence
  import SqlParsing

  /** Parameters ahead of the rule's own: the account and the opt-out list. */
  const OFFSET := 2

  const HEAD := [ColT(AccountRef), CmpT(EqOp), ParamT(1), AndT]
  const OPT_OUT := [ColT(DiscordId), CmpT(NeOp), AllT, LParen, ParamT(2), CastT, RParen]

  function QueryTokens(tree: RuleTree): seq<Token> {
    HEAD + OPT_OUT + [AndT, LParen] + RuleTokens(tree, OFFSET) + [RParen]
  }

  function LimitIndex(tree: RuleTree): nat {
    OFFSET + |RuleBinds(tree)| + 1
  }

  function QueryParams(tree: RuleTree, account: int, optouts: seq<string>, limit: nat): seq<Value> {
    [VInt(account), VArray(optouts)] + BindValues(RuleBinds(tree)) + [VInt(limit)]
  }

  function QueryExpr(tree: RuleTree): Expr {
    And(Cmp(EqOp, Col(AccountRef), Param(1)),
        And(NeAll(Col(DiscordId), AsTextArray(Param(2))), RuleExpr(tree, OFFSET)))
  }

  method BuildQuery(tree: RuleTree, account: int, optouts: seq<string>, limit: nat)
    returns (whereClause: seq<Token>, limitIndex: nat, params: seq<Value>)
    ensures whereClause == QueryTokens(tree)
    ensures limitIndex == LimitIndex(tree)
    ensures params == QueryParams(tree, account, optouts, limit)
  {
    var clause, binds := BuildRuleWhere(tree, 2);
    limitIndex := 2 + |binds| + 1;
    whereClause := HEAD + OPT_OUT + [AndT, LParen] + clause + [RParen];
    params := [VInt(account), VArray(optouts)];
    for i := 0 to |binds|
      invariant params == [VInt(account), VArray(optouts)] + BindValues(binds[..i])
    {
      assert BindValues(binds[..i + 1]) == BindValues(binds[..i]) + [binds[i].Value()];
      params := params + [binds[i].Value()];
    }
    assert binds[..|binds|] == binds;
    params := params + [VInt(limit)];
  }

  /** The rule stays one conjunct of the whole query, whatever OR it contains. */
  lemma QueryParsesBack(tree: RuleTree)
    ensures ParseOr(QueryTokens(tree)) == Got(QueryExpr(tree), [])
  {
    hide RuleTokens, RuleExpr, ParseNot, ParseAnd, ParseOr;
    var rule := RuleTokens(tree, OFFSET);
    var e := RuleExpr(tree, OFFSET);
    SqlParsing.RuleParsesBack(tree, OFFSET, [RParen]);
    SqlParsing.ClimbNot(rule + [RParen], e, [RParen]);
    assert [RParen] + [] == [RParen];
    SqlParsing.Enclosed(rule, e, []);
    var third := [LParen] + rule + [RParen];
    assert third + [] == third;
    SqlParsing.ClimbNot(third, e, []);

    var optOut := NeAll(Col(DiscordId), AsTextArray(Param(2)));
    SqlParsing.ListShape(false, DiscordId, 2, [AndT] + third);
    SqlParsing.AndStep(OPT_OUT + ([AndT] + third), optOut, third, e, []);
    var second := OPT_OUT + ([AndT] + third);

    SqlParsing.PlainShape(AccountRef, EqOp, 1, [AndT] + second);
    var whole := [ColT(AccountRef), CmpT(EqOp), ParamT(1)] + ([AndT] + second);
    SqlParsing.AndStep(whole, Cmp(EqOp, Col(AccountRef), Param(1)), second, And(optOut, e), []);
    assert QueryTokens(tree) == whole;
  }

  /** The query keeps a row exactly when it belongs to the account, its member has not
      opted out, and the rule's verdict on its facts is positive. */
  lemma QuerySelects(tree: RuleTree, account: int, optouts: seq<string>, limit: nat, row: Row, w: World)
    requires ValidTree(tree, w)
    ensures Keeps(QueryExpr(tree), row, QueryParams(tree, account, optouts, limit), w)
      <==> row.accountRef == account && row.discordId !in optouts && ClauseVerdict(tree, row.facts, w)
  {
    var before := [VInt(account), VArray(optouts)];
    var params := QueryParams(tree, account, optouts, limit);
    RuleMeaning(tree, before, [VInt(limit)], row, w);
    hide RuleExpr, RuleBinds, ClauseVerdict, Eval;
    var q := QueryExpr(tree);
    Leaves(row, params, w);
    BinaryValue(q.l, VInt(row.accountRef), VInt(account), row, params, w);
    BinaryValue(q.r.l, VText(row.discordId), VArray(optouts), row, params, w);
    var rule := Eval(q.r.r, row, params, w).v;
    var optOut := Binary(q.r.l, VText(row.discordId), VArray(optouts), w).v;
    BinaryValue(q.r, optOut, rule, row, params, w);
    BinaryValue(q, VBool(row.accountRef == account), And3(optOut, rule).v, row, params, w);
  }

  lemma Leaves(row: Row, params: seq<Value>, w: World)
    requires |params| >= 2
    ensures Eval(Col(AccountRef), row, params, w) == Val(VInt(row.accountRef))
    ensures Eval(Col(DiscordId), row, params, w) == Val(VText(row.discordId))
    ensures Eval(Param(1), row, params, w) == Val(params[0])
    ensures params[1].VArray? ==> Eval(AsTextArray(Param(2)), row, params, w) == Val(params[1])
  {
  }

  // ---- placeholder numbering ----

  function Placeholders(ts: seq<Token>): seq<nat> {
    if ts == [] then []
    else (if ts[0].ParamT? then [ts[0].index] else []) + Placeholders(ts[1..])
  }

  function Consecutive(from: nat, n: nat): seq<nat> {
    seq(n, i requires 0 <= i => from + i)
  }

  lemma {:induction false} PlaceholdersConcat(a: seq<Token>, b: seq<Token>)
    ensures Placeholders(a + b) == Placeholders(a) + Placeholders(b)
  {
    if a == [] {
      assert a + b == b;
    } else {
      assert (a + b)[1..] == a[1..] + b;
      PlaceholdersConcat(a[1..], b);
    }
  }

  /** A run of tokens holding one placeholder, at position `k`. */
  lemma {:induction false} OnePlaceholder(ts: seq<Token>, k: nat)
    requires k < |ts| && ts[k].ParamT? && forall j | 0 <= j < |ts| && j != k :: !ts[j].ParamT?
    ensures Placeholders(ts) == [ts[k].index]
  {
    if k == 0 {
      NoPlaceholders(ts[1..]);
    } else {
      OnePlaceholder(ts[1..], k - 1);
    }
  }

  lemma {:induction false} NoPlaceholders(ts: seq<Token>)
    requires forall t <- ts :: !t.ParamT?
    ensures Placeholders(ts) == []
  {
    if ts != [] {
      assert ts[0] in ts;
      NoPlaceholders(ts[1..]);
    }
  }

  lemma ConditionPlaceholders(c: Condition, base: nat)
    ensures Placeholders(CondTokens(c, base)) == Consecutive(base + 1, |CondBinds(c)|)
  {
    hide Placeholders;
    var ts := CondTokens(c, base);
    assert Consecutive(base + 1, 0) == [];
    assert Consecutive(base + 1, 1) == [base + 1];
    if |CondBinds(c)| == 0 {
      NoPlaceholders(ts);
    } else if c.target.Kind() == StringListKind {
      OnePlaceholder(ts, if c.op == Eq then 0 else if c.op == In then 3 else 5);
    } else if c.op == Between {
      BetweenPlaceholders(c, base);
    } else {
      var distinct := c.op == Neq && c.value.AsI64().None?;
      OnePlaceholder(ts, if c.op in {Gt, Gte, Lt, Lte, In} || distinct then 4
                         else if c.op == NotIn then 10 else 2);
    }
  }

  lemma BetweenPlaceholders(c: Condition, base: nat)
    requires c.target.Kind() != StringListKind && c.op == Between
    ensures Placeholders(CondTokens(c, base)) == Consecutive(base + 1, 2)
  {
    hide Placeholders;
    var ts := CondTokens(c, base);
    assert ts[..6] + ts[6..] == ts;
    PlaceholdersConcat(ts[..6], ts[6..]);
    OnePlaceholder(ts[..6], 5);
    OnePlaceholder(ts[6..], 5);
    assert Consecutive(base + 1, 2) == [base + 1] + [base + 2];
  }

  lemma ConsecutiveConcat(from: nat, m: nat, n: nat)
    ensures Consecutive(from, m) + Consecutive(from + m, n) == Consecutive(from, m + n)
  {
  }

  lemma {:induction false} JoinPlaceholders(first: seq<Token>, rest: seq<seq<Token>>, sep: Token)
    requires !sep.ParamT?
    ensures Placeholders(Join([first] + rest, sep)) == Placeholders(first) + Placeholders(Join(rest, sep))
  {
    if rest == [] {
      assert [first] + rest == [first];
    } else {
      assert ([first] + rest)[1..] == rest;
      PlaceholdersConcat(first + [sep], Join(rest, sep));
      PlaceholdersConcat(first, [sep]);
      NoPlaceholders([sep]);
    }
  }

  lemma {:induction false} ConjunctionPlaceholders(cs: seq<Condition>, base: nat)
    ensures Placeholders(Join(CondClauses(cs, base), AndT)) == Consecutive(base + 1, |CondsBinds(cs)|)
  {
    hide CondTokens, CondBinds;
    if cs != [] {
      var n := |CondBinds(cs[0])|;
      ConditionPlaceholders(cs[0], base);
      ConjunctionPlaceholders(cs[1..], base + n);
      JoinPlaceholders(CondTokens(cs[0], base), CondClauses(cs[1..], base + n), AndT);
      ConsecutiveConcat(base + 1, n, |CondsBinds(cs[1..])|);
    }
  }

  /** Enclosing parentheses hold no placeholder. */
  lemma ParenPlaceholders(inner: seq<Token>)
    ensures Placeholders([LParen] + inner + [RParen]) == Placeholders(inner)
  {
    PlaceholdersConcat([LParen] + inner, [RParen]);
    PlaceholdersConcat([LParen], inner);
    NoPlaceholders([LParen]);
    NoPlaceholders([RParen]);
  }

  lemma GroupPlaceholders(g: ConditionGroup, base: nat)
    ensures Placeholders(GroupTokens(g, base)) == Consecutive(base + 1, |CondsBinds(g.conditions)|)
  {
    if g.conditions == [] {
      NoPlaceholders(GroupTokens(g, base));
    } else {
      ConjunctionPlaceholders(g.conditions, base);
      ParenPlaceholders(Join(CondClauses(g.conditions, base), AndT));
    }
  }

  lemma {:induction false} DisjunctionPlaceholders(gs: seq<ConditionGroup>, base: nat)
    ensures Placeholders(Join(GroupClauses(gs, base), OrT)) == Consecutive(base + 1, |GroupsBinds(gs)|)
  {
    hide GroupTokens, CondsBinds;
    if gs != [] {
      var n := |CondsBinds(gs[0].conditions)|;
      GroupPlaceholders(gs[0], base);
      DisjunctionPlaceholders(gs[1..], base + n);
      JoinPlaceholders(GroupTokens(gs[0], base), GroupClauses(gs[1..], base + n), OrT);
      ConsecutiveConcat(base + 1, n, |GroupsBinds(gs[1..])|);
    }
  }

  /** Read left to right, the clause's placeholders are offset + 1, offset + 2, up to
      the number of binds: each appears once and none is skipped. */
  lemma RulePlaceholders(tree: RuleTree, offset: nat)
    ensures Placeholders(RuleTokens(tree, offset)) == Consecutive(offset + 1, |RuleBinds(tree)|)
  {
    if tree.grantOnAnyRelation || tree.groups == [] {
      NoPlaceholders(RuleTokens(tree, offset));
    } else {
      DisjunctionPlaceholders(tree.groups, offset);
      ParenPlaceholders(Join(GroupClauses(tree.groups, offset), OrT));
    }
  }

  /** In the whole query every parameter before the limit is used exactly once, in
      order, and the limit takes the one index left over. */
  lemma QueryPlaceholders(tree: RuleTree, account: int, optouts: seq<string>, limit: nat)
    ensures Placeholders(QueryTokens(tree)) + [LimitIndex(tree)]
         == Consecutive(1, |QueryParams(tree, account, optouts, limit)|)
    ensures QueryParams(tree, account, optouts, limit)[LimitIndex(tree) - 1] == VInt(limit)
  {
    hide Placeholders, RuleTokens, RuleBinds;
    var rule := RuleTokens(tree, OFFSET);
    var pre := HEAD + OPT_OUT + [AndT, LParen];
    PlaceholdersConcat(pre + rule, [RParen]);
    PlaceholdersConcat(pre, rule);
    PlaceholdersConcat(HEAD, OPT_OUT + [AndT, LParen]);
    assert pre == HEAD + (OPT_OUT + [AndT, LParen]);
    OnePlaceholder(HEAD, 2);
    OnePlaceholder(OPT_OUT + [AndT, LParen], 4);
    NoPlaceholders([RParen]);
    RulePlaceholders(tree, OFFSET);
    assert [1, 2] == Consecutive(1, 2);
    ConsecutiveConcat(1, 2, |RuleBinds(tree)|);
  }
}
