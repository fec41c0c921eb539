/** Saved rules survive being posted again, and the textual forms of a literal mean the
    same as the typed ones. */
module RuleRoundTrip {
  import opened Wrappers
  import opened Rules
  import opened Text
  import opened RuleValidator

  // ---- literals in text ----

  lemma {:induction false} DigitsRoundTrip(n: nat)
    ensures var s := Digits(n);
      s != [] && (forall c <- s :: IsDigit(c)) && DigitsValue(s) == n
  {
    if n < 10 {
      assert DigitsValue([]) == 0;
      assert Digits(n)[..0] == [];
    } else {
      DigitsRoundTrip(n / 10);
      var s := Digits(n);
      assert s[..|s| - 1] == Digits(n / 10);
    }
  }

  lemma DigitsAreNotWhite(c: char)
    requires IsDigit(c) || c == '-'
    ensures !IsWhite(c)
  {
  }

  lemma ParseSigned(digits: string, negative: bool)
    requires digits != [] && forall c <- digits :: IsDigit(c)
    requires I64_MIN <= (if negative then -DigitsValue(digits) else DigitsValue(digits)) <= I64_MAX
    ensures ParseI64(if negative then "-" + digits else digits)
         == Some(if negative then -DigitsValue(digits) else DigitsValue(digits))
  {
    assert digits[0] in digits;
    if negative {
      assert ("-" + digits)[1..] == digits;
    }
  }

  lemma IntTextIsTrimmed(n: int)
    ensures ShowInt(n) != [] && Trim(ShowInt(n)) == ShowInt(n)
  {
    var digits := Digits(if n < 0 then -n else n);
    DigitsRoundTrip(if n < 0 then -n else n);
    var s := ShowInt(n);
    assert digits[0] in digits && digits[|digits| - 1] in digits;
    hide Digits, DigitsValue, IsWhite;
    DigitsAreNotWhite(s[0]);
    DigitsAreNotWhite(s[|s| - 1]);
    TrimClean(s);
  }

  /** The decimal text of an i64 parses back to it, and has nothing to trim. */
  lemma IntTextRoundTrip(n: int)
    requires I64_MIN <= n <= I64_MAX
    ensures Trim(ShowInt(n)) == ShowInt(n) && ParseI64(ShowInt(n)) == Some(n)
  {
    IntTextIsTrimmed(n);
    DigitsRoundTrip(if n < 0 then -n else n);
    ParseSigned(Digits(if n < 0 then -n else n), n < 0);
    hide Digits, DigitsValue, ParseI64, Trim;
  }

  /** Posting a number as text is posting the number. */
  lemma NumberAsText(n: int, op: Operator, w: World)
    requires I64_MIN <= n <= I64_MAX
    ensures NormalizeValue(IntKind, op, Str(ShowInt(n)), w) == NormalizeValue(IntKind, op, Int(n), w)
  {
    IntTextRoundTrip(n);
  }

  function CommaList(xs: seq<string>): string
    requires xs != []
  {
    if |xs| == 1 then xs[0] else xs[0] + "," + CommaList(xs[1..])
  }

  function Strings(xs: seq<string>): seq<Json> {
    if xs == [] then [] else [Str(xs[0])] + Strings(xs[1..])
  }

  lemma {:induction false} SplitEntry(x: string, rest: string)
    requires ',' !in x
    ensures Split(x + "," + rest, ',') == [x] + Split(rest, ',')
    ensures Split(x, ',') == [x]
  {
    if x == [] {
      assert x + "," + rest == "," + rest && ("," + rest)[1..] == rest;
    } else {
      assert (x + "," + rest)[1..] == x[1..] + "," + rest;
      assert x == [x[0]] + x[1..];
      SplitEntry(x[1..], rest);
    }
  }

  lemma {:induction false} StringsAreKept(xs: seq<string>)
    requires forall x <- xs :: x != []
    ensures KeepEntries(Strings(xs)) == Strings(xs)
  {
    if xs != [] {
      assert xs[0] in xs && forall x <- xs[1..] :: x in xs;
      StringsAreKept(xs[1..]);
      assert Strings(xs)[1..] == Strings(xs[1..]);
    }
  }

  /** Posting a comma-separated text is posting the list of its entries. */
  lemma {:induction false} ListAsText(xs: seq<string>)
    requires xs != [] && forall x <- xs :: ',' !in x && Trim(x) == x && x != []
    ensures ListEntries(Str(CommaList(xs))) == Strings(xs) == ListEntries(Arr(Strings(xs)))
  {
    assert xs[0] in xs;
    StringsAreKept(xs);
    if |xs| == 1 {
      SplitEntry(xs[0], []);
      assert [xs[0]][1..] == [] && xs[1..] == [];
      assert TrimmedEntries([xs[0]]) == [Str(xs[0])] + TrimmedEntries([]);
      assert Strings(xs) == [Str(xs[0])] + Strings([]);
    } else {
      ListAsText(xs[1..]);
      var rest := CommaList(xs[1..]);
      SplitEntry(xs[0], rest);
      assert ([xs[0]] + Split(rest, ','))[1..] == Split(rest, ',');
      assert Strings(xs)[1..] == Strings(xs[1..]);
    }
  }

  // ---- posting a saved rule again ----

  /** The shape in which the validator stores a condition. */
  predicate Normal(c: Condition, w: World) {
    var kind := c.target.Kind();
    && ValidCondition(c, w)
    && (c.op == Between <==> c.valueEnd.Some?)
    && (kind == IntKind ==> c.value.Int? && (c.op == Between ==> c.valueEnd.value.Int?))
    && (c.value.Arr? ==> forall v <- c.value.items :: v != Null && v != Str(""))
    && (c.value.Str? ==> !Blank(c.value.s))
  }

  lemma {:induction false} EntriesAreKept(items: seq<Json>)
    requires forall v <- items :: v != Null && v != Str("")
    ensures KeepEntries(items) == items
  {
    if items != [] {
      assert items[0] in items && forall v <- items[1..] :: v in items;
      EntriesAreKept(items[1..]);
    }
  }

  lemma {:induction false} TrimmedEntriesAreFull(parts: seq<string>)
    ensures forall v <- TrimmedEntries(parts) :: v != Null && v != Str("")
  {
    if parts != [] {
      TrimmedEntriesAreFull(parts[1..]);
    }
  }

  lemma NormalizedShape(kind: Kind, op: Operator, raw: Json, w: World)
    requires op.ValidFor(kind) && forall x :: !Blank(w.showFloat(x))
    ensures var r := NormalizeValue(kind, op, raw, w);
      r.Some? ==>
        && (kind == IntKind ==> r.value.Int? && r.value.AsI64().Some?)
        && (r.value.Arr? ==> forall v <- r.value.items :: v != Null && v != Str(""))
        && (r.value.Str? ==> !Blank(r.value.s))
  {
    if (op == In || op == NotIn) && raw.Str? {
      TrimmedEntriesAreFull(Split(raw.s, ','));
    }
    if kind == StringKind {
      if raw.Int? {
        IntTextIsTrimmed(raw.n);
      } else if raw.Bool? {
        TrimClean("true");
        TrimClean("false");
      }
    }
  }

  lemma AcceptedIsNormal(g: nat, i: nat, raw: ConditionInput, w: World)
    requires forall x :: !Blank(w.showFloat(x))
    ensures var r := ValidateCondition(g, i, raw, w); r.Ok? ==> Normal(r.value, w)
  {
    var r := ValidateCondition(g, i, raw, w);
    ValidatedCondition(g, i, raw, w);
    if r.Ok? {
      NormalizedShape(r.value.target.Kind(), r.value.op, raw.value, w);
      if r.value.op == Between {
        NormalizedShape(r.value.target.Kind(), r.value.op, raw.valueEnd.value, w);
      }
    }
  }

  lemma TargetKeyRoundTrip(t: Target)
    ensures TargetFromKey(Trim(TargetKey(t))) == Some(t)
  {
    TrimClean(TargetKey(t));
  }

  lemma OperatorKeyRoundTrip(op: Operator)
    ensures OperatorFromKey(Trim(OperatorKey(op))) == Some(op)
  {
    TrimClean(OperatorKey(op));
  }

  /** The payload the rule builder posts for a saved condition. */
  function Posted(c: Condition): ConditionInput {
    ConditionInput(TargetKey(c.target), OperatorKey(c.op), c.value, c.valueEnd)
  }

  lemma NormalValueIsKept(c: Condition, w: World)
    requires Normal(c, w)
    ensures NormalizeValue(c.target.Kind(), c.op, c.value, w) == Some(c.value)
    ensures c.valueEnd.Some? ==> NormalizeValue(c.target.Kind(), c.op, c.valueEnd.value, w) == c.valueEnd
  {
    if c.value.Arr? {
      EntriesAreKept(c.value.items);
    }
  }

  lemma NormalIsAccepted(g: nat, i: nat, c: Condition, w: World)
    requires Normal(c, w)
    ensures ValidateCondition(g, i, Posted(c), w) == Ok(c)
  {
    TargetKeyRoundTrip(c.target);
    OperatorKeyRoundTrip(c.op);
    NormalValueIsKept(c, w);
    hide TargetFromKey, OperatorFromKey, TargetKey, OperatorKey, NormalizeValue, Trim;
  }

  function PostedAll(cs: seq<Condition>): seq<ConditionInput> {
    seq(|cs|, j requires 0 <= j < |cs| => Posted(cs[j]))
  }

  function PostedGroups(gs: seq<ConditionGroup>): seq<seq<ConditionInput>> {
    seq(|gs|, j requires 0 <= j < |gs| => PostedAll(gs[j].conditions))
  }

  function PostedRule(r: ParsedRule): RuleTreeBody {
    RuleTreeBody(r.stripeAccountRef, r.tree.grantOnAnyRelation, PostedGroups(r.tree.groups))
  }

  lemma {:induction false} ConditionsAreNormal(g: nat, i: nat, raws: seq<ConditionInput>, w: World)
    requires forall x :: !Blank(w.showFloat(x))
    ensures var r := ValidateConditions(g, i, raws, w);
      r.Ok? ==> |r.value| == |raws| && forall c <- r.value :: Normal(c, w)
    decreases |raws|
  {
    hide ValidateCondition, Normal, Blank;
    if raws != [] {
      AcceptedIsNormal(g, i, raws[0], w);
      ConditionsAreNormal(g, i + 1, raws[1..], w);
    }
  }

  lemma {:induction false} ConditionsAreAccepted(g: nat, i: nat, cs: seq<Condition>, w: World)
    requires forall c <- cs :: Normal(c, w)
    ensures ValidateConditions(g, i, PostedAll(cs), w) == Ok(cs)
    decreases |cs|
  {
    hide ValidateCondition, Normal, Posted;
    if cs != [] {
      assert cs[0] in cs;
      NormalIsAccepted(g, i, cs[0], w);
      assert PostedAll(cs)[0] == Posted(cs[0]) && PostedAll(cs)[1..] == PostedAll(cs[1..]);
      ConditionsAreAccepted(g, i + 1, cs[1..], w);
      assert [cs[0]] + cs[1..] == cs;
    }
  }

  lemma {:induction false} GroupsAreStable(g: nat, groups: seq<seq<ConditionInput>>, w: World)
    requires forall x :: !Blank(w.showFloat(x))
    ensures var r := ValidateGroups(g, groups, w);
      r.Ok? ==> |r.value| == |groups| && ValidateGroups(g, PostedGroups(r.value), w) == r
    decreases |groups|
  {
    hide ValidateConditions, PostedAll, Blank;
    var r := ValidateGroups(g, groups, w);
    if groups != [] && r.Ok? {
      ConditionsAreNormal(g, 1, groups[0], w);
      ConditionsAreAccepted(g, 1, r.value[0].conditions, w);
      PostedLength(r.value[0].conditions);
      GroupsAreStable(g + 1, groups[1..], w);
      assert PostedGroups(r.value)[1..] == PostedGroups(r.value[1..]);
      assert PostedGroups(r.value)[0] == PostedAll(r.value[0].conditions);
    }
  }

  lemma PostedLength(cs: seq<Condition>)
    ensures |PostedAll(cs)| == |cs|
  {
  }

  /** For every accepted payload: posting the saved rule again is accepted and saves the
      same rule. */
  lemma ResavingChangesNothing(body: RuleTreeBody, w: World)
    requires forall x :: !Blank(w.showFloat(x))
    ensures var r := ParseBody(body, w); r.Ok? ==> ParseBody(PostedRule(r.value), w) == r
  {
    if !body.grantOnAnyRelation {
      GroupsAreStable(1, body.groups, w);
    }
  }
}
