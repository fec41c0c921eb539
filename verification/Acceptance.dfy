/** Which payloads of the rule builder are accepted, said in the payload's own terms: by target and
    operator keys and literals, without the validator's tables. */
module Acceptance {
  import opened Wrappers
  import opened Rules
  import opened Text
  import opened RuleValidator
  import RuleRoundTrip

  // ---- text ----

  predicate White(s: string) {
    forall c <- s :: IsWhite(c)
  }

  lemma {:induction false} StartTrimmed(s: string) returns (a: string)
    ensures White(a) && s == a + TrimStart(s)
    ensures TrimStart(s) != [] ==> !IsWhite(TrimStart(s)[0])
  {
    if s != [] && IsWhite(s[0]) {
      var rest := StartTrimmed(s[1..]);
      a := [s[0]] + rest;
    } else {
      a := [];
    }
  }

  lemma {:induction false} EndTrimmed(s: string) returns (b: string)
    ensures White(b) && s == TrimEnd(s) + b
    ensures TrimEnd(s) != [] ==> !IsWhite(TrimEnd(s)[|TrimEnd(s)| - 1])
  {
    hide IsWhite;
    if s != [] && IsWhite(s[|s| - 1]) {
      var init, last := s[..|s| - 1], s[|s| - 1];
      var rest := EndTrimmed(init);
      b := rest + [last];
      assert s == init + [last];
    } else {
      b := [];
    }
  }

  /** Trimming takes white space off both ends, and all of it. */
  lemma TrimmedText(s: string)
    ensures exists a, b :: White(a) && White(b) && s == a + Trim(s) + b
    ensures Trim(s) != [] ==> !IsWhite(Trim(s)[0]) && !IsWhite(Trim(s)[|Trim(s)| - 1])
  {
    var a := StartTrimmed(s);
    var t := TrimStart(s);
    var b := EndTrimmed(t);
    assert s == a + TrimEnd(t) + b;
    assert TrimEnd(t) != [] ==> TrimEnd(t)[0] == t[0];
  }

  // ---- the payload's own terms ----

  predicate FlagTarget(key: string) {
    key in {"has_active_subscription", "is_trialing", "is_past_due", "cancels_at_period_end", "is_customer",
            "is_delinquent"}
  }

  predicate NumberTarget(key: string) {
    key in {"active_subscription_count", "plan_amount", "subscription_age_days", "days_until_renewal", "total_mrr",
            "customer_age_days", "lifetime_spend", "successful_payments"}
  }

  predicate TextTarget(key: string) {
    key in {"subscription_status", "billing_interval", "country_code", "currency", "email_domain"}
  }

  predicate SetTarget(key: string) {
    key in {"subscribed_to_product", "subscribed_to_price"}
  }

  predicate KnownOperator(key: string) {
    key in {"eq", "neq", "gt", "gte", "lt", "lte", "between", "contains", "regex", "in", "not_in"}
  }

  /** The operators offered for each kind of target. */
  predicate Offered(target: string, op: string) {
    || (FlagTarget(target) && op == "eq")
    || (NumberTarget(target) && op in {"eq", "neq", "gt", "gte", "lt", "lte", "between"})
    || (TextTarget(target) && op in {"eq", "neq", "contains", "regex", "in", "not_in"})
    || (SetTarget(target) && op in {"eq", "in", "not_in"})
  }

  predicate Says(word: string, b: bool) {
    AsciiLower(word) in if b then {"true", "1", "yes"} else {"false", "0", "no"}
  }

  predicate FlagLiteral(v: Json) {
    v.Bool? || (v.Str? && (Says(Trim(v.s), true) || Says(Trim(v.s), false)))
  }

  predicate NumberLiteral(v: Json) {
    v.Int? || v.Float? || (v.Str? && ParseI64(Trim(v.s)).Some?)
  }

  predicate TextLiteral(v: Json) {
    v.Int? || v.Float? || v.Bool? || (v.Str? && Trim(v.s) != [])
  }

  /** A list literal has an entry: of an array, one that is neither null nor empty; of a text, a
      part between commas that is not blank; anything else but null is one entry itself. */
  predicate ListLiteral(v: Json) {
    match v
    case Arr(items) => exists x <- items :: x != Null && x != Str("")
    case Str(s) => exists part <- Split(s, ',') :: Trim(part) != []
    case Null => false
    case _ => true
  }

  /** The literal that the target and the operator call for. */
  predicate Literal(target: string, op: string, v: Json) {
    if FlagTarget(target) then FlagLiteral(v)
    else if NumberTarget(target) then NumberLiteral(v)
    else if op in {"in", "not_in"} then ListLiteral(v)
    else if SetTarget(target) then v.Str? && Trim(v.s) != []
    else TextLiteral(v)
  }

  /** A literal as text. */
  function AsText(v: Json, w: World): string {
    match v
    case Str(s) => s
    case Int(n) => ShowInt(n)
    case Float(x) => w.showFloat(x)
    case Bool(b) => if b then "true" else "false"
    case _ => ""
  }

  predicate Acceptable(raw: ConditionInput, w: World) {
    var target, op := Trim(raw.target), Trim(raw.op);
    && Offered(target, op) && Literal(target, op, raw.value)
    && (op == "between" ==> raw.valueEnd.Some? && Literal(target, op, raw.valueEnd.value))
    && (op == "regex" ==> w.regexCompiles(AsText(raw.value, w)))
  }

  // ---- the validator's tables ----

  lemma TargetsByKind(key: string)
    ensures var t := TargetFromKey(key);
      && (FlagTarget(key) <==> t.Some? && t.value.Kind() == BoolKind)
      && (NumberTarget(key) <==> t.Some? && t.value.Kind() == IntKind)
      && (TextTarget(key) <==> t.Some? && t.value.Kind() == StringKind)
      && (SetTarget(key) <==> t.Some? && t.value.Kind() == StringListKind)
  {
    ScalarTargets(key);
    TextTargets(key);
    SetTargets(key);
    hide TargetFromKey, FlagTarget, NumberTarget, TextTarget, SetTarget;
  }

  lemma ScalarTargets(key: string)
    ensures var t := TargetFromKey(key);
      && (FlagTarget(key) <==> t.Some? && t.value.Kind() == BoolKind)
      && (NumberTarget(key) <==> t.Some? && t.value.Kind() == IntKind)
  {
  }

  lemma TextTargets(key: string)
    ensures var t := TargetFromKey(key); TextTarget(key) <==> t.Some? && t.value.Kind() == StringKind
  {
  }

  lemma SetTargets(key: string)
    ensures var t := TargetFromKey(key); SetTarget(key) <==> t.Some? && t.value.Kind() == StringListKind
  {
  }

  lemma OperatorsByKind(target: string, key: string)
    ensures var t, op := TargetFromKey(target), OperatorFromKey(key);
      && (KnownOperator(key) <==> op.Some?)
      && (op.Some? ==> key == OperatorKey(op.value))
      && (Offered(target, key) <==> t.Some? && op.Some? && op.value.ValidFor(t.value.Kind()))
  {
    hide TargetFromKey;
    TargetsByKind(target);
    hide FlagTarget, NumberTarget, TextTarget, SetTarget;
  }

  // ---- literals ----

  /** Flags are booleans, or the words for them in any case, with white space around. */
  lemma FlagValues(op: Operator, raw: Json, w: World)
    ensures NormalizeValue(BoolKind, op, raw, w) ==
      if raw == Bool(true) || (raw.Str? && Says(Trim(raw.s), true)) then Some(Bool(true))
      else if raw == Bool(false) || (raw.Str? && Says(Trim(raw.s), false)) then Some(Bool(false))
      else None
  {
  }

  /** Numbers are kept when they fit an i64 and moved to the nearest end of the range otherwise; a
      fraction is dropped; a text must be an i64 itself. */
  lemma NumberValues(op: Operator, raw: Json, w: World)
    ensures var v := NormalizeValue(IntKind, op, raw, w);
      && (v.Some? <==> NumberLiteral(raw))
      && (v.Some? ==> v.value.Int? && -0x8000_0000_0000_0000 <= v.value.n <= 0x7fff_ffff_ffff_ffff)
      && (raw.Int? && -0x8000_0000_0000_0000 <= raw.n <= 0x7fff_ffff_ffff_ffff ==> v.value.n == raw.n)
      && (raw.Int? && raw.n < -0x8000_0000_0000_0000 ==> v.value.n == -0x8000_0000_0000_0000)
      && (raw.Int? && raw.n > 0x7fff_ffff_ffff_ffff ==> v.value.n == 0x7fff_ffff_ffff_ffff)
      && (raw.Float? && -0x8000_0000_0000_0000 as real < raw.x < 0x8000_0000_0000_0000 as real ==>
            if raw.x >= 0.0 then v.value.n as real <= raw.x < v.value.n as real + 1.0
            else v.value.n as real - 1.0 < raw.x <= v.value.n as real)
      && (raw.Float? && raw.x >= 0x8000_0000_0000_0000 as real ==> v.value.n == 0x7fff_ffff_ffff_ffff)
      && (raw.Float? && raw.x <= -0x8000_0000_0000_0000 as real ==> v.value.n == -0x8000_0000_0000_0000)
      && (raw.Str? && v.Some? ==> ParseI64(Trim(raw.s)) == Some(v.value.n))
  {
  }

  /** Texts are kept, other scalars become their text. */
  lemma TextValues(op: Operator, raw: Json, w: World)
    requires op != In && op != NotIn
    ensures NormalizeValue(StringKind, op, raw, w) == if TextLiteral(raw) then Some(Str(AsText(raw, w))) else None
    ensures NormalizeValue(StringListKind, op, raw, w) == if raw.Str? && Trim(raw.s) != [] then Some(raw) else None
  {
  }

  lemma {:induction false} KeptEntries(items: seq<Json>, v: Json)
    ensures v in KeepEntries(items) <==> v in items && v != Null && v != Str("")
  {
    if items != [] {
      KeptEntries(items[1..], v);
      assert v in items <==> v == items[0] || v in items[1..];
    }
  }

  lemma {:induction false} KeptParts(parts: seq<string>, v: Json)
    ensures v in TrimmedEntries(parts) <==> exists part <- parts :: Trim(part) != [] && v == Str(Trim(part))
  {
    if parts != [] {
      KeptParts(parts[1..], v);
      assert forall part :: part in parts <==> part == parts[0] || part in parts[1..];
    }
  }

  /** Lists keep the entries of an array that are neither null nor empty, and the parts of a text
      that are not blank, trimmed; a list without an entry is refused. */
  lemma ListValues(kind: Kind, op: Operator, raw: Json, w: World, v: Json)
    requires (kind == StringKind || kind == StringListKind) && (op == In || op == NotIn)
    ensures var list := NormalizeValue(kind, op, raw, w);
      && (list.Some? <==> ListLiteral(raw))
      && (list.Some? ==>
            && list.value.Arr?
            && (raw.Arr? ==> (v in list.value.items <==> v in raw.items && v != Null && v != Str("")))
            && (raw.Str? ==> (v in list.value.items <==>
                  exists part <- Split(raw.s, ',') :: Trim(part) != [] && v == Str(Trim(part))))
            && (!raw.Arr? && !raw.Str? ==> list.value.items == [raw]))
  {
    var entries := ListEntries(raw);
    if raw.Arr? {
      KeptEntries(raw.items, v);
      forall x
        ensures x in entries <==> x in raw.items && x != Null && x != Str("")
      {
        KeptEntries(raw.items, x);
      }
    } else if raw.Str? {
      KeptParts(Split(raw.s, ','), v);
      forall part <- Split(raw.s, ',') | Trim(part) != []
        ensures Str(Trim(part)) in entries
      {
        KeptParts(Split(raw.s, ','), Str(Trim(part)));
      }
      if entries != [] {
        KeptParts(Split(raw.s, ','), entries[0]);
      }
    }
    assert entries != [] ==> entries[0] in entries;
    hide KeepEntries, TrimmedEntries, Split, Trim;
  }

  lemma {:induction false} LeadingZero(digits: string)
    requires forall c <- digits :: IsDigit(c)
    ensures (forall c <- "0" + digits :: IsDigit(c)) && DigitsValue("0" + digits) == DigitsValue(digits)
  {
    var s := "0" + digits;
    if digits == [] {
      assert s[..0] == [] && s == "0";
      assert DigitsValue("0"[..0]) == 0;
    } else {
      var init := digits[..|digits| - 1];
      assert s[..|s| - 1] == "0" + init && s[|s| - 1] == digits[|digits| - 1];
      LeadingZero(init);
    }
  }

  lemma NumberShape(s: string)
    ensures ParseI64(s).Some? ==>
      && s != []
      && var digits := if s[0] == '-' || s[0] == '+' then s[1..] else s;
         digits != [] && forall c <- digits :: '0' <= c <= '9'
  {
    if ParseI64(s).Some? {
      var digits := if s[0] == '-' || s[0] == '+' then s[1..] else s;
      forall c <- digits
        ensures '0' <= c <= '9'
      {
        assert IsDigit(c);
      }
    }
  }

  /** The texts that are an i64: digits with at most one sign before them, leading zeros allowed,
      whose value is in range. The value of digits is the number that they are printed from. */
  lemma NumberTexts(n: int)
    requires n >= 0
    ensures var digits := Digits(n);
      && (n <= 0x7fff_ffff_ffff_ffff ==>
            && ParseI64("0" + digits) == Some(n) && ParseI64(digits) == Some(n)
            && ParseI64("+" + digits) == Some(n) && ParseI64("-" + digits) == Some(-n))
      && (n == 0x8000_0000_0000_0000 ==> ParseI64(digits).None? && ParseI64("-" + digits) == Some(-n))
      && (n > 0x8000_0000_0000_0000 ==> ParseI64(digits).None? && ParseI64("-" + digits).None?)
  {
    var digits := Digits(n);
    RuleRoundTrip.DigitsRoundTrip(n);
    LeadingZero(digits);
    hide Digits, DigitsValue, ParseI64;
    SignedTexts(digits);
    SignedTexts("0" + digits);
  }

  lemma SignedTexts(digits: string)
    requires digits != [] && forall c <- digits :: IsDigit(c)
    ensures var n := DigitsValue(digits);
      && ParseI64(digits) == (if I64_MIN <= n <= I64_MAX then Some(n) else None)
      && ParseI64("+" + digits) == (if I64_MIN <= n <= I64_MAX then Some(n) else None)
      && ParseI64("-" + digits) == (if I64_MIN <= -n <= I64_MAX then Some(-n) else None)
  {
    assert digits[0] in digits;
    assert ParseI64(digits) == if I64_MIN <= DigitsValue(digits) <= I64_MAX then Some(DigitsValue(digits)) else None;
    assert ("+" + digits)[1..] == digits && ("-" + digits)[1..] == digits;
    hide DigitsValue, IsDigit, ParseI64;
    SignedText("+" + digits, digits);
    SignedText("-" + digits, digits);
  }

  lemma SignedText(s: string, digits: string)
    requires s != [] && (s[0] == '+' || s[0] == '-') && s[1..] == digits
    requires digits != [] && forall c <- digits :: IsDigit(c)
    ensures var n := if s[0] == '-' then -DigitsValue(digits) else DigitsValue(digits);
      ParseI64(s) == if I64_MIN <= n <= I64_MAX then Some(n) else None
  {
    hide DigitsValue, IsDigit;
  }

  // ---- conditions ----

  /** A literal is accepted when it is of the kind that the two keys call for. */
  lemma LiteralAccepted(target: string, key: string, v: Json, w: World)
    requires TargetFromKey(target).Some? && OperatorFromKey(key).Some?
    ensures NormalizeValue(TargetFromKey(target).value.Kind(), OperatorFromKey(key).value, v, w).Some?
      <==> Literal(target, key, v)
  {
    var kind, op := TargetFromKey(target).value.Kind(), OperatorFromKey(key).value;
    TargetsByKind(target);
    OperatorsByKind(target, key);
    assert op == In || op == NotIn <==> key in {"in", "not_in"};
    FlagValues(op, v, w);
    NumberValues(op, v, w);
    if op == In || op == NotIn {
      if kind == StringKind || kind == StringListKind {
        ListValues(kind, op, v, w, Null);
      }
    } else {
      TextValues(op, v, w);
    }
    hide NormalizeValue, TargetFromKey, OperatorFromKey, FlagTarget, NumberTarget, TextTarget, SetTarget;
    hide NumberLiteral, TextLiteral, ListLiteral, Says;
  }

  lemma KeyFacts(target: string, op: string)
    ensures var t, o := TargetFromKey(target), OperatorFromKey(op);
      && (o == Some(Between) <==> op == "between") && (o == Some(Regex) <==> op == "regex")
      && (t.Some? <==> FlagTarget(target) || NumberTarget(target) || TextTarget(target) || SetTarget(target))
      && (o.Some? <==> KnownOperator(op))
      && (Offered(target, op) <==> t.Some? && o.Some? && o.value.ValidFor(t.value.Kind()))
      && (op == "regex" && Offered(target, op) ==> t.value.Kind() == StringKind)
  {
    TargetsByKind(target);
    OperatorsByKind(target, op);
    hide TargetFromKey, FlagTarget, NumberTarget, TextTarget, SetTarget;
  }

  /** What is wrong first: the target, the operator, the two together, the literal, the bound. */
  function Complaint(raw: ConditionInput, w: World): Reason {
    var target, op := Trim(raw.target), Trim(raw.op);
    if !FlagTarget(target) && !NumberTarget(target) && !TextTarget(target) && !SetTarget(target) then UnknownTarget
    else if !KnownOperator(op) then UnknownOperator
    else if !Offered(target, op) then OperatorNotValid
    else if !Literal(target, op, raw.value) then BadValue
    else if op == "between" then (if raw.valueEnd.None? then MissingUpperBound else BadValue)
    else BadRegex
  }

  /** One condition: accepted exactly when acceptable, and saved under the target and operator that
      its keys name, with its literals normalised; otherwise refused for the first thing wrong. */
  lemma ConditionAccepted(g: nat, c: nat, raw: ConditionInput, w: World)
    ensures var r := ValidateCondition(g, c, raw, w);
      var target, op := Trim(raw.target), Trim(raw.op);
      && (r.Ok? <==> Acceptable(raw, w))
      && (r.Ok? ==>
            && TargetFromKey(target) == Some(r.value.target) && OperatorFromKey(op) == Some(r.value.op)
            && Some(r.value.value) == NormalizeValue(r.value.target.Kind(), r.value.op, raw.value, w)
            && r.value.valueEnd == if op != "between" then None
                                   else NormalizeValue(r.value.target.Kind(), r.value.op, raw.valueEnd.value, w))
      && (r.Err? ==> r.error == Rejection(Complaint(raw, w), g, c))
  {
    hide NormalizeValue, TargetFromKey, OperatorFromKey, FlagTarget, NumberTarget, TextTarget, SetTarget;
    hide Literal, AsText, Trim, Offered, KnownOperator;
    var target, op := Trim(raw.target), Trim(raw.op);
    KeyFacts(target, op);
    if Offered(target, op) {
      LiteralAccepted(target, op, raw.value, w);
      if raw.valueEnd.Some? {
        LiteralAccepted(target, op, raw.valueEnd.value, w);
      }
      if op == "regex" {
        RegexText(raw.value, w);
      }
    }
  }

  lemma RegexText(v: Json, w: World)
    ensures var r := NormalizeValue(StringKind, Regex, v, w); r.Some? ==> r == Some(Str(AsText(v, w)))
  {
    TextValues(Regex, v, w);
    hide NormalizeValue, AsText;
  }

  // ---- whole payloads ----

  predicate AllAcceptable(raws: seq<ConditionInput>, w: World) {
    forall raw <- raws :: Acceptable(raw, w)
  }

  /** The conditions saved for those posted, one for one. */
  predicate SavedAs(raws: seq<ConditionInput>, cs: seq<Condition>, w: World) {
    |cs| == |raws| && forall j | 0 <= j < |raws| :: ValidateCondition(1, 1, raws[j], w) == Ok(cs[j])
  }

  /** Where a condition stands only matters for the message. */
  lemma PlaceIsMessage(g: nat, c: nat, raw: ConditionInput, w: World)
    ensures var r, s := ValidateCondition(g, c, raw, w), ValidateCondition(1, 1, raw, w);
      if r.Ok? then r == s else s.Err? && r.error == s.error.(group := g, cond := c)
  {
    hide NormalizeValue, TargetFromKey, OperatorFromKey, Trim;
  }

  lemma ConditionVerdict(g: nat, c: nat, raw: ConditionInput, w: World)
    ensures var r := ValidateCondition(g, c, raw, w);
      && (r.Ok? <==> Acceptable(raw, w))
      && (r.Ok? ==> ValidateCondition(1, 1, raw, w) == r)
      && (r.Err? ==> r.error == Rejection(Complaint(raw, w), g, c))
  {
    hide *;
    ConditionAccepted(g, c, raw, w);
    PlaceIsMessage(g, c, raw, w);
  }

  lemma OneByOne(g: nat, c: nat, raws: seq<ConditionInput>, w: World)
    requires raws != []
    ensures var first, rest := ValidateCondition(g, c, raws[0], w), ValidateConditions(g, c + 1, raws[1..], w);
      ValidateConditions(g, c, raws, w)
      == if first.Err? then Err(first.error) else if rest.Err? then rest else Ok([first.value] + rest.value)
  {
    hide ValidateCondition;
  }

  lemma AcceptableParts(raws: seq<ConditionInput>, w: World)
    requires raws != []
    ensures AllAcceptable(raws, w) <==> Acceptable(raws[0], w) && AllAcceptable(raws[1..], w)
  {
    hide Acceptable;
    assert forall raw :: raw in raws <==> raw == raws[0] || raw in raws[1..];
  }

  lemma SavedParts(raws: seq<ConditionInput>, c: Condition, cs: seq<Condition>, w: World)
    requires raws != [] && ValidateCondition(1, 1, raws[0], w) == Ok(c) && SavedAs(raws[1..], cs, w)
    ensures SavedAs(raws, [c] + cs, w)
  {
    hide ValidateCondition;
    assert forall j | 0 < j < |raws| :: raws[j] == raws[1..][j - 1] && ([c] + cs)[j] == cs[j - 1];
  }

  lemma {:induction false} ConditionsAccepted(g: nat, c: nat, raws: seq<ConditionInput>, w: World)
    ensures var r := ValidateConditions(g, c, raws, w);
      && (r.Ok? <==> AllAcceptable(raws, w))
      && (r.Ok? ==> SavedAs(raws, r.value, w))
    decreases |raws|
  {
    if raws != [] {
      hide *;
      ConditionVerdict(g, c, raws[0], w);
      OneByOne(g, c, raws, w);
      AcceptableParts(raws, w);
      ConditionsAccepted(g, c + 1, raws[1..], w);
      var rest := ValidateConditions(g, c + 1, raws[1..], w);
      if ValidateCondition(g, c, raws[0], w).Ok? && rest.Ok? {
        SavedParts(raws, ValidateCondition(g, c, raws[0], w).value, rest.value, w);
      }
    } else {
      assert AllAcceptable([], w) && SavedAs([], [], w);
    }
  }

  /** The refused condition is the first that is not acceptable. */
  predicate FirstRefused(raws: seq<ConditionInput>, j: int, reason: Reason, w: World) {
    && 0 <= j < |raws| && AllAcceptable(raws[..j], w)
    && !Acceptable(raws[j], w) && reason == Complaint(raws[j], w)
  }

  lemma RefusedLater(raws: seq<ConditionInput>, j: int, reason: Reason, w: World)
    requires raws != [] && Acceptable(raws[0], w) && FirstRefused(raws[1..], j, reason, w)
    ensures FirstRefused(raws, j + 1, reason, w)
  {
    hide Acceptable, Complaint;
    assert raws[..j + 1] == [raws[0]] + raws[1..][..j] && raws[j + 1] == raws[1..][j];
  }

  lemma FirstErrorWins(g: nat, c: nat, raws: seq<ConditionInput>, w: World)
    requires ValidateConditions(g, c, raws, w).Err?
    ensures raws != []
    ensures var first := ValidateCondition(g, c, raws[0], w);
      if first.Err? then ValidateConditions(g, c, raws, w).error == first.error
      else ValidateConditions(g, c, raws, w) == ValidateConditions(g, c + 1, raws[1..], w)
  {
    hide ValidateCondition;
  }

  lemma {:induction false} ConditionsRefused(g: nat, c: nat, raws: seq<ConditionInput>, w: World)
    requires ValidateConditions(g, c, raws, w).Err?
    ensures var e := ValidateConditions(g, c, raws, w).error;
      e.group == g && FirstRefused(raws, e.cond - c, e.reason, w)
    decreases |raws|
  {
    hide *;
    FirstErrorWins(g, c, raws, w);
    ConditionVerdict(g, c, raws[0], w);
    if ValidateCondition(g, c, raws[0], w).Ok? {
      ConditionsRefused(g, c + 1, raws[1..], w);
      var e := ValidateConditions(g, c, raws, w).error;
      RefusedLater(raws, e.cond - (c + 1), e.reason, w);
    } else {
      RefusedFirst(raws, w);
    }
  }

  lemma RefusedFirst(raws: seq<ConditionInput>, w: World)
    requires raws != [] && !Acceptable(raws[0], w)
    ensures FirstRefused(raws, 0, Complaint(raws[0], w), w)
  {
  }

  predicate AcceptableGroup(raws: seq<ConditionInput>, w: World) {
    1 <= |raws| <= 12 && AllAcceptable(raws, w)
  }

  lemma {:induction false} GroupsAccepted(g: nat, groups: seq<seq<ConditionInput>>, w: World)
    ensures var r := ValidateGroups(g, groups, w);
      && (r.Ok? <==> forall raws <- groups :: AcceptableGroup(raws, w))
      && (r.Ok? ==>
            |r.value| == |groups| && forall i | 0 <= i < |groups| :: SavedAs(groups[i], r.value[i].conditions, w))
    decreases |groups|
  {
    hide ValidateConditions, AllAcceptable, SavedAs;
    if groups != [] {
      ConditionsAccepted(g, 1, groups[0], w);
      GroupsAccepted(g + 1, groups[1..], w);
      assert groups[0] in groups;
      assert forall raws :: raws in groups <==> raws == groups[0] || raws in groups[1..];
    }
  }

  /** What is wrong with the first group that is not acceptable: it is empty or too large, which is
      found before its conditions are looked at, or a condition of it is refused. */
  predicate GroupRefused(raws: seq<ConditionInput>, cond: int, reason: Reason, w: World) {
    if raws == [] then cond == 0 && reason == EmptyGroup
    else if |raws| > 12 then cond == 0 && reason == TooManyConditions
    else FirstRefused(raws, cond - 1, reason, w)
  }

  lemma {:induction false} GroupsRefused(g: nat, groups: seq<seq<ConditionInput>>, w: World)
    ensures var r := ValidateGroups(g, groups, w);
      r.Err? ==>
        && g <= r.error.group < g + |groups|
        && (forall i | 0 <= i < r.error.group - g :: AcceptableGroup(groups[i], w))
        && GroupRefused(groups[r.error.group - g], r.error.cond, r.error.reason, w)
    decreases |groups|
  {
    hide ValidateConditions, AllAcceptable, FirstRefused;
    if groups != [] {
      var r, rest := ValidateGroups(g, groups, w), ValidateGroups(g + 1, groups[1..], w);
      ConditionsAccepted(g, 1, groups[0], w);
      if ValidateConditions(g, 1, groups[0], w).Err? {
        ConditionsRefused(g, 1, groups[0], w);
      }
      GroupsRefused(g + 1, groups[1..], w);
      if ValidateGroup(g, groups[0], w).Ok? && rest.Err? {
        forall i | 0 < i < rest.error.group - g
          ensures AcceptableGroup(groups[i], w)
        {
          assert groups[i] == groups[1..][i - 1];
        }
      }
    }
  }

  /** A payload is accepted exactly when it grants on any relation, or has one to eight groups of one
      to twelve acceptable conditions each; what is saved are those groups, in order, condition for
      condition, for the account it names. */
  lemma AcceptedExactly(body: RuleTreeBody, w: World)
    ensures var r := ParseBody(body, w);
      && (r.Ok? <==>
            || body.grantOnAnyRelation
            || (1 <= |body.groups| <= 8
                && forall raws <- body.groups :: 1 <= |raws| <= 12 && forall raw <- raws :: Acceptable(raw, w)))
      && (r.Ok? ==>
            var tree := r.value.tree;
            && r.value.stripeAccountRef == body.stripeAccountRef
            && tree.grantOnAnyRelation == body.grantOnAnyRelation
            && (if body.grantOnAnyRelation then tree.groups == []
                else
                  && |tree.groups| == |body.groups|
                  && forall i | 0 <= i < |tree.groups| :: SavedAs(body.groups[i], tree.groups[i].conditions, w)))
  {
    hide SavedAs, Acceptable, ValidateGroups;
    if !body.grantOnAnyRelation {
      GroupsAccepted(1, body.groups, w);
      assert forall raws <- body.groups ::
        AcceptableGroup(raws, w) <==> 1 <= |raws| <= 12 && forall raw <- raws :: Acceptable(raw, w);
    }
  }

  /** A refused payload is refused for its number of groups, or for the first thing wrong in it. */
  lemma RefusedFor(body: RuleTreeBody, w: World)
    ensures var r := ParseBody(body, w);
      r.Err? ==>
        var e := r.error;
        && (|body.groups| == 0 ==> e == Rejection(NoGroups, 0, 0))
        && (|body.groups| > 8 ==> e == Rejection(TooManyGroups, 0, 0))
        && (1 <= |body.groups| <= 8 ==>
              && 1 <= e.group <= |body.groups|
              && (forall i | 0 <= i < e.group - 1 :: AcceptableGroup(body.groups[i], w))
              && GroupRefused(body.groups[e.group - 1], e.cond, e.reason, w))
  {
    hide AcceptableGroup, GroupRefused, ValidateGroups;
    if !body.grantOnAnyRelation {
      GroupsRefused(1, body.groups, w);
    }
  }
}
