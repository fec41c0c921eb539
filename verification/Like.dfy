/** SQL LIKE with the default escape character, and the escaping that the rule
    compiler applies to a `contains` literal. */
module Like {
  import opened ConditionEval

  /** `str::replace` with a one-character needle. */
  function ReplaceChar(s: string, c: char, rep: string): string {
    if s == [] then []
    else (if s[0] == c then rep else [s[0]]) + ReplaceChar(s[1..], c, rep)
  }

  function EscapeLike(s: string): string {
    ReplaceChar(ReplaceChar(ReplaceChar(s, '\\', "\\\\"), '%', "\\%"), '_', "\\_")
  }

  /** LIKE: `%` is any run, `_` any one character, a backslash quotes the next
      character. A pattern ending in a lone backslash matches nothing here. */
  predicate Matches(p: string, s: string)
    decreases |p| + |s|
  {
    if p == [] then s == []
    else if p[0] == '%' then Matches(p[1..], s) || (s != [] && Matches(p, s[1..]))
    else if s == [] then false
    else if p[0] == '_' then Matches(p[1..], s[1..])
    else if p[0] == '\\' then |p| >= 2 && p[1] == s[0] && Matches(p[2..], s[1..])
    else p[0] == s[0] && Matches(p[1..], s[1..])
  }

  predicate Special(c: char) { c == '\\' || c == '%' || c == '_' }

  /** Escaping as one pass: a backslash before each special character. */
  function EscapeOnce(s: string): string {
    if s == [] then []
    else (if Special(s[0]) then ['\\', s[0]] else [s[0]]) + EscapeOnce(s[1..])
  }

  lemma {:induction false} ReplaceCharConcat(s: string, t: string, c: char, rep: string)
    ensures ReplaceChar(s + t, c, rep) == ReplaceChar(s, c, rep) + ReplaceChar(t, c, rep)
  {
    if s == [] {
      assert s + t == t;
    } else {
      assert (s + t)[1..] == s[1..] + t;
      ReplaceCharConcat(s[1..], t, c, rep);
    }
  }

  /** The three successive replacements never escape a backslash they added. */
  lemma {:induction false} EscapeIsOnePass(s: string)
    ensures EscapeLike(s) == EscapeOnce(s)
  {
    if s != [] {
      EscapeIsOnePass(s[1..]);
      var head := if s[0] == '\\' then "\\\\" else [s[0]];
      var tail := ReplaceChar(s[1..], '\\', "\\\\");
      assert ReplaceChar(s, '\\', "\\\\") == head + tail;
      ReplaceCharConcat(head, tail, '%', "\\%");
      var head2 := ReplaceChar(head, '%', "\\%");
      var tail2 := ReplaceChar(tail, '%', "\\%");
      ReplaceCharConcat(head2, tail2, '_', "\\_");
      EscapeHead(s[0]);
    }
  }

  lemma EscapeHead(c: char)
    ensures EscapeLike([c]) == if Special(c) then ['\\', c] else [c]
    ensures ReplaceChar([c], '\\', "\\\\") == if c == '\\' then "\\\\" else [c]
  {
    SingleReplace(c, '\\', "\\\\");
    if c == '\\' {
      PairReplace('\\', '\\', '%', "\\%");
      PairReplace('\\', '\\', '_', "\\_");
    } else {
      SingleReplace(c, '%', "\\%");
      if c == '%' {
        PairReplace('\\', '%', '_', "\\_");
      } else {
        SingleReplace(c, '_', "\\_");
      }
    }
  }

  lemma SingleReplace(a: char, c: char, rep: string)
    ensures ReplaceChar([a], c, rep) == if a == c then rep else [a]
  {
    assert [a][1..] == [];
    assert ReplaceChar([a], c, rep) == (if a == c then rep else [a]) + ReplaceChar([], c, rep);
  }

  lemma PairReplace(a: char, b: char, c: char, rep: string)
    requires a != c && b != c
    ensures ReplaceChar([a, b], c, rep) == [a, b]
  {
    assert [a, b] == [a] + [b];
    ReplaceCharConcat([a], [b], c, rep);
    SingleReplace(a, c, rep);
    SingleReplace(b, c, rep);
  }

  /** An escaped literal matches exactly itself, whatever pattern follows. */
  lemma {:induction false} EscapedMatchesLiterally(s: string, q: string, a: string)
    ensures Matches(EscapeOnce(s) + q, a) <==> s <= a && Matches(q, a[|s|..])
  {
    if s == [] {
      assert EscapeOnce(s) + q == q;
      assert a[0..] == a;
    } else {
      var p := EscapeOnce(s) + q;
      var rest := EscapeOnce(s[1..]) + q;
      if Special(s[0]) {
        assert p[0] == '\\' && p[1] == s[0] && p[2..] == rest;
      } else {
        assert p[0] == s[0] && p[1..] == rest;
      }
      if a != [] {
        EscapedMatchesLiterally(s[1..], q, a[1..]);
        assert s <= a <==> s[0] == a[0] && s[1..] <= a[1..] by {
          if s[0] == a[0] && s[1..] <= a[1..] {
            assert s == [s[0]] + s[1..] && a == [a[0]] + a[1..];
          }
        }
        if s <= a {
          assert a[1..][|s[1..]|..] == a[|s|..];
        }
      }
    }
  }

  lemma {:induction false} LeadingPercent(q: string, a: string)
    ensures Matches("%" + q, a) <==> exists i | 0 <= i <= |a| :: Matches(q, a[i..])
    decreases |a|
  {
    var p := "%" + q;
    assert p[1..] == q && a[0..] == a;
    if a != [] {
      LeadingPercent(q, a[1..]);
      forall i | 0 <= i <= |a| - 1
        ensures a[1..][i..] == a[i + 1..]
      {
      }
      if i :| 0 <= i <= |a| && Matches(q, a[i..]) {
        if i > 0 {
          assert a[1..][i - 1..] == a[i..];
        }
      }
    }
  }

  /** `column LIKE '%' || escape(s) || '%'` is the substring test. */
  lemma ContainsPattern(s: string, a: string)
    ensures Matches("%" + EscapeLike(s) + "%", a) <==> IsSubstring(s, a)
  {
    EscapeIsOnePass(s);
    var q := EscapeOnce(s) + "%";
    assert "%" + EscapeLike(s) + "%" == "%" + q;
    LeadingPercent(q, a);
    forall i | 0 <= i <= |a|
      ensures Matches(q, a[i..]) <==> s <= a[i..]
    {
      EscapedMatchesLiterally(s, "%", a[i..]);
      if s <= a[i..] {
        var rest := a[i..][|s|..];
        LeadingPercent([], rest);
        assert "%" + [] == "%" && rest[|rest|..] == [];
      }
    }
  }
}
