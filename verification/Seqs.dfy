/** Folds over fetched rows, and what a reordering of the rows leaves unchanged. */
module Seqs {
  import opened Wrappers

  function Map<A, B>(f: A -> B, s: seq<A>): (r: seq<B>)
    ensures |r| == |s| && forall i | 0 <= i < |s| :: r[i] == f(s[i])
  {
    if s == [] then [] else [f(s[0])] + Map(f, s[1..])
  }

  function Filter<A>(p: A -> bool, s: seq<A>): seq<A> {
    if s == [] then [] else (if p(s[0]) then [s[0]] else []) + Filter(p, s[1..])
  }

  lemma {:induction false} FilterMember<A>(p: A -> bool, s: seq<A>, x: A)
    ensures x in Filter(p, s) <==> x in s && p(x)
  {
    if s != [] {
      FilterMember(p, s[1..], x);
      assert x in s <==> x == s[0] || x in s[1..];
    }
  }

  function Sum(s: seq<int>): int {
    if s == [] then 0 else s[0] + Sum(s[1..])
  }

  function FirstSome<A>(s: seq<Option<A>>): Option<A> {
    if s == [] then None else s[0].OrElse(FirstSome(s[1..]))
  }

  function Values<A(!new)>(s: seq<Option<A>>): (r: seq<A>)
    ensures forall x :: x in r <==> Some(x) in s
  {
    if s == [] then [] else (if s[0].Some? then [s[0].value] else []) + Values(s[1..])
  }

  function MinSome(s: seq<Option<int>>): (r: Option<int>)
    ensures r.None? <==> forall o <- s :: o.None?
    ensures r.Some? ==> r in s && forall o <- s :: o.Some? ==> r.value <= o.value
  {
    if s == [] then None
    else
      assert forall o :: o in s <==> o == s[0] || o in s[1..];
      var rest := MinSome(s[1..]);
      if s[0].None? then rest
      else if rest.None? || s[0].value <= rest.value then s[0]
      else rest
  }

  /** The last of the elements with the greatest key, as `max_by_key` picks. */
  function MaxBy<A>(key: A -> int, s: seq<A>): (r: Option<A>)
    ensures r.None? <==> s == []
    ensures r.Some? ==> r.value in s && forall x <- s :: key(x) <= key(r.value)
  {
    if s == [] then None
    else
      var rest := MaxBy(key, s[1..]);
      if rest.None? || key(s[0]) > key(rest.value) then Some(s[0]) else rest
  }

  // ---- reorderings ----

  ghost predicate Reordered<A>(s: seq<A>, t: seq<A>) {
    multiset(s) == multiset(t)
  }

  lemma ReorderedMembers<A>(s: seq<A>, t: seq<A>)
    requires Reordered(s, t)
    ensures |s| == |t|
    ensures forall x :: x in s <==> x in t
  {
    assert |multiset(s)| == |multiset(t)|;
    forall x: A
      ensures x in s <==> x in t
    {
      assert x in multiset(s) <==> x in multiset(t);
    }
  }

  /** Take the first element of `s` out of `t`. */
  lemma Extract<A>(s: seq<A>, t: seq<A>) returns (k: nat)
    requires s != [] && Reordered(s, t)
    ensures k < |t| && t[k] == s[0] && Reordered(s[1..], t[..k] + t[k + 1..])
  {
    ReorderedMembers(s, t);
    assert s[0] in t;
    k :| 0 <= k < |t| && t[k] == s[0];
    assert s == [s[0]] + s[1..];
    assert t == t[..k] + [t[k]] + t[k + 1..];
    assert multiset(s[1..]) == multiset(s) - multiset{s[0]};
    assert multiset(t[..k] + t[k + 1..]) == multiset(t) - multiset{s[0]};
  }

  lemma {:induction false} SumConcat(s: seq<int>, t: seq<int>)
    ensures Sum(s + t) == Sum(s) + Sum(t)
  {
    if s == [] {
      assert s + t == t;
    } else {
      assert (s + t)[1..] == s[1..] + t;
      SumConcat(s[1..], t);
    }
  }

  lemma {:induction false} SumReordered(s: seq<int>, t: seq<int>)
    requires Reordered(s, t)
    ensures Sum(s) == Sum(t)
  {
    if s == [] {
      ReorderedMembers(s, t);
    } else {
      var k := Extract(s, t);
      SumReordered(s[1..], t[..k] + t[k + 1..]);
      SumConcat(t[..k], t[k + 1..]);
      SumConcat(t[..k], [t[k]] + t[k + 1..]);
      assert t == t[..k] + ([t[k]] + t[k + 1..]);
    }
  }

  lemma {:induction false} MapConcat<A, B>(f: A -> B, s: seq<A>, t: seq<A>)
    ensures Map(f, s + t) == Map(f, s) + Map(f, t)
  {
    if s == [] {
      assert s + t == t;
    } else {
      assert (s + t)[1..] == s[1..] + t;
      MapConcat(f, s[1..], t);
    }
  }

  /** A front segment may move anywhere in a reordering of the rest. */
  lemma MiddleReordered<A>(x: seq<A>, s: seq<A>, l: seq<A>, r: seq<A>)
    requires Reordered(s, l + r)
    ensures Reordered(x + s, l + (x + r))
  {
    assert multiset(l + (x + r)) == multiset(l) + multiset(x) + multiset(r);
  }

  lemma MapSplit<A, B>(f: A -> B, t: seq<A>, k: nat)
    requires k < |t|
    ensures Map(f, t) == Map(f, t[..k]) + ([f(t[k])] + Map(f, t[k + 1..]))
    ensures Map(f, t[..k] + t[k + 1..]) == Map(f, t[..k]) + Map(f, t[k + 1..])
  {
    MapConcat(f, t[..k], t[k + 1..]);
    MapConcat(f, t[..k], t[k..]);
    assert t == t[..k] + t[k..];
    assert t[k..][1..] == t[k + 1..];
  }

  lemma {:induction false} MapReordered<A, B>(f: A -> B, s: seq<A>, t: seq<A>)
    requires Reordered(s, t)
    ensures Reordered(Map(f, s), Map(f, t))
  {
    if s == [] {
      ReorderedMembers(s, t);
    } else {
      assert Map(f, s) == [f(s[0])] + Map(f, s[1..]);
      hide Map, Reordered;
      var k := Extract(s, t);
      MapReordered(f, s[1..], t[..k] + t[k + 1..]);
      MapSplit(f, t, k);
      MiddleReordered([f(s[0])], Map(f, s[1..]), Map(f, t[..k]), Map(f, t[k + 1..]));
    }
  }

  lemma {:induction false} FilterConcat<A>(p: A -> bool, s: seq<A>, t: seq<A>)
    ensures Filter(p, s + t) == Filter(p, s) + Filter(p, t)
  {
    if s == [] {
      assert s + t == t;
    } else {
      var kept := if p(s[0]) then [s[0]] else [];
      assert (s + t)[1..] == s[1..] + t && (s + t)[0] == s[0];
      assert Filter(p, s + t) == kept + Filter(p, s[1..] + t);
      assert Filter(p, s) == kept + Filter(p, s[1..]);
      hide Filter;
      FilterConcat(p, s[1..], t);
      assert kept + (Filter(p, s[1..]) + Filter(p, t)) == kept + Filter(p, s[1..]) + Filter(p, t);
    }
  }

  lemma FilterSplit<A>(p: A -> bool, t: seq<A>, k: nat)
    requires k < |t|
    ensures Filter(p, t) == Filter(p, t[..k]) + ((if p(t[k]) then [t[k]] else []) + Filter(p, t[k + 1..]))
    ensures Filter(p, t[..k] + t[k + 1..]) == Filter(p, t[..k]) + Filter(p, t[k + 1..])
  {
    FilterConcat(p, t[..k], t[k + 1..]);
    FilterConcat(p, t[..k], t[k..]);
    assert t == t[..k] + t[k..];
    assert t[k..][1..] == t[k + 1..];
  }

  lemma {:induction false} FilterReordered<A>(p: A -> bool, s: seq<A>, t: seq<A>)
    requires Reordered(s, t)
    ensures Reordered(Filter(p, s), Filter(p, t))
  {
    if s == [] {
      ReorderedMembers(s, t);
    } else {
      var kept := if p(s[0]) then [s[0]] else [];
      assert Filter(p, s) == kept + Filter(p, s[1..]);
      hide Filter, Reordered;
      var k := Extract(s, t);
      FilterReordered(p, s[1..], t[..k] + t[k + 1..]);
      FilterSplit(p, t, k);
      MiddleReordered(kept, Filter(p, s[1..]), Filter(p, t[..k]), Filter(p, t[k + 1..]));
    }
  }

  lemma MinReordered(s: seq<Option<int>>, t: seq<Option<int>>)
    requires Reordered(s, t)
    ensures MinSome(s) == MinSome(t)
  {
    ReorderedMembers(s, t);
  }

  lemma MaxReordered<A>(key: A -> int, s: seq<A>, t: seq<A>)
    requires Reordered(s, t)
    ensures MaxBy(key, s).Some? == MaxBy(key, t).Some?
    ensures MaxBy(key, s).Some? ==> key(MaxBy(key, s).value) == key(MaxBy(key, t).value)
  {
    ReorderedMembers(s, t);
  }

  lemma ValuesReordered<A(!new)>(s: seq<Option<A>>, t: seq<Option<A>>)
    requires Reordered(s, t)
    ensures forall x :: x in Values(s) <==> x in Values(t)
  {
    ReorderedMembers(s, t);
  }

  // ---- sorted sets of strings ----

  /** Strict lexicographic order by code point, which is byte order of the UTF-8. */
  predicate Less(a: string, b: string) {
    if b == [] then false
    else if a == [] then true
    else a[0] < b[0] || (a[0] == b[0] && Less(a[1..], b[1..]))
  }

  lemma {:induction false} LessTrichotomy(a: string, b: string)
    ensures a == b || Less(a, b) || Less(b, a)
    ensures !(Less(a, b) && Less(b, a)) && !Less(a, a)
  {
    if a != [] {
      LessTrichotomy(a[1..], a[1..]);
      if b != [] {
        LessTrichotomy(a[1..], b[1..]);
        assert a == [a[0]] + a[1..] && b == [b[0]] + b[1..];
      }
    }
  }

  lemma {:induction false} LessTransitive(a: string, b: string, c: string)
    requires Less(a, b) && Less(b, c)
    ensures Less(a, c)
  {
    if a != [] && a[0] == b[0] == c[0] {
      LessTransitive(a[1..], b[1..], c[1..]);
    }
  }

  function Insert(x: string, s: seq<string>): seq<string> {
    if s == [] || !Less(s[0], x) then [x] + s else [s[0]] + Insert(x, s[1..])
  }

  function Sort(s: seq<string>): seq<string> {
    if s == [] then [] else Insert(s[0], Sort(s[1..]))
  }

  /** Drop an element equal to the one before it. */
  function Dedup(s: seq<string>): seq<string> {
    if |s| <= 1 then s
    else if s[0] == s[1] then Dedup(s[1..])
    else [s[0]] + Dedup(s[1..])
  }

  predicate Ascending(s: seq<string>) {
    forall i | 0 < i < |s| :: s[i - 1] == s[i] || Less(s[i - 1], s[i])
  }

  predicate StrictlyAscending(s: seq<string>) {
    forall i, j | 0 <= i < j < |s| :: Less(s[i], s[j])
  }

  lemma {:induction false} InsertSorts(x: string, s: seq<string>)
    requires Ascending(s)
    ensures Ascending(Insert(x, s)) && forall y :: y in Insert(x, s) <==> y == x || y in s
    ensures Insert(x, s)[0] == x || (s != [] && Insert(x, s)[0] == s[0])
  {
    if s != [] && Less(s[0], x) {
      assert Ascending(s[1..]) by {
        forall i | 0 < i < |s[1..]|
          ensures s[1..][i - 1] == s[1..][i] || Less(s[1..][i - 1], s[1..][i])
        {
          assert s[i] == s[i + 1] || Less(s[i], s[i + 1]);
        }
      }
      InsertSorts(x, s[1..]);
    } else if s != [] {
      LessTrichotomy(x, s[0]);
    }
  }

  lemma {:induction false} SortSorts(s: seq<string>)
    ensures Ascending(Sort(s)) && forall y :: y in Sort(s) <==> y in s
  {
    if s != [] {
      SortSorts(s[1..]);
      InsertSorts(s[0], Sort(s[1..]));
    }
  }

  lemma {:induction false} DedupStrict(s: seq<string>)
    requires Ascending(s)
    ensures StrictlyAscending(Dedup(s)) && forall y :: y in Dedup(s) <==> y in s
    ensures s != [] ==> Dedup(s) != [] && Dedup(s)[0] == s[0]
  {
    if |s| > 1 {
      var rest := s[1..];
      assert Ascending(rest) by {
        forall i | 0 < i < |rest|
          ensures rest[i - 1] == rest[i] || Less(rest[i - 1], rest[i])
        {
          assert s[i] == s[i + 1] || Less(s[i], s[i + 1]);
        }
      }
      DedupStrict(rest);
      var d := Dedup(rest);
      if s[0] != s[1] {
        assert s[1 - 1] == s[1] || Less(s[1 - 1], s[1]);
        forall j | 0 <= j < |d|
          ensures Less(s[0], d[j])
        {
          if j > 0 {
            LessTransitive(s[0], d[0], d[j]);
          }
        }
      }
    }
  }

  /** `sort` then `dedup`: the strictly ascending list of the same elements. */
  lemma SortDedup(s: seq<string>)
    ensures StrictlyAscending(Dedup(Sort(s))) && forall y :: y in Dedup(Sort(s)) <==> y in s
  {
    SortSorts(s);
    DedupStrict(Sort(s));
  }

  /** A strictly ascending list is determined by its elements. */
  lemma {:induction false} StrictlyAscendingUnique(s: seq<string>, t: seq<string>)
    requires StrictlyAscending(s) && StrictlyAscending(t)
    requires forall y :: y in s <==> y in t
    ensures s == t
  {
    assert s == [] || s[0] in t;
    assert t == [] || t[0] in s;
    if s != [] {
      assert s[0] in s && s[0] in t;
      assert t[0] in t && t[0] in s;
      LessTrichotomy(s[0], t[0]);
      assert s[0] == t[0];
      forall y
        ensures y in s[1..] <==> y in t[1..]
      {
        LessTrichotomy(s[0], s[0]);
        assert y in s <==> y == s[0] || y in s[1..];
        assert y in t <==> y == t[0] || y in t[1..];
      }
      StrictlyAscendingUnique(s[1..], t[1..]);
    }
  }
}
