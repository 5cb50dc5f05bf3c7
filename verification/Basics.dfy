/** Values and list operations shared by every component of the model. */
module Basics {

  datatype Option<+T> = None | Some(value: T)

  datatype Result<+T, +E> = Ok(value: T) | Err(error: E)

  /** The elements of `s` that satisfy `p`, in order: a SQL `where`, or a list comprehension. */
  function Filter<T>(s: seq<T>, p: T -> bool): (r: seq<T>)
    ensures |r| <= |s|
  {
    if s == [] then [] else
      var rest := Filter(s[..|s| - 1], p);
      if p(s[|s| - 1]) then rest + [s[|s| - 1]] else rest
  }

  function Map<T, U>(s: seq<T>, f: T -> U): (r: seq<U>)
    ensures |r| == |s|
    ensures forall i | 0 <= i < |s| :: r[i] == f(s[i])
  {
    seq(|s|, i requires 0 <= i < |s| => f(s[i]))
  }

  function Sum<T>(s: seq<T>, f: T -> real): real
  {
    if s == [] then 0.0 else Sum(s[..|s| - 1], f) + f(s[|s| - 1])
  }

  /** `scalar_one_or_none`: a query that may match at most one row. */
  function OneOrNone<T>(matches: seq<T>): Result<Option<T>, string>
  {
    if |matches| == 0 then Ok(None)
    else if |matches| == 1 then Ok(Some(matches[0]))
    else Err("MultipleResultsFound")
  }

  lemma {:induction false} FilterMembers<T>(s: seq<T>, p: T -> bool)
    ensures forall x | x in Filter(s, p) :: x in s && p(x)
    ensures forall x | x in s && p(x) :: x in Filter(s, p)
  {
    if s != [] {
      FilterMembers(s[..|s| - 1], p);
      assert s == s[..|s| - 1] + [s[|s| - 1]];
    }
  }

  /** Filtering keeps every occurrence of what passes and none of what does not. */
  lemma {:induction false} FilterCounts<T>(s: seq<T>, p: T -> bool, x: T)
    ensures multiset(Filter(s, p))[x] == if p(x) then multiset(s)[x] else 0
  {
    if s != [] {
      FilterCounts(s[..|s| - 1], p, x);
      assert s == s[..|s| - 1] + [s[|s| - 1]];
    }
  }

  lemma FilterAppend<T>(s: seq<T>, x: T, p: T -> bool)
    ensures Filter(s + [x], p) == if p(x) then Filter(s, p) + [x] else Filter(s, p)
  {
    assert (s + [x])[..|s|] == s;
  }

  lemma {:induction false} FilterConcat<T>(a: seq<T>, b: seq<T>, p: T -> bool)
    ensures Filter(a + b, p) == Filter(a, p) + Filter(b, p)
  {
    if b == [] {
      assert a + b == a;
    } else {
      var init, last := b[..|b| - 1], b[|b| - 1];
      FilterConcat(a, init, p);
      var tail := if p(last) then [last] else [];
      assert (a + b)[..|a + b| - 1] == a + init && (a + b)[|a + b| - 1] == last;
      assert Filter(a + b, p) == Filter(a + init, p) + tail;
      assert Filter(b, p) == Filter(init, p) + tail;
    }
  }

  lemma FilterCons<T>(x: T, s: seq<T>, p: T -> bool)
    ensures Filter([x] + s, p) == (if p(x) then [x] else []) + Filter(s, p)
  {
    FilterConcat([x], s, p);
    assert [x][..0] == [];
  }

  lemma {:induction false} FilterNone<T>(s: seq<T>, p: T -> bool)
    requires forall i | 0 <= i < |s| :: !p(s[i])
    ensures Filter(s, p) == []
  {
    if s != [] {
      FilterNone(s[..|s| - 1], p);
    }
  }

  lemma {:induction false} FilterAll<T>(s: seq<T>, p: T -> bool)
    requires forall i | 0 <= i < |s| :: p(s[i])
    ensures Filter(s, p) == s
  {
    if s != [] {
      FilterAll(s[..|s| - 1], p);
    }
  }

  lemma {:induction false} AtMostOne<T>(rows: seq<T>, p: T -> bool)
    requires forall i, j | 0 <= i < j < |rows| :: !(p(rows[i]) && p(rows[j]))
    ensures |Filter(rows, p)| <= 1
  {
    if rows != [] {
      var init, last := rows[..|rows| - 1], rows[|rows| - 1];
      AtMostOne(init, p);
      if p(last) {
        forall i | 0 <= i < |init| ensures !p(init[i]) {
          assert init[i] == rows[i];
        }
        FilterNone(init, p);
      }
    }
  }

  lemma {:induction false} TwoMatches<T>(rows: seq<T>, p: T -> bool, i: nat, j: nat)
    requires i < j < |rows| && p(rows[i]) && p(rows[j])
    ensures |Filter(rows, p)| >= 2
  {
    var init, last := rows[..|rows| - 1], rows[|rows| - 1];
    if j < |init| {
      TwoMatches(init, p, i, j);
    } else {
      FilterMembers(init, p);
      assert init[i] in init;
    }
  }

  lemma {:induction false} FilterFilter<T>(s: seq<T>, p: T -> bool, q: T -> bool, both: T -> bool)
    requires forall x | x in s :: both(x) == (p(x) && q(x))
    ensures Filter(Filter(s, p), q) == Filter(s, both)
  {
    if s != [] {
      var init, last := s[..|s| - 1], s[|s| - 1];
      assert forall x | x in init :: x in s;
      FilterFilter(init, p, q, both);
      if p(last) {
        FilterAppend(Filter(init, p), last, q);
      }
    }
  }

  /** Filtering looks only at the elements themselves. */
  lemma {:induction false} FilterCongruence<T>(s: seq<T>, p: T -> bool, q: T -> bool)
    requires forall x | x in s :: p(x) == q(x)
    ensures Filter(s, p) == Filter(s, q)
  {
    if s != [] {
      assert forall x | x in s[..|s| - 1] :: x in s;
      FilterCongruence(s[..|s| - 1], p, q);
    }
  }

  /** Replacing one element changes the number of matches by what it matched before and after. */
  lemma {:induction false} FilterUpdateSize<T>(s: seq<T>, i: nat, v: T, p: T -> bool)
    requires i < |s|
    ensures |Filter(s[i := v], p)| == |Filter(s, p)| - (if p(s[i]) then 1 else 0) + (if p(v) then 1 else 0)
  {
    var init, last := s[..|s| - 1], s[|s| - 1];
    if i == |init| {
      assert s[i := v][..|s| - 1] == init;
    } else {
      FilterUpdateSize(init, i, v, p);
      assert s[i := v][..|s| - 1] == init[i := v];
    }
  }

  lemma {:induction false} FilterUpdateUnmatched<T>(s: seq<T>, i: nat, v: T, p: T -> bool)
    requires i < |s| && !p(s[i]) && !p(v)
    ensures Filter(s[i := v], p) == Filter(s, p)
  {
    var init, last := s[..|s| - 1], s[|s| - 1];
    if i == |init| {
      assert s[i := v][..|s| - 1] == init;
    } else {
      FilterUpdateUnmatched(init, i, v, p);
      assert s[i := v][..|s| - 1] == init[i := v];
    }
  }

  lemma MapMembers<T, U>(s: seq<T>, f: T -> U, y: U)
    ensures y in Map(s, f) <==> exists x | x in s :: f(x) == y
  {
    if y in Map(s, f) {
      var i :| 0 <= i < |Map(s, f)| && Map(s, f)[i] == y;
      assert s[i] in s && f(s[i]) == y;
    }
    if x :| x in s && f(x) == y {
      var i :| 0 <= i < |s| && s[i] == x;
      assert Map(s, f)[i] == y;
    }
  }

  lemma FilterMapMembers<T, U>(s: seq<T>, f: T -> U, q: U -> bool, y: U)
    ensures y in Filter(Map(s, f), q) <==> q(y) && exists x | x in s :: f(x) == y
  {
    FilterMembers(Map(s, f), q);
    MapMembers(s, f, y);
  }

  lemma FilterMapStep<T, U>(s: seq<T>, n: nat, f: T -> U, q: U -> bool)
    requires n < |s|
    ensures var before := Filter(Map(s[..n], f), q);
            Filter(Map(s[..n + 1], f), q) == if q(f(s[n])) then before + [f(s[n])] else before
  {
    assert s[..n + 1] == s[..n] + [s[n]];
    MapAppend(s[..n], s[n], f);
    FilterAppend(Map(s[..n], f), f(s[n]), q);
  }

  lemma MapAppend<T, U>(s: seq<T>, x: T, f: T -> U)
    ensures Map(s + [x], f) == Map(s, f) + [f(x)]
  {
  }

  /** Filtering after mapping is filtering before it, when the tests agree. */
  lemma {:induction false} FilterMap<T, U>(s: seq<T>, f: T -> U, p: T -> bool, q: U -> bool)
    requires forall x | x in s :: q(f(x)) == p(x)
    ensures Filter(Map(s, f), q) == Map(Filter(s, p), f)
  {
    if s != [] {
      var init, last := s[..|s| - 1], s[|s| - 1];
      assert forall x | x in init :: x in s;
      FilterMap(init, f, p, q);
      assert s == init + [last];
      MapAppend(init, last, f);
      FilterAppend(Map(init, f), f(last), q);
      if p(last) {
        MapAppend(Filter(init, p), last, f);
      }
    }
  }

  lemma {:induction false} FilterDisjoint<T>(s: seq<T>, p: T -> bool, q: T -> bool)
    requires forall x :: !(p(x) && q(x))
    ensures |Filter(s, p)| + |Filter(s, q)| <= |s|
  {
    if s != [] {
      FilterDisjoint(s[..|s| - 1], p, q);
    }
  }

  lemma {:induction false} FilterMonotone<T>(s: seq<T>, p: T -> bool, q: T -> bool)
    requires forall x :: p(x) ==> q(x)
    ensures |Filter(s, p)| <= |Filter(s, q)|
  {
    if s != [] {
      FilterMonotone(s[..|s| - 1], p, q);
    }
  }

  lemma SumAppend<T>(s: seq<T>, x: T, f: T -> real)
    ensures Sum(s + [x], f) == Sum(s, f) + f(x)
  {
    assert (s + [x])[..|s|] == s;
  }

  lemma {:induction false} SumConcat<T>(a: seq<T>, b: seq<T>, f: T -> real)
    ensures Sum(a + b, f) == Sum(a, f) + Sum(b, f)
  {
    if b == [] {
      assert a + b == a;
    } else {
      SumConcat(a, b[..|b| - 1], f);
      assert a + b == (a + b[..|b| - 1]) + [b[|b| - 1]];
      SumAppend(a + b[..|b| - 1], b[|b| - 1], f);
    }
  }

  // ----------------------------------------------------------- nested loops

  /** What a loop collects that extends its list by `f(x)` for each `x`. */
  function FlatMap<T, U>(s: seq<T>, f: T -> seq<U>): seq<U>
  {
    if s == [] then [] else FlatMap(s[..|s| - 1], f) + f(s[|s| - 1])
  }

  lemma FlatMapStep<T, U>(s: seq<T>, n: nat, f: T -> seq<U>)
    requires n < |s|
    ensures FlatMap(s[..n + 1], f) == FlatMap(s[..n], f) + f(s[n])
  {
    assert s[..n + 1] == s[..n] + [s[n]];
    FlatMapAppend(s[..n], s[n], f);
  }

  lemma FlatMapAppend<T, U>(s: seq<T>, x: T, f: T -> seq<U>)
    ensures FlatMap(s + [x], f) == FlatMap(s, f) + f(x)
  {
    assert (s + [x])[..|s|] == s;
  }

  lemma {:induction false} FlatMapMembers<T, U>(s: seq<T>, f: T -> seq<U>, y: U)
    ensures y in FlatMap(s, f) <==> exists x | x in s :: y in f(x)
  {
    if s != [] {
      var init, last := s[..|s| - 1], s[|s| - 1];
      FlatMapMembers(init, f, y);
      assert s == init + [last];
    }
  }

  /** What `x` contributes to a sum over the collected elements that match. */
  function PartOf<T, U>(f: T -> seq<U>, q: U -> bool, w: U -> real): T -> real
  {
    (x: T) => Sum(Filter(f(x), q), w)
  }

  lemma {:induction false} SumFlatMap<T, U>(s: seq<T>, f: T -> seq<U>, q: U -> bool, w: U -> real)
    ensures Sum(Filter(FlatMap(s, f), q), w) == Sum(s, PartOf(f, q, w))
  {
    if s != [] {
      var init, last := s[..|s| - 1], s[|s| - 1];
      SumFlatMap(init, f, q, w);
      FilterConcat(FlatMap(init, f), f(last), q);
      SumConcat(Filter(FlatMap(init, f), q), Filter(f(last), q), w);
    }
  }

  ghost predicate Distinct<T>(s: seq<T>)
  {
    forall i, j | 0 <= i < j < |s| :: s[i] != s[j]
  }

  lemma {:induction false} SumOfZeros<T>(s: seq<T>, f: T -> real)
    requires forall x | x in s :: f(x) == 0.0
    ensures Sum(s, f) == 0.0
  {
    if s != [] {
      assert forall x | x in s[..|s| - 1] :: x in s;
      SumOfZeros(s[..|s| - 1], f);
    }
  }

  lemma {:induction false} SumOfOne<T>(s: seq<T>, x: T, f: T -> real)
    requires Distinct(s) && x in s && forall y | y in s && y != x :: f(y) == 0.0
    ensures Sum(s, f) == f(x)
  {
    var init, last := s[..|s| - 1], s[|s| - 1];
    assert s == init + [last];
    if last == x {
      SumOfZeros(init, f);
    } else {
      SumOfOne(init, x, f);
    }
  }

  lemma {:induction false} SumCongruence<T>(s: seq<T>, f: T -> real, g: T -> real)
    requires forall x | x in s :: f(x) == g(x)
    ensures Sum(s, f) == Sum(s, g)
  {
    if s != [] {
      assert forall x | x in s[..|s| - 1] :: x in s;
      SumCongruence(s[..|s| - 1], f, g);
    }
  }

  function Plus<T>(f: T -> real, g: T -> real): T -> real { (x: T) => f(x) + g(x) }

  lemma {:induction false} SumPlus<T>(s: seq<T>, f: T -> real, g: T -> real)
    ensures Sum(s, Plus(f, g)) == Sum(s, f) + Sum(s, g)
  {
    if s != [] {
      SumPlus(s[..|s| - 1], f, g);
    }
  }
}
