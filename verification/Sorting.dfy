/** Python's stable `sorted(..., key=...)`, as insertion sort. */
module Sorting {
  import opened Basics

  ghost predicate SortedBy<T>(s: seq<T>, key: T -> real)
  {
    forall i, j | 0 <= i < j < |s| :: key(s[i]) <= key(s[j])
  }

  /** `x` goes behind the elements it ties with. */
  function Place<T>(s: seq<T>, x: T, key: T -> real): (r: seq<T>)
    ensures |r| == |s| + 1
  {
    if s == [] then [x]
    else if key(x) < key(s[0]) then [x] + s
    else [s[0]] + Place(s[1..], x, key)
  }

  function SortBy<T>(s: seq<T>, key: T -> real): (r: seq<T>)
    ensures |r| == |s|
  {
    if s == [] then [] else Place(SortBy(s[..|s| - 1], key), s[|s| - 1], key)
  }

  lemma {:induction false} PlaceAdds<T>(s: seq<T>, x: T, key: T -> real)
    ensures multiset(Place(s, x, key)) == multiset(s) + multiset{x}
  {
    if s != [] && key(x) >= key(s[0]) {
      PlaceAdds(s[1..], x, key);
      assert s == [s[0]] + s[1..];
    }
  }

  lemma ConsSorts<T>(x: T, rest: seq<T>, key: T -> real)
    requires SortedBy(rest, key) && forall i | 0 <= i < |rest| :: key(x) <= key(rest[i])
    ensures SortedBy([x] + rest, key)
  {
    var s := [x] + rest;
    forall i, j | 0 <= i < j < |s| ensures key(s[i]) <= key(s[j]) {
      assert s[j] == rest[j - 1];
      assert i > 0 ==> s[i] == rest[i - 1];
    }
  }

  lemma {:induction false} PlaceSorts<T>(s: seq<T>, x: T, key: T -> real)
    requires SortedBy(s, key)
    ensures SortedBy(Place(s, x, key), key)
  {
    if s == [] {
    } else if key(x) < key(s[0]) {
      ConsSorts(x, s, key);
    } else {
      PlaceSorts(s[1..], x, key);
      PlaceAdds(s[1..], x, key);
      var rest := Place(s[1..], x, key);
      forall i | 0 <= i < |rest| ensures key(s[0]) <= key(rest[i]) {
        assert rest[i] in multiset(rest);
        if rest[i] != x {
          var j :| 0 <= j < |s[1..]| && s[1..][j] == rest[i];
          assert rest[i] == s[j + 1];
        }
      }
      ConsSorts(s[0], rest, key);
    }
  }

  lemma {:induction false} SortSorts<T>(s: seq<T>, key: T -> real)
    ensures SortedBy(SortBy(s, key), key)
    ensures multiset(SortBy(s, key)) == multiset(s)
  {
    if s != [] {
      SortSorts(s[..|s| - 1], key);
      PlaceSorts(SortBy(s[..|s| - 1], key), s[|s| - 1], key);
      PlaceAdds(SortBy(s[..|s| - 1], key), s[|s| - 1], key);
      assert s == s[..|s| - 1] + [s[|s| - 1]];
    }
  }

  /** Sorting neither invents nor loses elements. */
  lemma SortMembers<T>(s: seq<T>, key: T -> real)
    ensures forall x :: x in SortBy(s, key) <==> x in s
  {
    SortSorts(s, key);
    forall x ensures x in SortBy(s, key) <==> x in s {
      assert x in multiset(SortBy(s, key)) <==> x in multiset(s);
    }
  }

  lemma {:induction false} PlaceLast<T>(s: seq<T>, x: T, key: T -> real)
    requires forall i | 0 <= i < |s| :: key(s[i]) <= key(x)
    ensures Place(s, x, key) == s + [x]
  {
    if s != [] {
      PlaceLast(s[1..], x, key);
      assert s == [s[0]] + s[1..];
    }
  }

  lemma {:induction false} SortIsIdentityOnSorted<T>(s: seq<T>, key: T -> real)
    requires SortedBy(s, key)
    ensures SortBy(s, key) == s
  {
    if s != [] {
      SortIsIdentityOnSorted(s[..|s| - 1], key);
      PlaceLast(s[..|s| - 1], s[|s| - 1], key);
    }
  }

  /** `Place` inserts between the elements not above `x` and those above it. */
  lemma {:induction false} PlaceBetween<T>(a: seq<T>, b: seq<T>, x: T, key: T -> real)
    requires forall i | 0 <= i < |a| :: key(a[i]) <= key(x)
    requires forall i | 0 <= i < |b| :: key(x) < key(b[i])
    ensures Place(a + b, x, key) == a + [x] + b
  {
    if a == [] {
      assert a + b == b;
    } else {
      PlaceBetween(a[1..], b, x, key);
      assert (a + b)[1..] == a[1..] + b;
      assert a + [x] + b == [a[0]] + (a[1..] + [x] + b);
    }
  }

  /** Where `x` splits a sorted sequence. */
  lemma SplitPoint<T>(s: seq<T>, x: T, key: T -> real) returns (i: nat)
    requires SortedBy(s, key)
    ensures i <= |s|
    ensures forall j | 0 <= j < i :: key(s[j]) <= key(x)
    ensures forall j | i <= j < |s| :: key(x) < key(s[j])
  {
    i := |s|;
    while i > 0 && key(x) < key(s[i - 1])
      invariant i <= |s|
      invariant forall j | i <= j < |s| :: key(x) < key(s[j])
    {
      i := i - 1;
    }
  }

  lemma {:induction false} FilterKeepsBound<T>(s: seq<T>, p: T -> bool, q: T -> bool)
    requires forall i | 0 <= i < |s| :: q(s[i])
    ensures forall i | 0 <= i < |Filter(s, p)| :: q(Filter(s, p)[i])
  {
    if s != [] {
      FilterKeepsBound(s[..|s| - 1], p, q);
    }
  }

  lemma FilterAround<T>(a: seq<T>, x: T, b: seq<T>, p: T -> bool)
    ensures Filter(a + [x] + b, p) == if p(x) then Filter(a, p) + [x] + Filter(b, p) else Filter(a + b, p)
  {
    FilterConcat(a + [x], b, p);
    FilterAppend(a, x, p);
    FilterConcat(a, b, p);
  }

  lemma FilterPlace<T>(s: seq<T>, x: T, key: T -> real, p: T -> bool)
    requires SortedBy(s, key)
    ensures Filter(Place(s, x, key), p) == if p(x) then Place(Filter(s, p), x, key) else Filter(s, p)
  {
    var i := SplitPoint(s, x, key);
    var a, b := s[..i], s[i..];
    assert s == a + b;
    PlaceBetween(a, b, x, key);
    FilterAround(a, x, b, p);
    FilterConcat(a, b, p);
    FilterKeepsBound(a, p, y => key(y) <= key(x));
    FilterKeepsBound(b, p, y => key(x) < key(y));
    PlaceBetween(Filter(a, p), Filter(b, p), x, key);
  }

  /** A stable sort commutes with filtering. */
  lemma {:induction false} FilterSort<T>(s: seq<T>, key: T -> real, p: T -> bool)
    ensures Filter(SortBy(s, key), p) == SortBy(Filter(s, p), key)
  {
    if s != [] {
      var init, last := s[..|s| - 1], s[|s| - 1];
      FilterSort(init, key, p);
      SortSorts(init, key);
      FilterPlace(SortBy(init, key), last, key, p);
      if p(last) {
        assert (Filter(init, p) + [last])[..|Filter(init, p)|] == Filter(init, p);
      }
    }
  }

  // ------------------------------------------------------------- numbers

  function Identity(): real -> real { (x: real) => x }

  function AtMost(x: real): real -> bool { (v: real) => v <= x }

  function AtLeast(x: real): real -> bool { (v: real) => v >= x }

  lemma PrefixPasses(s: seq<real>, p: real -> bool, k: nat)
    requires k <= |s|
    requires forall i | 0 <= i < k :: p(s[i])
    ensures |Filter(s, p)| >= k
  {
    assert s == s[..k] + s[k..];
    FilterConcat(s[..k], s[k..], p);
    FilterAll(s[..k], p);
  }

  lemma SuffixPasses(s: seq<real>, p: real -> bool, k: nat)
    requires k <= |s|
    requires forall i | k <= i < |s| :: p(s[i])
    ensures |Filter(s, p)| >= |s| - k
  {
    assert s == s[..k] + s[k..];
    FilterConcat(s[..k], s[k..], p);
    FilterAll(s[k..], p);
  }

  /** Sorting does not change how many values pass a test. */
  lemma CountSorted(values: seq<real>, p: real -> bool)
    ensures |Filter(SortBy(values, Identity()), p)| == |Filter(values, p)|
  {
    FilterSort(values, Identity(), p);
  }

  /** Sorted sequences of numbers are determined by their contents. */
  lemma {:induction false} SortedUnique(a: seq<real>, b: seq<real>)
    requires SortedBy(a, Identity()) && SortedBy(b, Identity())
    requires multiset(a) == multiset(b)
    ensures a == b
  {
    SameLength(a, b);
    if a != [] {
      SameHeadAndTail(a, b);
      SortedUnique(a[1..], b[1..]);
      SameCons(a, b);
    }
  }

  lemma SameHeadAndTail(a: seq<real>, b: seq<real>)
    requires SortedBy(a, Identity()) && SortedBy(b, Identity())
    requires multiset(a) == multiset(b) && a != [] && b != []
    ensures a[0] == b[0] && multiset(a[1..]) == multiset(b[1..])
    ensures SortedBy(a[1..], Identity()) && SortedBy(b[1..], Identity())
  {
    HeadTail(a);
    HeadTail(b);
    FirstIsLeast(a, b[0]);
    FirstIsLeast(b, a[0]);
  }

  lemma SameCons<T>(a: seq<T>, b: seq<T>)
    requires a != [] && b != [] && a[0] == b[0] && a[1..] == b[1..]
    ensures a == b
  {
    assert a == [a[0]] + a[1..] && b == [b[0]] + b[1..];
  }

  lemma SameLength<T>(a: seq<T>, b: seq<T>)
    requires multiset(a) == multiset(b)
    ensures |a| == |b|
  {
    assert |multiset(a)| == |a| && |multiset(b)| == |b|;
  }

  lemma HeadTail(s: seq<real>)
    requires s != [] && SortedBy(s, Identity())
    ensures SortedBy(s[1..], Identity())
    ensures multiset(s[1..]) == multiset(s) - multiset{s[0]}
    ensures s[0] in multiset(s)
  {
    assert s == [s[0]] + s[1..];
  }

  lemma FirstIsLeast(s: seq<real>, x: real)
    requires SortedBy(s, Identity()) && x in multiset(s)
    ensures s != [] && s[0] <= x
  {
    var i :| 0 <= i < |s| && s[i] == x;
    assert 0 < i ==> Identity()(s[0]) <= Identity()(s[i]);
  }
}
