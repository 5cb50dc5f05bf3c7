/** The frozen walk-forward rows that both policy modules read, and their summary statistics. */
module AuditRows {
  import opened Basics
  import opened Sorting

  datatype Horizon = OneMonth | ThreeMonths | SixMonths | TwelveMonths

  /** One optional figure per horizon. */
  datatype PerHorizon = PerHorizon(m1: Option<real>, m3: Option<real>, m6: Option<real>, m12: Option<real>) {
    function At(h: Horizon): Option<real>
    {
      match h
      case OneMonth => m1
      case ThreeMonths => m3
      case SixMonths => m6
      case TwelveMonths => m12
    }
  }

  /**
   * The fields of `AuditRow` the policy code uses.  `impact`, `ageBucket` and `concentrationBucket`
   * stand for the results of the functions of those names, which are not part of this model.
   */
  datatype AuditRow = AuditRow(
    decisionId: int, symbol: string, action: string, calendarYear: int, included: bool,
    holdingAgeDays: Option<int>, concentrationPct: Option<real>,
    stockReturn: PerHorizon, benchmarkReturn: PerHorizon, excessReturn: PerHorizon,
    benchmarkTriReturn: PerHorizon, excessReturnTri: PerHorizon,
    maxDrawdownPct: Option<real>, quantityHeld: real, holdQuantityHeld: Option<real>, entryPrice: Option<real>,
    impact: PerHorizon, ageBucket: string, concentrationBucket: string)

  datatype Benchmark = PriceIndex | Tri

  function Positive(): real -> bool { (x: real) => x > 0.0 }

  function Not2020(): AuditRow -> bool { (r: AuditRow) => r.calendarYear != 2020 }

  function Drawdown(): AuditRow -> Option<real> { (r: AuditRow) => r.maxDrawdownPct }

  /** The figures that are present, in row order. */
  function Present(rows: seq<AuditRow>, f: AuditRow -> Option<real>): seq<real>
  {
    if rows == [] then [] else
      var rest := Present(rows[..|rows| - 1], f);
      var x := f(rows[|rows| - 1]);
      if x.Some? then rest + [x.value] else rest
  }

  function Median(values: seq<real>): (m: Option<real>)
    ensures m.Some? <==> values != []
  {
    if values == [] then None else
      var ordered := SortBy(values, Identity());
      var middle := |ordered| / 2;
      Some(if |ordered| % 2 == 1 then ordered[middle] else (ordered[middle - 1] + ordered[middle]) / 2.0)
  }

  /** `hits` of `n`, in percent. */
  function Share(hits: nat, n: nat): (s: real)
    requires n > 0
    ensures s * n as real == 100.0 * hits as real
  {
    ShareUndone(hits, n);
    hits as real * 100.0 / n as real
  }

  lemma ShareUndone(hits: nat, n: nat)
    requires n > 0
    ensures (hits as real * 100.0 / n as real) * n as real == 100.0 * hits as real
  {
  }

  /** The share of values satisfying `p`, in percent. */
  function Rate(values: seq<real>, p: real -> bool): (r: Option<real>)
    ensures r.Some? <==> values != []
  {
    if values == [] then None else Some(Share(|Filter(values, p)|, |values|))
  }

  function Percent(x: Option<real>): Option<real>
  {
    if x.Some? then Some(x.value * 100.0) else None
  }

  /** At least half of the values are not above the median and at least half are not below it. */
  lemma MedianSplits(values: seq<real>)
    requires values != []
    ensures var m := Median(values).value;
            && 2 * |Filter(values, AtMost(m))| >= |values|
            && 2 * |Filter(values, AtLeast(m))| >= |values|
  {
    var ordered := SortBy(values, Identity());
    var m := Median(values).value;
    SortSorts(values, Identity());
    CountSorted(values, AtMost(m));
    CountSorted(values, AtLeast(m));
    MedianOfSorted(ordered, m);
  }

  lemma MedianOfSorted(s: seq<real>, m: real)
    requires s != [] && SortedBy(s, Identity())
    requires m == if |s| % 2 == 1 then s[|s| / 2] else (s[|s| / 2 - 1] + s[|s| / 2]) / 2.0
    ensures 2 * |Filter(s, AtMost(m))| >= |s| && 2 * |Filter(s, AtLeast(m))| >= |s|
  {
    var middle := |s| / 2;
    if |s| % 2 == 1 {
      assert forall i | 0 <= i < middle :: Identity()(s[i]) <= Identity()(s[middle]);
      assert forall i | middle < i < |s| :: Identity()(s[middle]) <= Identity()(s[i]);
      PrefixPasses(s, AtMost(m), middle + 1);
      SuffixPasses(s, AtLeast(m), middle);
    } else {
      assert Identity()(s[middle - 1]) <= Identity()(s[middle]);
      assert forall i | 0 <= i < middle - 1 :: Identity()(s[i]) <= Identity()(s[middle - 1]);
      assert forall i | middle < i < |s| :: Identity()(s[middle]) <= Identity()(s[i]);
      PrefixPasses(s, AtMost(m), middle);
      SuffixPasses(s, AtLeast(m), middle);
    }
  }

  // ------------------------------------------------ figures of a set of rows

  function HasFigure(f: AuditRow -> Option<real>): AuditRow -> bool { (r: AuditRow) => f(r).Some? }

  function FigurePasses(f: AuditRow -> Option<real>, p: real -> bool): AuditRow -> bool
  {
    (r: AuditRow) => f(r).Some? && p(f(r).value)
  }

  lemma {:induction false} PresentCounts(rows: seq<AuditRow>, f: AuditRow -> Option<real>, p: real -> bool)
    ensures |Present(rows, f)| == |Filter(rows, HasFigure(f))|
    ensures |Filter(Present(rows, f), p)| == |Filter(rows, FigurePasses(f, p))|
  {
    if rows != [] {
      var init, last := rows[..|rows| - 1], rows[|rows| - 1];
      PresentCounts(init, f, p);
      if f(last).Some? {
        FilterAppend(Present(init, f), f(last).value, p);
      }
    }
  }

  /** At most, at least a figure after scaling. */
  function ScaledAtMost(scale: real, m: real): real -> bool { (x: real) => x * scale <= m }

  function ScaledAtLeast(scale: real, m: real): real -> bool { (x: real) => x * scale >= m }

  /**
   * `figure` is the median of what `f` gives on the rows, times `scale`: it is there exactly when some
   * row has a value, and at least half of the values lie on either side of it.
   */
  ghost predicate IsMedian(rows: seq<AuditRow>, f: AuditRow -> Option<real>, scale: real, figure: Option<real>)
  {
    var n := |Filter(rows, HasFigure(f))|;
    && (figure.Some? <==> n > 0)
    && (figure.Some? ==>
          && 2 * |Filter(rows, FigurePasses(f, ScaledAtMost(scale, figure.value)))| >= n
          && 2 * |Filter(rows, FigurePasses(f, ScaledAtLeast(scale, figure.value)))| >= n)
  }

  /** `figure` is the share, in percent, of the values of `f` above zero. */
  ghost predicate IsPositiveShare(rows: seq<AuditRow>, f: AuditRow -> Option<real>, figure: Option<real>)
  {
    var n := |Filter(rows, HasFigure(f))|;
    && (figure.Some? <==> n > 0)
    && (figure.Some? ==> figure.value == Share(|Filter(rows, FigurePasses(f, AboveZero()))|, n))
  }

  /** Counting among the values present is counting rows, whichever way the figure and the test are written. */
  lemma PassCounts(rows: seq<AuditRow>, f: AuditRow -> Option<real>, g: AuditRow -> Option<real>,
                   p: real -> bool, q: real -> bool)
    requires forall r :: f(r) == g(r)
    requires forall x :: p(x) == q(x)
    ensures |Present(rows, f)| == |Filter(rows, HasFigure(g))|
    ensures |Filter(Present(rows, f), p)| == |Filter(rows, FigurePasses(g, q))|
  {
    PresentCounts(rows, f, p);
    FilterCongruence(rows, HasFigure(f), HasFigure(g));
    forall r ensures FigurePasses(f, p)(r) == FigurePasses(g, q)(r) {
      assert f(r) == g(r);
      if f(r).Some? {
        var x := f(r).value;
        assert p(x) == q(x);
      }
    }
    FilterCongruence(rows, FigurePasses(f, p), FigurePasses(g, q));
  }

  lemma {:induction false} FilterSubset<T>(s: seq<T>, p: T -> bool, q: T -> bool)
    requires forall x | x in s && p(x) :: q(x)
    ensures |Filter(s, p)| <= |Filter(s, q)|
  {
    if s != [] {
      assert forall x | x in s[..|s| - 1] :: x in s;
      FilterSubset(s[..|s| - 1], p, q);
    }
  }

  lemma ScaledOrder(x: real, m: real, scale: real)
    requires scale > 0.0
    ensures x <= m <==> x * scale <= m * scale
    ensures x >= m <==> x * scale >= m * scale
  {
  }

  lemma HalvesCounted(rows: seq<AuditRow>, f: AuditRow -> Option<real>, g: AuditRow -> Option<real>, scale: real,
                      m: real)
    requires scale > 0.0 && forall r :: f(r) == g(r)
    ensures |Filter(Present(rows, f), AtMost(m))| == |Filter(rows, FigurePasses(g, ScaledAtMost(scale, m * scale)))|
    ensures |Filter(Present(rows, f), AtLeast(m))| == |Filter(rows, FigurePasses(g, ScaledAtLeast(scale, m * scale)))|
  {
    forall x ensures AtMost(m)(x) == ScaledAtMost(scale, m * scale)(x)
             ensures AtLeast(m)(x) == ScaledAtLeast(scale, m * scale)(x) {
      ScaledOrder(x, m, scale);
    }
    PassCounts(rows, f, g, AtMost(m), ScaledAtMost(scale, m * scale));
    PassCounts(rows, f, g, AtLeast(m), ScaledAtLeast(scale, m * scale));
  }

  /** The same, given how many rows have a value and how many lie on either side. */
  lemma MedianFromCounts(rows: seq<AuditRow>, g: AuditRow -> Option<real>, scale: real, m: real, n: nat, below: nat,
                         above: nat)
    requires n == |Filter(rows, HasFigure(g))| && n > 0 && 2 * below >= n && 2 * above >= n
    requires below == |Filter(rows, FigurePasses(g, ScaledAtMost(scale, m * scale)))|
    requires above == |Filter(rows, FigurePasses(g, ScaledAtLeast(scale, m * scale)))|
    ensures IsMedian(rows, g, scale, Some(m * scale))
  {
  }

  lemma MedianAt(rows: seq<AuditRow>, f: AuditRow -> Option<real>, g: AuditRow -> Option<real>, scale: real, m: real)
    requires scale > 0.0 && forall r :: f(r) == g(r)
    requires Median(Present(rows, f)) == Some(m)
    ensures IsMedian(rows, g, scale, Some(m * scale))
  {
    var values := Present(rows, f);
    MedianSplits(values);
    PassCounts(rows, f, g, Positive(), Positive());
    HalvesCounted(rows, f, g, scale, m);
    MedianFromCounts(rows, g, scale, m, |values|, |Filter(values, AtMost(m))|, |Filter(values, AtLeast(m))|);
  }

  lemma MedianAtPercent(rows: seq<AuditRow>, f: AuditRow -> Option<real>, g: AuditRow -> Option<real>, m: real,
                        shown: real)
    requires (forall r :: f(r) == g(r)) && Median(Present(rows, f)) == Some(m) && shown == m * 100.0
    ensures IsMedian(rows, g, 100.0, Some(shown))
  {
    MedianAt(rows, f, g, 100.0, m);
  }

  lemma PercentIs(figure: Option<real>)
    ensures figure.Some? ==> Percent(figure).Some? && Percent(figure).value == figure.value * 100.0
    ensures figure.None? ==> Percent(figure).None?
  {
  }

  lemma NoMedian(rows: seq<AuditRow>, f: AuditRow -> Option<real>, g: AuditRow -> Option<real>, scale: real)
    requires (forall r :: f(r) == g(r)) && Present(rows, f) == []
    ensures IsMedian(rows, g, scale, None)
  {
    PassCounts(rows, f, g, Positive(), Positive());
  }

  /** The median of what the rows show; `g` is the same figure as `f`. */
  lemma MedianMeans(rows: seq<AuditRow>, f: AuditRow -> Option<real>, g: AuditRow -> Option<real>, figure: Option<real>)
    requires (forall r :: f(r) == g(r)) && figure == Median(Present(rows, f))
    ensures IsMedian(rows, g, 1.0, figure)
  {
    if figure.Some? {
      MedianAt(rows, f, g, 1.0, figure.value);
    } else {
      NoMedian(rows, f, g, 1.0);
    }
  }

  /** The same in percent. */
  lemma MedianPercentMeans(rows: seq<AuditRow>, f: AuditRow -> Option<real>, g: AuditRow -> Option<real>,
                           figure: Option<real>)
    requires (forall r :: f(r) == g(r)) && figure == Median(Present(rows, f))
    ensures IsMedian(rows, g, 100.0, Percent(figure))
  {
    if figure.Some? {
      PercentIs(figure);
      MedianAtPercent(rows, f, g, figure.value, Percent(figure).value);
    } else {
      NoMedian(rows, f, g, 100.0);
    }
  }

  lemma ShareAt(rows: seq<AuditRow>, f: AuditRow -> Option<real>, g: AuditRow -> Option<real>, rate: real)
    requires (forall r :: f(r) == g(r)) && Rate(Present(rows, f), Positive()) == Some(rate)
    ensures IsPositiveShare(rows, g, Some(rate))
  {
    PassCounts(rows, f, g, Positive(), AboveZero());
  }

  lemma NoShare(rows: seq<AuditRow>, f: AuditRow -> Option<real>, g: AuditRow -> Option<real>)
    requires (forall r :: f(r) == g(r)) && Present(rows, f) == []
    ensures IsPositiveShare(rows, g, None)
  {
    PassCounts(rows, f, g, Positive(), Positive());
  }

  lemma ShareMeans(rows: seq<AuditRow>, f: AuditRow -> Option<real>, g: AuditRow -> Option<real>, figure: Option<real>)
    requires (forall r :: f(r) == g(r)) && figure == Rate(Present(rows, f), Positive())
    ensures IsPositiveShare(rows, g, figure)
  {
    if figure.Some? {
      ShareAt(rows, f, g, figure.value);
    } else {
      NoShare(rows, f, g);
    }
  }

  function AboveZero(): real -> bool { (x: real) => x > 0.0 }
}
