/** `services/valuation.py`, with the row `historical_pe_band.py` writes for it. */
module Valuation {
  import opened Basics
  import opened Sorting
  import opened Rounding
  import opened Clock
  import opened QuarterFacts
  import opened QuarterChoice
  import FinancialResults
  import VersionedTable
  import opened FiscalCalendar
  import opened PeBand
  import PeEvidence

  const MODEL_VERSION: string := "deterministic-valuation-v1"
  const BAND_RULE: string := "historical-pe-band-v1"
  const MAX_FINANCIAL_AGE: int := 180 * MICROS_PER_DAY

  // -------------------------------------------------- trailing twelve months

  function PositionOf(quarter: string): int
  {
    if quarter == "Q1" then 0 else if quarter == "Q2" then 1
    else if quarter == "Q3" then 2 else if quarter == "Q4" then 3 else -1
  }

  /** The check the code makes on the labels of the four quarters, oldest first. */
  predicate LabelsContiguous(labels: seq<string>)
    requires |labels| == 4
  {
    && PositionOf(labels[0]) >= 0
    && forall i | 0 <= i < 4 :: PositionOf(labels[i]) == (PositionOf(labels[0]) + i) % 4
  }

  function Scoped(company: int, scope: string, asOf: int): Fact -> bool
  {
    (f: Fact) => f.company == company && f.verified && f.basis == "QUARTER" && f.scope == scope && f.availableAt <= asOf
  }

  function Reversed<T>(s: seq<T>): (r: seq<T>)
    ensures |r| == |s|
    ensures forall i | 0 <= i < |s| :: r[i] == s[|s| - 1 - i]
  {
    seq(|s|, i requires 0 <= i < |s| => s[|s| - 1 - i])
  }

  function Label(): Fact -> string { (f: Fact) => f.quarter }

  /** The sum of the diluted figures; `None` when one is missing or not positive. */
  function DilutedSum(ordered: seq<Fact>): (total: Option<real>)
    ensures total.Some? ==> total.value >= 0.0
    ensures total.Some? && ordered != [] ==> total.value > 0.0
  {
    if ordered == [] then Some(0.0) else
      var rest := DilutedSum(ordered[..|ordered| - 1]);
      var eps := ordered[|ordered| - 1].epsDiluted;
      if rest.Some? && eps.Some? && eps.value > 0.0 then Some(rest.value + eps.value) else None
  }

  datatype Earnings = Earnings(total: real, resultIds: seq<int>, sourceDocument: Option<int>)

  /** The four quarters, newest first. */
  function TtmTop(facts: seq<Fact>, company: int, asOf: int, scope: string): seq<Fact>
  {
    TopFour(LatestPerPeriod(Filter(facts, Scoped(company, scope, asOf)), ByVersionThenAvailability()))
  }

  function TtmQuarters(facts: seq<Fact>, company: int, asOf: int, scope: string): seq<Fact>
  {
    Reversed(TtmTop(facts, company, asOf, scope))
  }

  function TtmEarnings(facts: seq<Fact>, company: int, asOf: int, scope: string): (e: Option<Earnings>)
    ensures e.Some? ==> e.value.total > 0.0
  {
    var ordered := TtmQuarters(facts, company, asOf, scope);
    if |ordered| != 4 || !LabelsContiguous(Map(ordered, Label())) then None else
      var total := DilutedSum(ordered);
      if total.None? then None
      else Some(Earnings(total.value, Map(ordered, FactId()), ordered[3].sourceDocument))
  }

  function Diluted(): Fact -> real { (f: Fact) => if f.epsDiluted.Some? then f.epsDiluted.value else 0.0 }

  /** There is a total exactly when every figure is present and positive, and it is their sum. */
  lemma {:induction false} DilutedMeans(ordered: seq<Fact>)
    ensures DilutedSum(ordered).Some? <==> forall f | f in ordered :: f.epsDiluted.Some? && f.epsDiluted.value > 0.0
    ensures DilutedSum(ordered).Some? ==> DilutedSum(ordered).value == Sum(ordered, Diluted())
  {
    if ordered != [] {
      var init, last := ordered[..|ordered| - 1], ordered[|ordered| - 1];
      DilutedMeans(init);
      assert ordered == init + [last];
    }
  }

  lemma {:induction false} DilutedAbsorbs(ordered: seq<Fact>, n: nat)
    requires n <= |ordered| && DilutedSum(ordered[..n]).None?
    ensures DilutedSum(ordered).None?
  {
    if n == |ordered| {
      assert ordered[..n] == ordered;
    } else {
      var init := ordered[..|ordered| - 1];
      assert init[..n] == ordered[..n];
      DilutedAbsorbs(init, n);
    }
  }

  /** The summing loop, leaving at the first missing or non-positive figure. */
  method SumDiluted(ordered: seq<Fact>) returns (sum: Option<real>)
    ensures sum == DilutedSum(ordered)
  {
    var total := 0.0;
    for n := 0 to |ordered|
      invariant Some(total) == DilutedSum(ordered[..n])
    {
      var f := ordered[n];
      assert ordered[..n + 1][..n] == ordered[..n];
      if f.epsDiluted.None? || f.epsDiluted.value <= 0.0 {
        DilutedAbsorbs(ordered, n + 1);
        return None;
      }
      total := total + f.epsDiluted.value;
    }
    assert ordered[..|ordered|] == ordered;
    sum := Some(total);
  }

  method ComputeTtmEarnings(facts: seq<Fact>, company: int, asOf: int, scope: string) returns (e: Option<Earnings>)
    ensures e == TtmEarnings(facts, company, asOf, scope)
  {
    var latest := SelectLatest(Filter(facts, Scoped(company, scope, asOf)), ByVersionThenAvailability());
    var ordered := Reversed(TopFour(latest));
    if |ordered| != 4 || !LabelsContiguous(Map(ordered, Label())) {
      return None;
    }
    var total := SumDiluted(ordered);
    if total.None? {
      return None;
    }
    e := Some(Earnings(total.value, Map(ordered, FactId()), ordered[3].sourceDocument));
  }

  /** The four period ends a run of facts stands for, when their labels come from the fiscal calendar. */
  ghost predicate LabelledBy(ordered: seq<Fact>, ends: seq<Date>)
  {
    && |ordered| == |ends|
    && forall i | 0 <= i < |ends| ::
         && IsDate(ends[i])
         && ordered[i].periodEnd == Ordinal(ends[i])
         && ordered[i].quarter == ResolveFiscalPeriod(ends[i]).1
  }

  lemma PositionIsQuarter(d: Date)
    ensures PositionOf(ResolveFiscalPeriod(d).1) == QuarterNumber(d) - 1 == QuarterIndex(d) % 4
  {
  }

  lemma AroundTheYear(p: int, q: int, r: int, s: int)
    requires 0 <= p < 4 && 0 <= q < 4 && 0 <= r < 4
    ensures q == (p + 1) % 4 && r == (p + 2) % 4 && s == (p + 3) % 4
       <==> q == (p + 1) % 4 && r == (q + 1) % 4 && s == (r + 1) % 4
  {
  }

  /** Each position is the one after its predecessor, around the year. */
  lemma LabelsStepwise(labels: seq<string>)
    requires |labels| == 4 && forall i | 0 <= i < 4 :: PositionOf(labels[i]) >= 0
    ensures LabelsContiguous(labels) <==>
            && PositionOf(labels[1]) == (PositionOf(labels[0]) + 1) % 4
            && PositionOf(labels[2]) == (PositionOf(labels[1]) + 1) % 4
            && PositionOf(labels[3]) == (PositionOf(labels[2]) + 1) % 4
  {
    var p0, p1, p2, p3 := PositionOf(labels[0]), PositionOf(labels[1]), PositionOf(labels[2]), PositionOf(labels[3]);
    assert LabelsContiguous(labels) <==> p1 == (p0 + 1) % 4 && p2 == (p0 + 2) % 4 && p3 == (p0 + 3) % 4;
    AroundTheYear(p0, p1, p2, p3);
  }

  /** The label check, seen on the quarters the labels stand for. */
  lemma AcceptedLabels(labels: seq<string>, a: int, b: int, c: int, d: int)
    requires |labels| == 4
    requires PositionOf(labels[0]) == a % 4 && PositionOf(labels[1]) == b % 4
    requires PositionOf(labels[2]) == c % 4 && PositionOf(labels[3]) == d % 4
    ensures LabelsContiguous(labels) <==> (b - a) % 4 == 1 && (c - b) % 4 == 1 && (d - c) % 4 == 1
  {
    LabelsStepwise(labels);
    NextModFour(a, b);
    NextModFour(b, c);
    NextModFour(c, d);
  }

  lemma LabelOf(ordered: seq<Fact>, ends: seq<Date>, i: nat)
    requires LabelledBy(ordered, ends) && i < |ordered|
    ensures PositionOf(Map(ordered, Label())[i]) == QuarterIndex(ends[i]) % 4
  {
    PositionIsQuarter(ends[i]);
  }

  lemma QuartersInOrder(ordered: seq<Fact>, ends: seq<Date>, i: nat, j: nat)
    requires LabelledBy(ordered, ends) && i < j < |ordered|
    requires ordered[i].periodEnd <= ordered[j].periodEnd
    ensures QuarterIndex(ends[i]) <= QuarterIndex(ends[j])
  {
    QuartersFollowDates(ends[i], ends[j]);
  }

  lemma NextModFour(a: int, b: int)
    ensures b % 4 == (a % 4 + 1) % 4 <==> (b - a) % 4 == 1
  {
  }

  lemma ConsecutiveIff(a: int, b: int, c: int, d: int)
    requires a <= b <= c <= d
    ensures (b == a + 1 && c == b + 1 && d == c + 1)
       <==> ((b - a) % 4 == 1 && (c - b) % 4 == 1 && (d - c) % 4 == 1 && d - a < 7)
  {
  }

  lemma ContiguityOfLabels(labels: seq<string>, a: int, b: int, c: int, d: int)
    requires |labels| == 4 && a <= b <= c <= d
    requires Positions(labels, a, b, c, d)
    ensures Establishes(LabelsContiguous(labels), a, b, c, d)
  {
    AcceptedLabels(labels, a, b, c, d);
    ConsecutiveIff(a, b, c, d);
  }

  /** Accepted quarters are each one after the last modulo a year, truly so exactly when they span fewer than seven. */
  ghost predicate Establishes(accepted: bool, a: int, b: int, c: int, d: int)
  {
    && (accepted <==> (b - a) % 4 == 1 && (c - b) % 4 == 1 && (d - c) % 4 == 1)
    && (b == a + 1 && c == b + 1 && d == c + 1 <==> accepted && d - a < 7)
  }

  /** The labels stand at these positions of the year. */
  ghost predicate Positions(labels: seq<string>, a: int, b: int, c: int, d: int)
    requires |labels| == 4
  {
    && PositionOf(labels[0]) == a % 4 && PositionOf(labels[1]) == b % 4
    && PositionOf(labels[2]) == c % 4 && PositionOf(labels[3]) == d % 4
  }

  lemma QuartersOfLabels(ordered: seq<Fact>, ends: seq<Date>)
    requires |ordered| == 4 && LabelledBy(ordered, ends)
    requires forall i, j | 0 <= i < j < 4 :: ordered[i].periodEnd <= ordered[j].periodEnd
    ensures var a, b, c, d := QuarterIndex(ends[0]), QuarterIndex(ends[1]), QuarterIndex(ends[2]),
            QuarterIndex(ends[3]);
            a <= b <= c <= d && Positions(Map(ordered, Label()), a, b, c, d)
  {
    LabelOf(ordered, ends, 0);
    LabelOf(ordered, ends, 1);
    LabelOf(ordered, ends, 2);
    LabelOf(ordered, ends, 3);
    QuartersInOrder(ordered, ends, 0, 1);
    QuartersInOrder(ordered, ends, 1, 2);
    QuartersInOrder(ordered, ends, 2, 3);
  }

  /**
   * What the label check establishes: successive quarters are one apart modulo a year.  The four are
   * truly consecutive exactly when they are accepted and span fewer than seven quarters.
   */
  lemma Contiguity(ordered: seq<Fact>, ends: seq<Date>)
    requires |ordered| == 4 && LabelledBy(ordered, ends)
    requires forall i, j | 0 <= i < j < 4 :: ordered[i].periodEnd <= ordered[j].periodEnd
    ensures Establishes(LabelsContiguous(Map(ordered, Label())),
                        QuarterIndex(ends[0]), QuarterIndex(ends[1]), QuarterIndex(ends[2]), QuarterIndex(ends[3]))
  {
    QuartersOfLabels(ordered, ends);
    ContiguityOfLabels(Map(ordered, Label()),
                       QuarterIndex(ends[0]), QuarterIndex(ends[1]), QuarterIndex(ends[2]), QuarterIndex(ends[3]));
  }

  /** The facts `_ttm_earnings` may use. */
  function InScope(facts: seq<Fact>, company: int, asOf: int, scope: string): seq<Fact>
  {
    Filter(facts, Scoped(company, scope, asOf))
  }

  lemma TtmSelection(facts: seq<Fact>, company: int, asOf: int, scope: string)
    ensures var ordered := TtmQuarters(facts, company, asOf, scope);
            |ordered| == 4 ==>
              FourLatestQuarters(InScope(facts, company, asOf, scope), Reversed(ordered), ByVersionThenAvailability())
  {
    var visible, newer := InScope(facts, company, asOf, scope), ByVersionThenAvailability();
    var quarters := TopFour(LatestPerPeriod(visible, newer));
    BothOrder();
    SelectionMeans(visible, newer);
    assert Reversed(Reversed(quarters)) == quarters;
  }

  /**
   * Trailing earnings exist exactly when four periods are there, their labels pass and every diluted
   * figure is present and positive.  They are then the sum over the four latest quarters in scope,
   * each by version and then availability.
   */
  lemma TtmMeans(facts: seq<Fact>, company: int, asOf: int, scope: string)
    ensures var e, ordered := TtmEarnings(facts, company, asOf, scope), TtmQuarters(facts, company, asOf, scope);
            && (e.Some? <==>
                  |ordered| == 4 && LabelsContiguous(Map(ordered, Label()))
                  && forall f | f in ordered :: f.epsDiluted.Some? && f.epsDiluted.value > 0.0)
            && (e.Some? ==>
                  && FourLatestQuarters(InScope(facts, company, asOf, scope), Reversed(ordered),
                     ByVersionThenAvailability())
                  && e.value.total == Sum(ordered, Diluted())
                  && |e.value.resultIds| == 4 && (forall i | 0 <= i < 4 :: e.value.resultIds[i] == ordered[i].id)
                  && e.value.sourceDocument == ordered[3].sourceDocument)
  {
    TtmSelection(facts, company, asOf, scope);
    DilutedMeans(TtmQuarters(facts, company, asOf, scope));
  }

  /** A verified single-quarter result of the company and scope, available by the instant. */
  ghost predicate Usable(f: Fact, company: int, asOf: int, scope: string)
  {
    f.company == company && f.verified && f.basis == "QUARTER" && f.scope == scope && f.availableAt <= asOf
  }

  /** No usable fact of its period has a higher version, or the same and a later availability. */
  ghost predicate Foremost(facts: seq<Fact>, f: Fact, company: int, asOf: int, scope: string)
  {
    && f in facts && Usable(f, company, asOf, scope)
    && forall g | g in facts && Usable(g, company, asOf, scope) && g.period == f.period ::
         g.version < f.version || (g.version == f.version && g.availableAt <= f.availableAt)
  }

  lemma LatestIsForemost(facts: seq<Fact>, f: Fact, company: int, asOf: int, scope: string)
    ensures IsLatestOf(InScope(facts, company, asOf, scope), f, ByVersionThenAvailability())
       <==> Foremost(facts, f, company, asOf, scope)
  {
    FilterMembers(facts, Scoped(company, scope, asOf));
  }

  lemma TtmPeriods(facts: seq<Fact>, company: int, asOf: int, scope: string)
    ensures |TtmQuarters(facts, company, asOf, scope)| == 4
       <==> |set f | f in facts && Usable(f, company, asOf, scope) :: f.period| >= 4
  {
    BothOrder();
    FourFoundIff(InScope(facts, company, asOf, scope), ByVersionThenAvailability());
    PeriodsUsable(facts, company, asOf, scope);
  }

  lemma TopIsForemost(facts: seq<Fact>, company: int, asOf: int, scope: string, q: Fact)
    requires |TtmTop(facts, company, asOf, scope)| == 4 && q in TtmTop(facts, company, asOf, scope)
    ensures Foremost(facts, q, company, asOf, scope)
  {
    BothOrder();
    SelectionMeans(InScope(facts, company, asOf, scope), ByVersionThenAvailability());
    LatestIsForemost(facts, q, company, asOf, scope);
  }

  lemma TtmForemost(facts: seq<Fact>, company: int, asOf: int, scope: string, i: nat)
    requires |TtmQuarters(facts, company, asOf, scope)| == 4 && i < 4
    ensures Foremost(facts, TtmQuarters(facts, company, asOf, scope)[i], company, asOf, scope)
  {
    TopIsForemost(facts, company, asOf, scope, TtmTop(facts, company, asOf, scope)[3 - i]);
  }

  lemma TtmInOrder(facts: seq<Fact>, company: int, asOf: int, scope: string)
    ensures var q := TtmQuarters(facts, company, asOf, scope);
            |q| == 4 ==>
              forall i, j | 0 <= i < j < 4 :: q[i].period != q[j].period && q[i].periodEnd <= q[j].periodEnd
  {
    BothOrder();
    SelectionMeans(InScope(facts, company, asOf, scope), ByVersionThenAvailability());
  }

  /**
   * Which facts the trailing quarters are: usable ones, one foremost fact for each of four periods,
   * oldest first, every other period with a usable fact ending no later than the oldest of them.
   * There are four exactly when usable facts of four periods exist.
   */
  lemma TtmUses(facts: seq<Fact>, company: int, asOf: int, scope: string)
    ensures var q := TtmQuarters(facts, company, asOf, scope);
            && (|q| == 4 <==> |set f | f in facts && Usable(f, company, asOf, scope) :: f.period| >= 4)
            && (|q| == 4 ==>
                  && (forall i, j | 0 <= i < j < 4 :: q[i].period != q[j].period && q[i].periodEnd <= q[j].periodEnd)
                  && (forall i | 0 <= i < 4 :: Foremost(facts, q[i], company, asOf, scope))
                  && (forall g | g in facts && Usable(g, company, asOf, scope)
                                 && (forall i | 0 <= i < 4 :: q[i].period != g.period) ::
                        EndsNoLater(facts, g.period, q[0].periodEnd, company, asOf, scope)))
  {
    var q := TtmQuarters(facts, company, asOf, scope);
    TtmPeriods(facts, company, asOf, scope);
    TtmInOrder(facts, company, asOf, scope);
    if |q| == 4 {
      forall i | 0 <= i < 4 ensures Foremost(facts, q[i], company, asOf, scope) {
        TtmForemost(facts, company, asOf, scope, i);
      }
      forall g | g in facts && Usable(g, company, asOf, scope) && (forall i | 0 <= i < 4 :: q[i].period != g.period)
        ensures EndsNoLater(facts, g.period, q[0].periodEnd, company, asOf, scope) {
        OtherEndsNoLater(facts, company, asOf, scope, g);
      }
    }
  }

  ghost predicate EndsNoLater(facts: seq<Fact>, period: int, end: int, company: int, asOf: int, scope: string)
  {
    exists f | Foremost(facts, f, company, asOf, scope) :: f.period == period && f.periodEnd <= end
  }

  lemma PeriodsUsable(facts: seq<Fact>, company: int, asOf: int, scope: string)
    ensures Periods(InScope(facts, company, asOf, scope))
         == set f | f in facts && Usable(f, company, asOf, scope) :: f.period
  {
    FilterMembers(facts, Scoped(company, scope, asOf));
  }

  lemma OtherEndsNoLater(facts: seq<Fact>, company: int, asOf: int, scope: string, g: Fact)
    requires |TtmQuarters(facts, company, asOf, scope)| == 4 && g in facts && Usable(g, company, asOf, scope)
    requires forall i | 0 <= i < 4 :: TtmQuarters(facts, company, asOf, scope)[i].period != g.period
    ensures EndsNoLater(facts, g.period, TtmQuarters(facts, company, asOf, scope)[0].periodEnd, company, asOf, scope)
  {
    var visible, newer, q := InScope(facts, company, asOf, scope), ByVersionThenAvailability(),
      TtmQuarters(facts, company, asOf, scope);
    var top := TopFour(LatestPerPeriod(visible, newer));
    BothOrder();
    FilterMembers(facts, Scoped(company, scope, asOf));
    forall t | t in top ensures t.period != g.period {
      var i :| 0 <= i < 4 && top[i] == t;
      assert q[3 - i] == t;
    }
    LeftOverEndsBy(visible, newer, g);
    var b :| IsLatestOf(visible, b, newer) && b.period == g.period && b.periodEnd <= top[3].periodEnd;
    LatestIsForemost(facts, b, company, asOf, scope);
  }

  /** No look-ahead: the earnings depend only on the facts available by the instant. */
  lemma TtmNeverLooksAhead(facts: seq<Fact>, other: seq<Fact>, company: int, asOf: int, scope: string)
    requires Filter(facts, AvailableBy(asOf)) == Filter(other, AvailableBy(asOf))
    ensures TtmQuarters(facts, company, asOf, scope) == TtmQuarters(other, company, asOf, scope)
    ensures TtmEarnings(facts, company, asOf, scope) == TtmEarnings(other, company, asOf, scope)
  {
    FilterFilter(facts, AvailableBy(asOf), Scoped(company, scope, asOf), Scoped(company, scope, asOf));
    FilterFilter(other, AvailableBy(asOf), Scoped(company, scope, asOf), Scoped(company, scope, asOf));
  }

  /**
   * Which fact of a period the earnings use is independent of row order exactly when no two facts tie
   * for the highest version and, within it, the latest availability.
   */
  lemma TtmIgnoresOrderIff(facts: seq<Fact>, company: int, asOf: int, scope: string, period: int)
    ensures OrderIrrelevant(facts, Scoped(company, scope, asOf), ByVersionThenAvailability(), period)
       <==> UniqueTop(facts, Scoped(company, scope, asOf), ByVersionThenAvailability(), period)
  {
    BothOrder();
    ChoiceIgnoresOrderIff(facts, Scoped(company, scope, asOf), ByVersionThenAvailability(), period);
  }

  /** How far apart the quarters of accepted earnings are, when the fiscal calendar named them. */
  lemma TtmQuartersApart(facts: seq<Fact>, company: int, asOf: int, scope: string, ends: seq<Date>)
    requires TtmEarnings(facts, company, asOf, scope).Some?
    requires LabelledBy(TtmQuarters(facts, company, asOf, scope), ends)
    ensures |ends| == 4
    ensures Establishes(true, QuarterIndex(ends[0]), QuarterIndex(ends[1]), QuarterIndex(ends[2]),
            QuarterIndex(ends[3]))
  {
    var ordered := TtmQuarters(facts, company, asOf, scope);
    TopFourDescends(LatestPerPeriod(InScope(facts, company, asOf, scope), ByVersionThenAvailability()));
    Contiguity(ordered, ends);
  }

  function QuarterFact(period: int, end: Date): Fact
    requires 1 <= end.month <= 12
  {
    Fact(period, 1, period, Ordinal(end), ResolveFiscalPeriod(end).1, "STANDALONE", "QUARTER", true, true, 1, 0,
         Some(1.0), None, None)
  }

  /** Facts of these quarters, newest first. */
  function QuarterFacts4(a: Date, b: Date, c: Date, d: Date): seq<Fact>
    requires IsDate(a) && IsDate(b) && IsDate(c) && IsDate(d)
  {
    [QuarterFact(4, d), QuarterFact(3, c), QuarterFact(2, b), QuarterFact(1, a)]
  }

  /** Four positive quarters of distinct periods, newest first, are the ones the earnings are made of. */
  lemma FourAreUsed(facts: seq<Fact>, company: int, asOf: int, scope: string)
    requires |facts| == 4 && OnePerPeriod(facts)
    requires forall i | 0 <= i < 4 ::
               Scoped(company, scope, asOf)(facts[i]) && facts[i].epsDiluted.Some? && facts[i].epsDiluted.value > 0.0
    requires forall i, j | 0 <= i < j < 4 :: facts[i].periodEnd >= facts[j].periodEnd
    ensures TtmQuarters(facts, company, asOf, scope) == Reversed(facts)
    ensures TtmEarnings(facts, company, asOf, scope).Some? <==> LabelsContiguous(Map(Reversed(facts), Label()))
  {
    FilterAll(facts, Scoped(company, scope, asOf));
    DistinctAreKept(facts, ByVersionThenAvailability());
    SortedAreTopFour(facts);
    DilutedMeans(Reversed(facts));
  }

  /** Quarters a year apart are accepted: verified facts that yield earnings across a five-quarter gap. */
  lemma ContiguityWitness() returns (facts: seq<Fact>, ends: seq<Date>)
    ensures TtmEarnings(facts, 1, 0, "STANDALONE").Some?
    ensures LabelledBy(TtmQuarters(facts, 1, 0, "STANDALONE"), ends) && |ends| == 4
    ensures QuarterIndex(ends[1]) - QuarterIndex(ends[0]) == 5
  {
    var a, b, c, d := JuneToMarch();
    FactsAreUsed(a, b, c, d);
    facts, ends := QuarterFacts4(a, b, c, d), [a, b, c, d];
  }

  lemma JuneToMarch() returns (a: Date, b: Date, c: Date, d: Date)
    ensures IsDate(a) && IsDate(b) && IsDate(c) && IsDate(d)
    ensures Earlier(a, b) && Earlier(b, c) && Earlier(c, d)
    ensures QuarterIndex(b) - QuarterIndex(a) == 5
    ensures LabelsContiguous(QuarterNames([a, b, c, d]))
  {
    a, b, c, d := Date(2022, 6, 30), Date(2023, 9, 30), Date(2023, 12, 31), Date(2024, 3, 31);
    PositionIsQuarter(a);
    PositionIsQuarter(b);
    PositionIsQuarter(c);
    PositionIsQuarter(d);
    LabelsStepwise(QuarterNames([a, b, c, d]));
  }

  function QuarterNames(ends: seq<Date>): seq<string>
  {
    Map(ends, (d: Date) => ResolveFiscalPeriod(d).1)
  }

  lemma FactsAreUsed(a: Date, b: Date, c: Date, d: Date)
    requires IsDate(a) && IsDate(b) && IsDate(c) && IsDate(d)
    requires Earlier(a, b) && Earlier(b, c) && Earlier(c, d)
    ensures var facts := QuarterFacts4(a, b, c, d);
            && TtmQuarters(facts, 1, 0, "STANDALONE") == Reversed(facts)
            && LabelledBy(Reversed(facts), [a, b, c, d])
            && Map(Reversed(facts), Label()) == QuarterNames([a, b, c, d])
            && (TtmEarnings(facts, 1, 0, "STANDALONE").Some? <==> LabelsContiguous(Map(Reversed(facts), Label())))
  {
    FactsAreLabelled(a, b, c, d);
    OrdinalOrders(a, b);
    OrdinalOrders(b, c);
    OrdinalOrders(c, d);
    FourAreUsed(QuarterFacts4(a, b, c, d), 1, 0, "STANDALONE");
  }

  lemma FactsAreLabelled(a: Date, b: Date, c: Date, d: Date)
    requires IsDate(a) && IsDate(b) && IsDate(c) && IsDate(d)
    ensures var facts := QuarterFacts4(a, b, c, d);
            && LabelledBy(Reversed(facts), [a, b, c, d])
            && Map(Reversed(facts), Label()) == QuarterNames([a, b, c, d])
  {
  }

  // ------------------------------------------------------------ fair values

  /** `_q`: two decimals, half away from zero. */
  function ToCents(x: real): real
  {
    QuantizeHalfUp(x, 100.0)
  }

  /** The gain over the close, in percent. */
  function Upside(fair: real, close: real): (u: real)
    requires close > 0.0
    ensures fair == close ==> u == 0.0
    ensures close * (100.0 + u) == 100.0 * fair
  {
    UpsideUndone(fair, close);
    (fair / close - 1.0) * 100.0
  }

  lemma UpsideUndone(fair: real, close: real)
    requires close > 0.0
    ensures fair == close ==> (fair / close - 1.0) * 100.0 == 0.0
    ensures close * (100.0 + (fair / close - 1.0) * 100.0) == 100.0 * fair
  {
    var q := fair / close;
    assert q * close == fair;
    assert close * (100.0 + (q - 1.0) * 100.0) == 100.0 * (close * q);
  }

  predicate RangeGate(low: real, mid: real, high: real)
  {
    low > 0.0 && low <= mid <= high
  }

  datatype MultipleInput = MultipleInput(
    company: int, modelVersion: string, horizon: string, effectiveAt: int, availableAt: int, createdAt: int,
    peLow: real, peMid: real, peHigh: real, rule: string)

  datatype Snapshot = Snapshot(
    company: int, asOf: int, modelVersion: string, eps: real,
    peLow: real, peMid: real, peHigh: real,
    fairLow: real, fairMid: real, fairHigh: real, close: real,
    upsideLow: real, upsideMid: real, upsideHigh: real, sourceDocument: Option<int>)

  datatype Gap =
    | VerifiedFinancialMissingOrStale | PitTtmEpsMissingOrNoncontiguous | AuditablePeMultipleMissing
    | IncompatibleEpsAndPeHorizons | InvalidPeMultipleRange | RawMarketPriceMissing

  datatype Outcome = Valued(snapshot: Snapshot) | Missing(gap: Gap)

  /** `order_by(key.desc()).limit(1)`, rows already in the order of the second key. */
  function FirstBy<T>(rows: seq<T>, major: T -> real, minor: T -> real): (first: Option<T>)
    ensures first.Some? <==> rows != []
  {
    var ordered := SortBy(SortBy(rows, minor), major);
    if ordered == [] then None else Some(ordered[0])
  }

  function TiesWith<T>(key: T -> real, x: T): T -> bool { (y: T) => key(y) == key(x) }

  lemma SortedHead<T>(s: seq<T>, key: T -> real, r: T)
    requires SortedBy(s, key) && r in s
    ensures key(s[0]) <= key(r)
  {
    var i :| 0 <= i < |s| && s[i] == r;
    assert 0 < i ==> key(s[0]) <= key(s[i]);
  }

  lemma TiesSorted<T>(s: seq<T>, key: T -> real, x: T)
    ensures SortedBy(Filter(s, TiesWith(key, x)), key)
  {
    var tied := Filter(s, TiesWith(key, x));
    FilterMembers(s, TiesWith(key, x));
    forall i, j | 0 <= i < j < |tied| ensures key(tied[i]) <= key(tied[j]) {
      assert tied[i] in tied && tied[j] in tied;
    }
  }

  /** Sorting by the major key last leaves the rows that tie with its first row in minor order. */
  lemma TiesKeepMinorOrder<T>(byMinor: seq<T>, major: T -> real, minor: T -> real, r: T)
    requires byMinor != [] && SortedBy(byMinor, minor) && r in byMinor
    ensures var f := SortBy(byMinor, major)[0];
            major(r) == major(f) ==> minor(f) <= minor(r)
  {
    var ordered := SortBy(byMinor, major);
    var f := ordered[0];
    var tied := Filter(byMinor, TiesWith(major, f));
    FilterSort(byMinor, major, TiesWith(major, f));
    TiesSorted(byMinor, major, f);
    SortIsIdentityOnSorted(tied, major);
    FirstOfFilter(ordered, TiesWith(major, f));
    FilterKeepsOrder(byMinor, minor, TiesWith(major, f));
    FilterMembers(byMinor, TiesWith(major, f));
    if major(r) == major(f) {
      SortedHead(tied, minor, r);
    }
  }

  /** The row picked is first by the major key and, among ties, first by the minor key. */
  lemma FirstByIsFirst<T>(rows: seq<T>, major: T -> real, minor: T -> real)
    requires rows != []
    ensures var f := FirstBy(rows, major, minor).value;
            && f in rows
            && forall r | r in rows :: major(f) < major(r) || (major(f) == major(r) && minor(f) <= minor(r))
  {
    var byMinor := SortBy(rows, minor);
    var ordered := SortBy(byMinor, major);
    var f := ordered[0];
    SortSorts(rows, minor);
    SortSorts(byMinor, major);
    SortMembers(rows, minor);
    SortMembers(byMinor, major);
    assert f in ordered;
    forall r | r in rows ensures major(f) < major(r) || (major(f) == major(r) && minor(f) <= minor(r)) {
      SortedHead(ordered, major, r);
      TiesKeepMinorOrder(byMinor, major, minor, r);
    }
  }

  lemma FirstOfFilter<T>(s: seq<T>, p: T -> bool)
    requires s != [] && p(s[0])
    ensures Filter(s, p) != [] && Filter(s, p)[0] == s[0]
  {
    assert s == [s[0]] + s[1..];
    FilterCons(s[0], s[1..], p);
  }

  lemma FilterKeepsOrder<T>(s: seq<T>, key: T -> real, p: T -> bool)
    requires SortedBy(s, key)
    ensures SortedBy(Filter(s, p), key)
  {
    FilterSort(s, key, p);
    SortIsIdentityOnSorted(s, key);
    SortSorts(Filter(s, p), key);
  }

  function CurrentFact(company: int, asOf: int): Fact -> bool
  {
    (f: Fact) => f.company == company && f.isLatest && f.verified && f.availableAt <= asOf
  }

  function LastAvailable(): Fact -> real { (f: Fact) => -(f.availableAt as real) }

  function LatestFinancial(facts: seq<Fact>, company: int, asOf: int): Option<Fact>
  {
    var row := FirstBy(Filter(facts, CurrentFact(company, asOf)), NewestFirst(), LastAvailable());
    if row.Some? && asOf - row.value.availableAt <= MAX_FINANCIAL_AGE then row else None
  }

  /** What a stored result takes from its period, and its document. */
  datatype Joined = Joined(endOf: int -> int, quarterOf: int -> string, documentOf: int -> Option<int>)

  /** A stored result as the valuation reads it. */
  function FactOf(j: Joined): FinancialResults.ResultRow -> Fact
  {
    (r: FinancialResults.ResultRow) =>
      Fact(r.id, r.company, r.key.period, j.endOf(r.key.period), j.quarterOf(r.key.period), r.key.scope, r.key.basis,
           FinancialResults.IsVerified()(r), r.isLatest, r.version, r.availableAt,
           r.values.epsDiluted, r.values.epsBasic, j.documentOf(r.id))
  }

  lemma StoredFacts(rows: seq<FinancialResults.ResultRow>, j: Joined, company: int, asOf: int)
    ensures Filter(Map(rows, FactOf(j)), CurrentFact(company, asOf))
         == Map(FinancialResults.Candidates(rows, company, asOf), FactOf(j))
  {
    FilterMap(rows, FactOf(j), FinancialResults.Candidate(company, asOf), CurrentFact(company, asOf));
  }

  /** A fact with a stored result's own figures. */
  ghost predicate Tells(f: Fact, r: FinancialResults.ResultRow, j: Joined)
  {
    && f.id == r.id && f.company == r.company && f.period == r.key.period && f.periodEnd == j.endOf(r.key.period)
    && f.quarter == j.quarterOf(r.key.period) && f.scope == r.key.scope && f.basis == r.key.basis
    && (f.verified <==> r.meta.verification.status == "verified") && f.isLatest == r.isLatest
    && f.version == r.version && f.availableAt == r.availableAt
    && f.epsDiluted == r.values.epsDiluted && f.epsBasic == r.values.epsBasic
    && f.sourceDocument == j.documentOf(r.id)
  }

  lemma FactTells(r: FinancialResults.ResultRow, j: Joined, f: Fact)
    ensures FactOf(j)(r) == f <==> Tells(f, r, j)
  {
  }

  /** The stored results read are the company's flagged and verified ones available by the instant. */
  lemma StoredFactsAre(rows: seq<FinancialResults.ResultRow>, j: Joined, company: int, asOf: int, f: Fact)
    ensures f in Filter(Map(rows, FactOf(j)), CurrentFact(company, asOf)) <==>
            Reported(f, company, asOf) && exists r | r in rows :: Tells(f, r, j)
  {
    FilterMapMembers(rows, FactOf(j), CurrentFact(company, asOf), f);
    forall r ensures FactOf(j)(r) == f <==> Tells(f, r, j) {
      FactTells(r, j, f);
    }
  }

  /**
   * Over the versioned store, the financial result behind a valuation for a past instant, with its
   * scope, is the same in any later state reached without touching a candidate for that instant.
   */
  lemma LatestFinancialReplays(rows: seq<FinancialResults.ResultRow>, steps: seq<FinancialResults.Step>, j: Joined,
                               company: int, asOf: int)
    requires VersionedTable.Chained(rows) && FinancialResults.NeverTouches(rows, steps, company, asOf)
    ensures LatestFinancial(Map(FinancialResults.RunFrom(rows, steps), FactOf(j)), company, asOf)
         == LatestFinancial(Map(rows, FactOf(j)), company, asOf)
  {
    FinancialResults.CandidatesReplay(rows, steps, company, asOf);
    StoredFacts(rows, j, company, asOf);
    StoredFacts(FinancialResults.RunFrom(rows, steps), j, company, asOf);
  }

  function AuditableMultiple(company: int, asOf: int): MultipleInput -> bool
  {
    (m: MultipleInput) =>
      m.company == company && m.modelVersion == MODEL_VERSION && m.effectiveAt <= asOf && m.availableAt <= asOf
  }

  function LastEffective(): MultipleInput -> real { (m: MultipleInput) => -(m.effectiveAt as real) }

  function LastCreated(): MultipleInput -> real { (m: MultipleInput) => -(m.createdAt as real) }

  function CurrentMultiple(multiples: seq<MultipleInput>, company: int, asOf: int): Option<MultipleInput>
  {
    FirstBy(Filter(multiples, AuditableMultiple(company, asOf)), LastEffective(), LastCreated())
  }

  function TradedBy(company: int, asOf: int): Price -> bool
  {
    (p: Price) => p.company == company && p.date <= DateOf(asOf)
  }

  function LastTraded(): Price -> real { (p: Price) => -(p.date as real) }

  function Unordered(): Price -> real { (p: Price) => 0.0 }

  function CurrentPrice(prices: seq<Price>, company: int, asOf: int): Option<Price>
  {
    FirstBy(Filter(prices, TradedBy(company, asOf)), LastTraded(), Unordered())
  }

  // ------------------------------------------------ what the lookups answer

  /** A flagged, verified result of the company, available by the instant. */
  ghost predicate Reported(f: Fact, company: int, asOf: int)
  {
    f.company == company && f.isLatest && f.verified && f.availableAt <= asOf
  }

  /** Of those no other has a later period end, or the same and a later availability. */
  ghost predicate Newest(facts: seq<Fact>, f: Fact, company: int, asOf: int)
  {
    && f in facts && Reported(f, company, asOf)
    && forall g | g in facts && Reported(g, company, asOf) ::
         g.periodEnd < f.periodEnd || (g.periodEnd == f.periodEnd && g.availableAt <= f.availableAt)
  }

  /** The result a valuation starts from is a newest one, at most 180 days old; an older one gives nothing. */
  lemma LatestFinancialMeans(facts: seq<Fact>, company: int, asOf: int)
    ensures var found := LatestFinancial(facts, company, asOf);
            var days180 := 180 * 24 * 60 * 60 * 1_000_000;
            && (found.Some? ==> Newest(facts, found.value, company, asOf) && asOf - found.value.availableAt <= days180)
            && (found.None? ==> forall f | Newest(facts, f, company, asOf) :: asOf - f.availableAt > days180)
  {
    var rows := Filter(facts, CurrentFact(company, asOf));
    FilterMembers(facts, CurrentFact(company, asOf));
    if rows != [] {
      FirstByIsFirst(rows, NewestFirst(), LastAvailable());
      var first := FirstBy(rows, NewestFirst(), LastAvailable()).value;
      assert Newest(facts, first, company, asOf);
    }
  }

  ghost predicate Auditable(m: MultipleInput, company: int, asOf: int)
  {
    && m.company == company && m.modelVersion == "deterministic-valuation-v1"
    && m.effectiveAt <= asOf && m.availableAt <= asOf
  }

  /** The multiple used is the auditable one effective last and, among those, created last. */
  lemma CurrentMultipleMeans(multiples: seq<MultipleInput>, company: int, asOf: int)
    ensures var found := CurrentMultiple(multiples, company, asOf);
            && (found.None? <==> forall m | m in multiples :: !Auditable(m, company, asOf))
            && (found.Some? ==>
                  && found.value in multiples && Auditable(found.value, company, asOf)
                  && forall m | m in multiples && Auditable(m, company, asOf) ::
                       || m.effectiveAt < found.value.effectiveAt
                       || (m.effectiveAt == found.value.effectiveAt && m.createdAt <= found.value.createdAt))
  {
    var rows := Filter(multiples, AuditableMultiple(company, asOf));
    FilterMembers(multiples, AuditableMultiple(company, asOf));
    if rows != [] {
      FirstByIsFirst(rows, LastEffective(), LastCreated());
      assert rows[0] in rows;
    }
  }

  /** The price used is the company's last one up to the day. */
  lemma CurrentPriceMeans(prices: seq<Price>, company: int, asOf: int)
    ensures var found := CurrentPrice(prices, company, asOf);
            && (found.None? <==> forall p | p in prices :: !(p.company == company && p.date <= DateOf(asOf)))
            && (found.Some? ==>
                  && found.value in prices && found.value.company == company && found.value.date <= DateOf(asOf)
                  && forall p | p in prices && p.company == company && p.date <= DateOf(asOf) ::
                     p.date <= found.value.date)
  {
    var rows := Filter(prices, TradedBy(company, asOf));
    FilterMembers(prices, TradedBy(company, asOf));
    if rows != [] {
      FirstByIsFirst(rows, LastTraded(), Unordered());
      assert rows[0] in rows;
    }
  }

  predicate HorizonsCompatible(earnings: string, multiple: string)
  {
    earnings == multiple && earnings in {"TTM", "FORWARD_12M", "FY_FORWARD"}
  }

  function Appraise(company: int, asOf: int, e: Earnings, m: MultipleInput, close: real): Snapshot
    requires close > 0.0
  {
    var low, mid, high := FairValue(e.total, m.peLow), FairValue(e.total, m.peMid), FairValue(e.total, m.peHigh);
    Snapshot(company, asOf, MODEL_VERSION, e.total, m.peLow, m.peMid, m.peHigh, low, mid, high, close,
             ShownUpside(low, close), ShownUpside(mid, close), ShownUpside(high, close), e.sourceDocument)
  }

  /** The gates of `generate_for_company`, in order. */
  function Evaluate(facts: seq<Fact>, multiples: seq<MultipleInput>, prices: seq<Price>, company: int,
                    asOf: int): Outcome
  {
    var financial := LatestFinancial(facts, company, asOf);
    if financial.None? then Missing(VerifiedFinancialMissingOrStale) else
    var earnings := TtmEarnings(facts, company, asOf, financial.value.scope);
    if earnings.None? then Missing(PitTtmEpsMissingOrNoncontiguous) else
    var multiple := CurrentMultiple(multiples, company, asOf);
    if multiple.None? then Missing(AuditablePeMultipleMissing)
    else if !HorizonsCompatible("TTM", multiple.value.horizon) then Missing(IncompatibleEpsAndPeHorizons)
    else if !RangeGate(multiple.value.peLow, multiple.value.peMid, multiple.value.peHigh)
      then Missing(InvalidPeMultipleRange)
    else
    var price := CurrentPrice(prices, company, asOf);
    if price.None? || price.value.close <= 0.0 then Missing(RawMarketPriceMissing)
    else Valued(Appraise(company, asOf, earnings.value, multiple.value, price.value.close))
  }

  /** A figure rounded to cents, within half a cent of the exact one. */
  ghost predicate Rounds(shown: real, exact: real)
  {
    -0.005 <= shown - exact <= 0.005
  }

  lemma CentsRound(x: real)
    ensures Rounds(ToCents(x), x)
  {
    QuantizeErrors(x, 100.0);
  }

  /** Three shown figures in order, each rounding its exact value. */
  ghost predicate OrderedRoundings(low: real, mid: real, high: real, exactLow: real, exactMid: real, exactHigh: real)
  {
    low <= mid <= high && Rounds(low, exactLow) && Rounds(mid, exactMid) && Rounds(high, exactHigh)
  }

  lemma CentsOrdered(low: real, mid: real, high: real)
    requires low <= mid <= high
    ensures OrderedRoundings(ToCents(low), ToCents(mid), ToCents(high), low, mid, high)
  {
    QuantizeHalfUpMonotone(low, mid, 100.0);
    QuantizeHalfUpMonotone(mid, high, 100.0);
    CentsRound(low);
    CentsRound(mid);
    CentsRound(high);
  }

  function FairValue(eps: real, pe: real): real
  {
    ToCents(Product(eps, pe))
  }

  function ShownUpside(fair: real, close: real): real
    requires close > 0.0
  {
    ToCents(Upside(fair, close))
  }

  lemma FairSound(eps: real, low: real, mid: real, high: real)
    requires eps > 0.0 && low <= mid <= high
    ensures OrderedRoundings(FairValue(eps, low), FairValue(eps, mid), FairValue(eps, high),
                             Product(eps, low), Product(eps, mid), Product(eps, high))
  {
    MulMonotone(low, mid, eps);
    MulMonotone(mid, high, eps);
    CentsOrdered(Product(eps, low), Product(eps, mid), Product(eps, high));
  }

  lemma UpsideSound(low: real, mid: real, high: real, close: real)
    requires close > 0.0 && low <= mid <= high
    ensures OrderedRoundings(ShownUpside(low, close), ShownUpside(mid, close), ShownUpside(high, close),
                             Upside(low, close), Upside(mid, close), Upside(high, close))
  {
    DivMonotone(low, mid, close);
    DivMonotone(mid, high, close);
    CentsOrdered(Upside(low, close), Upside(mid, close), Upside(high, close));
  }

  /** Fair values are earnings times multiples, upsides the gains over the close in percent. */
  ghost predicate Sound(s: Snapshot)
  {
    && s.eps > 0.0 && s.close > 0.0
    && FairValuesSound(s)
    && UpsidesSound(s)
  }

  ghost predicate FairValuesSound(s: Snapshot)
  {
    OrderedRoundings(s.fairLow, s.fairMid, s.fairHigh,
                     Product(s.eps, s.peLow), Product(s.eps, s.peMid), Product(s.eps, s.peHigh))
  }

  ghost predicate UpsidesSound(s: Snapshot)
    requires s.close > 0.0
  {
    OrderedRoundings(s.upsideLow, s.upsideMid, s.upsideHigh,
                     Upside(s.fairLow, s.close), Upside(s.fairMid, s.close), Upside(s.fairHigh, s.close))
  }

  lemma AppraiseSound(company: int, asOf: int, e: Earnings, m: MultipleInput, close: real)
    requires e.total > 0.0 && close > 0.0 && RangeGate(m.peLow, m.peMid, m.peHigh)
    ensures Sound(Appraise(company, asOf, e, m, close))
  {
    FairsAppraised(company, asOf, e, m, close);
    UpsidesAppraised(company, asOf, e, m, close);
  }

  lemma FairsAppraised(company: int, asOf: int, e: Earnings, m: MultipleInput, close: real)
    requires e.total > 0.0 && close > 0.0 && RangeGate(m.peLow, m.peMid, m.peHigh)
    ensures FairValuesSound(Appraise(company, asOf, e, m, close))
  {
    FairSound(e.total, m.peLow, m.peMid, m.peHigh);
  }

  lemma UpsidesAppraised(company: int, asOf: int, e: Earnings, m: MultipleInput, close: real)
    requires e.total > 0.0 && close > 0.0 && RangeGate(m.peLow, m.peMid, m.peHigh)
    ensures UpsidesSound(Appraise(company, asOf, e, m, close))
  {
    FairSound(e.total, m.peLow, m.peMid, m.peHigh);
    UpsideSound(FairValue(e.total, m.peLow), FairValue(e.total, m.peMid), FairValue(e.total, m.peHigh), close);
  }

  /**
   * Every snapshot orders its fair values and its upsides, negative ones included, and each figure
   * it shows is within half a cent of the exact product or percentage.
   */
  lemma SnapshotSound(facts: seq<Fact>, multiples: seq<MultipleInput>, prices: seq<Price>, company: int, asOf: int)
    ensures var o := Evaluate(facts, multiples, prices, company, asOf);
            o.Valued? ==> Sound(o.snapshot)
  {
    var o := Evaluate(facts, multiples, prices, company, asOf);
    if o.Valued? {
      var e := TtmEarnings(facts, company, asOf, LatestFinancial(facts, company, asOf).value.scope).value;
      var m := CurrentMultiple(multiples, company, asOf).value;
      var close := CurrentPrice(prices, company, asOf).value.close;
      AppraiseSound(company, asOf, e, m, close);
    }
  }

  /** At an exact half cent the figure goes away from zero. */
  lemma CentsTieAway(n: int)
    ensures ToCents((n as real + 0.5) / 100.0) == (if n >= 0 then n + 1 else n) as real / 100.0
  {
    TieBreaks(n);
    var x := (n as real + 0.5) / 100.0;
    assert x * 100.0 == n as real + 0.5;
  }

  /** What a snapshot is made of, and when there is one. */
  lemma EvaluateMeans(facts: seq<Fact>, multiples: seq<MultipleInput>, prices: seq<Price>, company: int, asOf: int)
    ensures var o := Evaluate(facts, multiples, prices, company, asOf);
            var f, m, p := LatestFinancial(facts, company, asOf), CurrentMultiple(multiples, company, asOf),
              CurrentPrice(prices, company, asOf);
            && (o.Valued? <==>
                  && f.Some? && TtmEarnings(facts, company, asOf, f.value.scope).Some?
                  && m.Some? && m.value.horizon == "TTM"
                  && 0.0 < m.value.peLow && m.value.peLow <= m.value.peMid && m.value.peMid <= m.value.peHigh
                  && p.Some? && p.value.close > 0.0)
            && (o.Valued? ==>
                  var s, e := o.snapshot, TtmEarnings(facts, company, asOf, f.value.scope).value;
                  && s.company == company && s.asOf == asOf
                  && s.eps == e.total && s.sourceDocument == e.sourceDocument && s.close == p.value.close
                  && s.peLow == m.value.peLow && s.peMid == m.value.peMid && s.peHigh == m.value.peHigh)
  {
  }

  /** Each gap names the first thing that is missing. */
  lemma GapIsFirst(facts: seq<Fact>, multiples: seq<MultipleInput>, prices: seq<Price>, company: int, asOf: int)
    ensures var o := Evaluate(facts, multiples, prices, company, asOf);
            var f, m, p := LatestFinancial(facts, company, asOf), CurrentMultiple(multiples, company, asOf),
              CurrentPrice(prices, company, asOf);
            var earned := f.Some? && TtmEarnings(facts, company, asOf, f.value.scope).Some?;
            && (o == Missing(VerifiedFinancialMissingOrStale) <==> f.None?)
            && (o == Missing(PitTtmEpsMissingOrNoncontiguous) <==> f.Some? && !earned)
            && (o == Missing(AuditablePeMultipleMissing) <==> earned && m.None?)
            && (o == Missing(IncompatibleEpsAndPeHorizons) <==> earned && m.Some? && m.value.horizon != "TTM")
            && (o == Missing(RawMarketPriceMissing) ==> earned && m.Some? && (p.None? || p.value.close <= 0.0))
  {
  }

  // ---------------------------------------------------- bands pass the gate

  function NotPositive(): real -> bool { (v: real) => v <= 0.0 }

  lemma BandOrdered(values: seq<real>)
    requires values != []
    ensures Percentile(values, 25, 100) <= Percentile(values, 50, 100) <= Percentile(values, 75, 100)
  {
    PercentileMonotone(values, 25, 50, 100);
    PercentileMonotone(values, 50, 75, 100);
  }

  /**
   * A band built from stored ratios passes the valuation gate exactly when the ratios that are not
   * positive are fewer than the rank of the 25th percentile.
   */
  lemma BandPassesGateIff(values: seq<real>)
    requires values != [] && forall x | x in values :: OnGrid(x)
    ensures RangeGate(Percentile(values, 25, 100), Percentile(values, 50, 100), Percentile(values, 75, 100))
       <==> |Filter(values, NotPositive())| <= RankIndex(|values|, 25, 100)
  {
    BandOrdered(values);
    NearestRank(values, 25, 100);
    var r := Percentile(values, 25, 100);
    if r > 0.0 {
      FilterDisjoint(values, NotPositive(), AtLeast(r));
    } else {
      FilterMonotone(values, AtMost(r), NotPositive());
    }
  }

  /** In particular a band of observations that each round to at least 0.0001 always passes. */
  lemma PositiveBandPassesGate(values: seq<real>)
    requires values != [] && forall x | x in values :: OnGrid(x) && x >= 0.0001
    ensures RangeGate(Percentile(values, 25, 100), Percentile(values, 50, 100), Percentile(values, 75, 100))
  {
    forall i | 0 <= i < |values| ensures !NotPositive()(values[i]) {
      assert values[i] in values;
    }
    FilterNone(values, NotPositive());
    BandPassesGateIff(values);
  }

  function PeOf(): PeBand.Outcome -> real { (o: PeBand.Outcome) => if o.Observed? then o.pe else 0.0 }

  lemma DayOnGrid(price: Price, facts: seq<Fact>, actions: seq<Action>, parse: NumberParser)
    ensures var o := DayOutcome(price, facts, actions, parse);
            o.Observed? ==> OnGrid(o.pe)
  {
    var o := DayOutcome(price, facts, actions, parse);
    if o.Observed? {
      assert o.pe == Ticks(HalfEven(price.close / o.ttm * 10000.0));
    }
  }

  /** The ratios the observation loop stores are on the grid the percentiles keep. */
  lemma ObservedOnGrid(prices: seq<Price>, facts: seq<Fact>, actions: seq<Action>, parse: NumberParser)
    ensures var observed := Filter(Outcomes(prices, facts, actions, parse), IsObserved());
            forall x | x in Map(observed, PeOf()) :: OnGrid(x)
  {
    var outcomes := Outcomes(prices, facts, actions, parse);
    var observed := Filter(outcomes, IsObserved());
    FilterMembers(outcomes, IsObserved());
    forall i | 0 <= i < |observed| ensures OnGrid(PeOf()(observed[i])) {
      assert observed[i] in observed;
      var j :| 0 <= j < |outcomes| && outcomes[j] == observed[i];
      DayOnGrid(prices[j], facts, actions, parse);
    }
  }

  /** The ratios `generate_for_company` takes its percentiles of. */
  function ObservedRatios(prices: seq<Price>, facts: seq<Fact>, actions: seq<Action>, parse: NumberParser,
                          company: int, asOf: int): seq<real>
  {
    Map(Filter(PeEvidence.Evidence(prices, facts, actions, parse, company, asOf), IsObserved()), PeOf())
  }

  predicate FromRatios(m: MultipleInput, values: seq<real>)
    requires values != []
  {
    && m.peLow == Percentile(values, 25, 100)
    && m.peMid == Percentile(values, 50, 100)
    && m.peHigh == Percentile(values, 75, 100)
  }

  /** A band's figures are the quartiles of the ratios: so many lie on either side of each. */
  lemma BandIsQuartiles(m: MultipleInput, values: seq<real>)
    requires values != [] && (forall x | x in values :: OnGrid(x)) && FromRatios(m, values)
    ensures m.peLow in values && m.peMid in values && m.peHigh in values
    ensures 4 * |Filter(values, AtMost(m.peLow))| >= |values| && 4 * |Filter(values, AtLeast(m.peLow))| >= 3 * |values|
    ensures 2 * |Filter(values, AtMost(m.peMid))| >= |values| && 2 * |Filter(values, AtLeast(m.peMid))| >= |values|
    ensures 4 * |Filter(values, AtMost(m.peHigh))| >= 3 * |values|
            && 4 * |Filter(values, AtLeast(m.peHigh))| >= |values|
  {
    NearestRank(values, 25, 100);
    NearestRank(values, 50, 100);
    NearestRank(values, 75, 100);
    RankInRange(|values|, 25, 100);
    RankInRange(|values|, 50, 100);
    RankInRange(|values|, 75, 100);
  }

  /** The ratios are those of the observed days, in order. */
  lemma RatiosAre(prices: seq<Price>, facts: seq<Fact>, actions: seq<Action>, parse: NumberParser, company: int,
                  asOf: int, v: real)
    ensures v in ObservedRatios(prices, facts, actions, parse, company, asOf) <==>
            exists o | o in PeEvidence.Evidence(prices, facts, actions, parse, company, asOf) :: o.Observed?
              && o.pe == v
  {
    var evidence := PeEvidence.Evidence(prices, facts, actions, parse, company, asOf);
    FilterMembers(evidence, IsObserved());
    MapMembers(Filter(evidence, IsObserved()), PeOf(), v);
  }

  /**
   * End to end: a valuation whose multiple is a band of observed ratios is refused for its range only
   * when some of the ratios rounded to zero or below; more exactly, at least a quarter of them.
   */
  lemma ObservedBandIsInvalidOnlyIf(
    facts: seq<Fact>, multiples: seq<MultipleInput>, prices: seq<Price>, company: int, asOf: int,
    oldPrices: seq<Price>, oldFacts: seq<Fact>, oldActions: seq<Action>, parse: NumberParser, bandAsOf: int)
    requires var values := ObservedRatios(oldPrices, oldFacts, oldActions, parse, company, bandAsOf);
             var m := CurrentMultiple(multiples, company, asOf);
             values != [] && m.Some? && FromRatios(m.value, values)
    ensures var values := ObservedRatios(oldPrices, oldFacts, oldActions, parse, company, bandAsOf);
            Evaluate(facts, multiples, prices, company, asOf) == Missing(InvalidPeMultipleRange)
            ==> |Filter(values, NotPositive())| > RankIndex(|values|, 25, 100)
                && exists v :: v in values && v < 0.0001
  {
    var values := ObservedRatios(oldPrices, oldFacts, oldActions, parse, company, bandAsOf);
    RatiosOnGrid(oldPrices, oldFacts, oldActions, parse, company, bandAsOf);
    FailedBand(values);
  }

  lemma RatiosOnGrid(prices: seq<Price>, facts: seq<Fact>, actions: seq<Action>, parse: NumberParser, company: int,
                     asOf: int)
    ensures forall v | v in ObservedRatios(prices, facts, actions, parse, company, asOf) :: OnGrid(v)
  {
    ObservedOnGrid(PeEvidence.PricesUpTo(prices, company, DateOf(asOf)),
                   Filter(facts, PeEvidence.VerifiedQuarter(company)),
                   Filter(actions, PeEvidence.ShareAction(company, asOf)), parse);
  }

  lemma FailedBand(values: seq<real>)
    requires values != [] && forall v | v in values :: OnGrid(v)
    ensures !RangeGate(Percentile(values, 25, 100), Percentile(values, 50, 100), Percentile(values, 75, 100)) ==>
              |Filter(values, NotPositive())| > RankIndex(|values|, 25, 100) && exists v :: v in values && v < 0.0001
  {
    BandPassesGateIff(values);
    if forall v | v in values :: v >= 0.0001 {
      PositiveBandPassesGate(values);
    }
  }

  // --------------------------------------------------------- stored results

  function IsBand(company: int, asOf: int): MultipleInput -> bool
  {
    (m: MultipleInput) =>
      m.company == company && m.modelVersion == MODEL_VERSION && m.effectiveAt == asOf && m.rule == BAND_RULE
  }

  /** The company's band of the instant, under the current model and rule. */
  ghost predicate BandOf(m: MultipleInput, company: int, asOf: int)
  {
    && m.company == company && m.modelVersion == "deterministic-valuation-v1" && m.effectiveAt == asOf
    && m.rule == "historical-pe-band-v1"
  }

  /** The company's snapshot of the instant, under the current model. */
  ghost predicate SnapshotOf(s: Snapshot, company: int, asOf: int)
  {
    s.company == company && s.asOf == asOf && s.modelVersion == "deterministic-valuation-v1"
  }

  lemma FirstSnapshot(snapshots: seq<Snapshot>, company: int, asOf: int)
    ensures var stored := Filter(snapshots, IsSnapshot(company, asOf));
            && (stored == [] <==> forall s | s in snapshots :: !SnapshotOf(s, company, asOf))
            && (stored != [] ==> stored[0] in snapshots && SnapshotOf(stored[0], company, asOf))
  {
    var stored := Filter(snapshots, IsSnapshot(company, asOf));
    FilterMembers(snapshots, IsSnapshot(company, asOf));
    if stored != [] {
      assert stored[0] in stored;
    }
  }

  function IsSnapshot(company: int, asOf: int): Snapshot -> bool
  {
    (s: Snapshot) => s.company == company && s.asOf == asOf && s.modelVersion == MODEL_VERSION
  }

  lemma AtMostOneBand(multiples: seq<MultipleInput>, company: int, asOf: int)
    requires forall i, j | 0 <= i < j < |multiples|
             && IsBand(multiples[i].company, multiples[i].effectiveAt)(multiples[i]) ::
               !IsBand(multiples[i].company, multiples[i].effectiveAt)(multiples[j])
    ensures |Filter(multiples, IsBand(company, asOf))| <= 1
  {
    AtMostOne(multiples, IsBand(company, asOf));
  }

  class ValuationBook {
    var multiples: seq<MultipleInput>
    var snapshots: seq<Snapshot>

    ghost predicate Valid()
      reads this
    {
      forall i, j | 0 <= i < j < |multiples| && IsBand(multiples[i].company, multiples[i].effectiveAt)(multiples[i]) ::
        !IsBand(multiples[i].company, multiples[i].effectiveAt)(multiples[j])
    }

    constructor ()
      ensures Valid() && multiples == [] && snapshots == []
    {
      multiples, snapshots := [], [];
    }

    /** Write the band of a company as of an instant, once; fewer than five observations write nothing. */
    method GenerateBand(company: int, asOf: int, createdAt: int, observations: seq<PeBand.Outcome>)
      returns (band: Option<MultipleInput>)
      requires Valid()
      modifies this`multiples
      ensures Valid()
      ensures band.Some? <==> |observations| >= 5
      ensures band.Some? ==> band.value in multiples && BandOf(band.value, company, asOf)
      ensures |observations| < 5 || (exists m :: m in old(multiples) && BandOf(m, company, asOf))
              ==> multiples == old(multiples)
      ensures band.Some? && band.value !in old(multiples) ==>
                var values := Map(observations, PeOf());
                && multiples == old(multiples) + [band.value]
                && FromRatios(band.value, values)
                && band.value.company == company && band.value.effectiveAt == asOf && band.value.availableAt == asOf
                && band.value.createdAt == createdAt && band.value.horizon == "TTM"
                && band.value.modelVersion == "deterministic-valuation-v1" && band.value.rule == "historical-pe-band-v1"
    {
      if |observations| < MIN_OBSERVATIONS {
        return None;
      }
      var values := Map(observations, PeOf());
      var matches := Filter(multiples, IsBand(company, asOf));
      FilterMembers(multiples, IsBand(company, asOf));
      AtMostOneBand(multiples, company, asOf);
      var existing := OneOrNone(matches).value;
      if existing.Some? {
        return existing;
      }
      var row := MultipleInput(company, MODEL_VERSION, "TTM", asOf, asOf, createdAt,
                               Percentile(values, 25, 100), Percentile(values, 50, 100), Percentile(values, 75, 100),
                                 BAND_RULE);
      assert forall m | m in multiples :: !IsBand(company, asOf)(m);
      multiples := multiples + [row];
      band := Some(row);
    }

    /** The whole of `historical_pe_band.generate_for_company`: collect the evidence, then write its band. */
    method GenerateForCompany(prices: seq<Price>, facts: seq<Fact>, actions: seq<Action>, parse: NumberParser,
                              company: int, asOf: int, createdAt: int)
      returns (band: Option<MultipleInput>, exclusions: seq<PeBand.Outcome>)
      requires Valid()
      modifies this`multiples
      ensures Valid()
      ensures exclusions == Filter(PeEvidence.Evidence(prices, facts, actions, parse, company, asOf), IsExcluded())
      ensures var values := ObservedRatios(prices, facts, actions, parse, company, asOf);
              && (band.Some? <==> |values| >= 5)
              && (band.Some? ==> band.value in multiples && BandOf(band.value, company, asOf))
              && (band.None? || band.value in old(multiples) ==> multiples == old(multiples))
              && (band.Some? && band.value !in old(multiples) ==>
                    multiples == old(multiples) + [band.value] && FromRatios(band.value, values))
    {
      var priced := PeEvidence.PricesUpTo(prices, company, DateOf(asOf));
      var results := Filter(facts, PeEvidence.VerifiedQuarter(company));
      var applicable := Filter(actions, PeEvidence.ShareAction(company, asOf));
      var observations;
      observations, exclusions := Observe(priced, results, applicable, parse);
      band := GenerateBand(company, asOf, createdAt, observations);
    }

    /** A repeated run returns the stored snapshot and changes nothing. */
    method GenerateSnapshot(facts: seq<Fact>, prices: seq<Price>, company: int, asOf: int) returns (outcome: Outcome)
      modifies this`snapshots
      ensures var evaluated := Evaluate(facts, multiples, prices, company, asOf);
              var repeated := exists s :: s in old(snapshots) && SnapshotOf(s, company, asOf);
              && (evaluated.Missing? ==> outcome == evaluated && snapshots == old(snapshots))
              && (evaluated.Valued? && repeated ==>
                    && snapshots == old(snapshots) && outcome.Valued?
                    && outcome.snapshot in snapshots && SnapshotOf(outcome.snapshot, company, asOf))
              && (evaluated.Valued? && !repeated ==>
                    outcome == evaluated && snapshots == old(snapshots) + [evaluated.snapshot])
    {
      var financial := LatestFinancial(facts, company, asOf);
      if financial.None? {
        return Missing(VerifiedFinancialMissingOrStale);
      }
      var earnings := ComputeTtmEarnings(facts, company, asOf, financial.value.scope);
      if earnings.None? {
        return Missing(PitTtmEpsMissingOrNoncontiguous);
      }
      var multiple := CurrentMultiple(multiples, company, asOf);
      if multiple.None? {
        return Missing(AuditablePeMultipleMissing);
      }
      if !HorizonsCompatible("TTM", multiple.value.horizon) {
        return Missing(IncompatibleEpsAndPeHorizons);
      }
      if !RangeGate(multiple.value.peLow, multiple.value.peMid, multiple.value.peHigh) {
        return Missing(InvalidPeMultipleRange);
      }
      var price := CurrentPrice(prices, company, asOf);
      if price.None? || price.value.close <= 0.0 {
        return Missing(RawMarketPriceMissing);
      }
      FirstSnapshot(snapshots, company, asOf);
      var existing := Filter(snapshots, IsSnapshot(company, asOf));
      if existing != [] {
        return Valued(existing[0]);
      }
      var snapshot := Appraise(company, asOf, earnings.value, multiple.value, price.value.close);
      snapshots := snapshots + [snapshot];
      outcome := Valued(snapshot);
    }
  }
}
