/** `services/historical_pe_band.py`: point-in-time PE evidence and its nearest-rank percentiles. */
module PeBand {
  import opened Basics
  import opened Sorting
  import opened Rounding
  import opened Clock
  import opened QuarterFacts

  const MIN_OBSERVATIONS: nat := 5

  datatype Price = Price(id: int, company: int, date: int, close: real)

  /** `ratio` is the raw text of the filing, such as "1:2". */
  datatype Action = Action(
    company: int, actionType: string, eventDate: int, isLatest: bool, availableAt: int, ratio: Option<string>)

  /** Stands for `Decimal(text.strip())`; `None` when it raises. */
  type NumberParser = string -> Option<real>

  datatype Reason = FewerThanFourQuarters | EpsOrAdjustmentMissing | NonPositiveTtmEps

  datatype Outcome =
    | Observed(date: int, pe: real, ttm: real, priceId: int, resultIds: seq<int>)
    | Excluded(date: int, reason: Reason)

  // ------------------------------------------------------------- percentiles

  /** Ceiling division for the rank; the source writes it with floor division. */
  function RankIndex(n: nat, numerator: nat, denominator: nat): (i: int)
    requires denominator > 0
    ensures i >= 0
  {
    var i := (n * numerator + denominator - 1) / denominator - 1;
    if i < 0 then 0 else i
  }

  lemma CancelLess(a: int, b: int, d: nat)
    requires a * d < b * d
    ensures a < b
  {
  }

  lemma CeilBounds(top: nat, n: nat, d: nat)
    requires 0 < top <= n * d && d > 0
    ensures var q := (top + d - 1) / d;
            1 <= q <= n && (q - 1) * d < top <= q * d
  {
    var q := (top + d - 1) / d;
    assert (top + d - 1) % d == top + d - 1 - q * d;
    assert (q - 1) * d == q * d - d;
    assert (n + 1) * d == n * d + d;
    CancelLess(q, n + 1, d);
    CancelLess(0, q, d);
  }

  lemma RankInRange(n: nat, numerator: nat, denominator: nat)
    requires n > 0 && 0 < numerator <= denominator
    ensures RankIndex(n, numerator, denominator) < n
    ensures (RankIndex(n, numerator, denominator) + 1) * denominator >= n * numerator
    ensures RankIndex(n, numerator, denominator) * denominator < n * numerator
  {
    assert 0 < n * numerator <= n * denominator;
    CeilBounds(n * numerator, n, denominator);
  }

  function Percentile(values: seq<real>, numerator: nat, denominator: nat): real
    requires values != [] && 0 < numerator <= denominator
  {
    RankInRange(|values|, numerator, denominator);
    QuantizeHalfUp(SortBy(values, Identity())[RankIndex(|values|, numerator, denominator)], 10000.0)
  }

  /** A price-earnings ratio as stored: a whole number of ten-thousandths. */
  function Ticks(n: int): real { n as real / 10000.0 }

  ghost predicate OnGrid(x: real)
  {
    exists n :: x == Ticks(n)
  }

  lemma QuantizeKeepsGrid(x: real)
    requires OnGrid(x)
    ensures QuantizeHalfUp(x, 10000.0) == x
  {
    var n :| x == Ticks(n);
    QuantizeOnGrid(n, 10000.0);
  }

  lemma OrderedAround(ordered: seq<real>, i: nat)
    requires SortedBy(ordered, Identity()) && i < |ordered|
    ensures |Filter(ordered, AtMost(ordered[i]))| >= i + 1
    ensures |Filter(ordered, AtLeast(ordered[i]))| >= |ordered| - i
  {
    assert forall j | 0 <= j < i :: Identity()(ordered[j]) <= Identity()(ordered[i]);
    assert forall j | i < j < |ordered| :: Identity()(ordered[i]) <= Identity()(ordered[j]);
    PrefixPasses(ordered, AtMost(ordered[i]), i + 1);
    SuffixPasses(ordered, AtLeast(ordered[i]), i);
  }

  /**
   * Nearest rank: the result is one of the values, at least ceil(n*p) of them are not above it and
   * at least n - ceil(n*p) + 1 are not below it.
   */
  lemma NearestRank(values: seq<real>, numerator: nat, denominator: nat)
    requires values != [] && 0 < numerator <= denominator
    requires forall x | x in values :: OnGrid(x)
    ensures var r, i := Percentile(values, numerator, denominator), RankIndex(|values|, numerator, denominator);
            && r in values
            && |Filter(values, AtMost(r))| >= i + 1
            && |Filter(values, AtLeast(r))| >= |values| - i
  {
    RankInRange(|values|, numerator, denominator);
    var i := RankIndex(|values|, numerator, denominator);
    var ordered := SortBy(values, Identity());
    var r := ordered[i];
    SortSorts(values, Identity());
    SortMembers(values, Identity());
    assert r in ordered;
    QuantizeKeepsGrid(r);
    OrderedAround(ordered, i);
    CountSorted(values, AtMost(r));
    CountSorted(values, AtLeast(r));
  }

  lemma PercentileIgnoresOrder(a: seq<real>, b: seq<real>, numerator: nat, denominator: nat)
    requires a != [] && b != [] && 0 < numerator <= denominator
    requires multiset(a) == multiset(b)
    ensures Percentile(a, numerator, denominator) == Percentile(b, numerator, denominator)
  {
    SortSorts(a, Identity());
    SortSorts(b, Identity());
    SortedUnique(SortBy(a, Identity()), SortBy(b, Identity()));
    assert |a| == |multiset(a)| == |b|;
  }

  lemma RankMonotone(n: nat, low: nat, high: nat, denominator: nat)
    requires n > 0 && 0 < low <= high <= denominator
    ensures RankIndex(n, low, denominator) <= RankIndex(n, high, denominator)
  {
    RankInRange(n, low, denominator);
    RankInRange(n, high, denominator);
    var i, j := RankIndex(n, low, denominator), RankIndex(n, high, denominator);
    assert n * low <= n * high;
    assert i * denominator < (j + 1) * denominator;
    CancelLess(i, j + 1, denominator);
  }

  lemma PercentileMonotone(values: seq<real>, low: nat, high: nat, denominator: nat)
    requires values != [] && 0 < low <= high <= denominator
    ensures Percentile(values, low, denominator) <= Percentile(values, high, denominator)
  {
    RankInRange(|values|, low, denominator);
    RankInRange(|values|, high, denominator);
    RankMonotone(|values|, low, high, denominator);
    var i, j := RankIndex(|values|, low, denominator), RankIndex(|values|, high, denominator);
    var ordered := SortBy(values, Identity());
    SortSorts(values, Identity());
    assert i < j ==> Identity()(ordered[i]) <= Identity()(ordered[j]);
    QuantizeHalfUpMonotone(ordered[i], ordered[j], 10000.0);
  }

  // -------------------------------------------------------- share adjustment

  function ColonAt(s: string): (i: nat)
    ensures i <= |s|
    ensures i < |s| ==> s[i] == ':'
    ensures forall j | 0 <= j < i :: s[j] != ':'
  {
    if s == "" then 0 else if s[0] == ':' then 0 else 1 + ColonAt(s[1..])
  }

  /** `_ratio_factor`: "old:new" as new/old, when both parse to positive numbers. */
  function RatioFactor(ratio: Option<string>, parse: NumberParser): (f: Option<real>)
    ensures f.Some? ==> f.value > 0.0
  {
    if ratio.None? || ColonAt(ratio.value) == |ratio.value| then None else
      var at := ColonAt(ratio.value);
      var before, after := parse(ratio.value[..at]), parse(ratio.value[at + 1..]);
      if before.Some? && after.Some? && before.value > 0.0 && after.value > 0.0
      then (Positive(after.value, before.value); Some(after.value / before.value)) else None
  }

  /**
   * A ratio written "old:new" is read back as new/old, whenever both sides parse to positive numbers;
   * without a colon nothing is read.
   */
  lemma RatioReads(before: string, after: string, parse: NumberParser)
    requires ':' !in before
    ensures RatioFactor(Some(before + ":" + after), parse) ==
            match (parse(before), parse(after))
            case (Some(x), Some(y)) => if x > 0.0 && y > 0.0 then Some(y / x) else None
            case _ => None
    ensures RatioFactor(Some(before), parse) == None
  {
    var text := before + ":" + after;
    assert text[|before|] == ':';
    assert ColonAt(text) == |before| by {
      assert forall j | 0 <= j < |before| :: text[j] == before[j];
    }
    assert text[..|before|] == before && text[|before| + 1..] == after;
  }

  lemma Positive(a: real, b: real)
    requires a > 0.0 && b > 0.0
    ensures a / b > 0.0 && a * b > 0.0
  {
  }

  /** The action took effect after the quarter, by the trading date, and was public that day. */
  function Applies(periodEnd: int, date: int): Action -> bool
  {
    (a: Action) => periodEnd < a.eventDate <= date && a.availableAt <= EndOfDay(date)
  }

  function Times(a: Option<real>, b: Option<real>): (c: Option<real>)
    ensures c.Some? <==> a.Some? && b.Some?
    ensures c.Some? && a.value > 0.0 && b.value > 0.0 ==> c.value > 0.0
  {
    if a.Some? && b.Some? then Some(Product(a.value, b.value)) else None
  }

  function Product(x: real, y: real): (z: real)
    ensures z == x * y
    ensures x > 0.0 && y > 0.0 ==> z > 0.0
  {
    x * y
  }

  /** The product of the factors of the applicable actions; `None` as soon as one cannot be read. */
  function Compound(actions: seq<Action>, applies: Action -> bool, parse: NumberParser): (f: Option<real>)
    ensures f.Some? ==> f.value > 0.0
  {
    if actions == [] then Some(1.0) else
      var rest := Compound(actions[..|actions| - 1], applies, parse);
      var last := actions[|actions| - 1];
      if !applies(last) then rest else Times(rest, RatioFactor(last.ratio, parse))
  }

  function ReportedEps(f: Fact): Option<real>
  {
    if f.epsDiluted.Some? then f.epsDiluted else f.epsBasic
  }

  function AdjustedEps(f: Fact, actions: seq<Action>, date: int, parse: NumberParser): (eps: Option<real>)
    ensures eps.Some? ==> eps.value > 0.0
  {
    var reported := ReportedEps(f);
    if reported.None? || reported.value <= 0.0 then None else
      var factor := Compound(actions, Applies(f.periodEnd, date), parse);
      if factor.None? then None else (Positive(reported.value, factor.value); Some(reported.value / factor.value))
  }

  function TtmEps(quarters: seq<Fact>, actions: seq<Action>, date: int, parse: NumberParser): (ttm: Option<real>)
    ensures ttm.Some? && quarters != [] ==> ttm.value > 0.0
    ensures ttm.Some? ==> ttm.value >= 0.0
  {
    if quarters == [] then Some(0.0) else
      var rest := TtmEps(quarters[..|quarters| - 1], actions, date, parse);
      var eps := AdjustedEps(quarters[|quarters| - 1], actions, date, parse);
      if rest.Some? && eps.Some? then Some(rest.value + eps.value) else None
  }

  // ---------------------------------------------------------- one trading day

  function QuartersOn(facts: seq<Fact>, date: int): seq<Fact>
  {
    TopFour(LatestPerPeriod(Filter(facts, AvailableBy(EndOfDay(date))), ByVersion()))
  }

  function FactId(): Fact -> int { (f: Fact) => f.id }

  function DayOutcome(price: Price, facts: seq<Fact>, actions: seq<Action>, parse: NumberParser): Outcome
  {
    var quarters := QuartersOn(facts, price.date);
    if |quarters| != 4 then Excluded(price.date, FewerThanFourQuarters) else
      var ttm := TtmEps(quarters, actions, price.date, parse);
      if ttm.None? then Excluded(price.date, EpsOrAdjustmentMissing)
      else if ttm.value <= 0.0 then Excluded(price.date, NonPositiveTtmEps)
      else Observed(price.date, QuantizeHalfEven(price.close / ttm.value, 10000.0), ttm.value, price.id,
                    Map(quarters, FactId()))
  }

  function Day(facts: seq<Fact>, actions: seq<Action>, parse: NumberParser): Price -> Outcome
  {
    (price: Price) => DayOutcome(price, facts, actions, parse)
  }

  function Outcomes(prices: seq<Price>, facts: seq<Fact>, actions: seq<Action>, parse: NumberParser): seq<Outcome>
  {
    Map(prices, Day(facts, actions, parse))
  }

  function IsObserved(): Outcome -> bool { (o: Outcome) => o.Observed? }

  function IsExcluded(): Outcome -> bool { (o: Outcome) => o.Excluded? }

  /** The innermost loop, leaving at the first unreadable ratio. */
  method CompoundFactor(actions: seq<Action>, periodEnd: int, date: int, parse: NumberParser)
    returns (factor: real, valid: bool)
    ensures (if valid then Some(factor) else None) == Compound(actions, Applies(periodEnd, date), parse)
  {
    factor, valid := 1.0, true;
    for n := 0 to |actions|
      invariant valid && Some(factor) == Compound(actions[..n], Applies(periodEnd, date), parse)
    {
      var action := actions[n];
      assert actions[..n + 1] == actions[..n] + [action];
      CompoundAppend(actions[..n], action, Applies(periodEnd, date), parse);
      if periodEnd < action.eventDate <= date && action.availableAt <= EndOfDay(date) {
        var parsed := RatioFactor(action.ratio, parse);
        if parsed.None? {
          valid := false;
          CompoundAbsorbs(actions, n + 1, Applies(periodEnd, date), parse);
          return;
        }
        factor := Product(factor, parsed.value);
      }
    }
    assert actions[..|actions|] == actions;
  }

  lemma CompoundAppend(actions: seq<Action>, a: Action, applies: Action -> bool, parse: NumberParser)
    ensures Compound(actions + [a], applies, parse) ==
            if applies(a) then Times(Compound(actions, applies, parse), RatioFactor(a.ratio, parse))
            else Compound(actions, applies, parse)
  {
    var all := actions + [a];
    assert all[..|all| - 1] == actions && all[|all| - 1] == a;
    assert Compound(all, applies, parse) == (
      var rest := Compound(all[..|all| - 1], applies, parse);
      if !applies(a) then rest else Times(rest, RatioFactor(a.ratio, parse)));
  }

  lemma {:induction false} CompoundAbsorbs(actions: seq<Action>, n: nat, applies: Action -> bool, parse: NumberParser)
    requires n <= |actions| && Compound(actions[..n], applies, parse).None?
    ensures Compound(actions, applies, parse).None?
  {
    if n == |actions| {
      assert actions[..n] == actions;
    } else {
      var init := actions[..|actions| - 1];
      assert init[..n] == actions[..n];
      CompoundAbsorbs(init, n, applies, parse);
    }
  }

  lemma {:induction false} TtmAbsorbs(quarters: seq<Fact>, n: nat, actions: seq<Action>, date: int, parse: NumberParser)
    requires n <= |quarters| && TtmEps(quarters[..n], actions, date, parse).None?
    ensures TtmEps(quarters, actions, date, parse).None?
  {
    if n == |quarters| {
      assert quarters[..n] == quarters;
    } else {
      var init := quarters[..|quarters| - 1];
      assert init[..n] == quarters[..n];
      TtmAbsorbs(init, n, actions, date, parse);
    }
  }

  lemma TtmAppend(quarters: seq<Fact>, n: nat, actions: seq<Action>, date: int, parse: NumberParser)
    requires n < |quarters|
    ensures var rest := TtmEps(quarters[..n], actions, date, parse);
            var eps := AdjustedEps(quarters[n], actions, date, parse);
            TtmEps(quarters[..n + 1], actions, date, parse)
            == if rest.Some? && eps.Some? then Some(rest.value + eps.value) else None
  {
    assert quarters[..n + 1][..n] == quarters[..n];
  }

  /** The loop over the four quarters, leaving at the first missing figure. */
  method AdjustedEpsValues(quarters: seq<Fact>, actions: seq<Action>, date: int, parse: NumberParser)
    returns (epsValues: seq<real>, valid: bool)
    ensures (if valid then Some(Sum(epsValues, Identity())) else None) == TtmEps(quarters, actions, date, parse)
  {
    epsValues, valid := [], true;
    for n := 0 to |quarters|
      invariant valid && Some(Sum(epsValues, Identity())) == TtmEps(quarters[..n], actions, date, parse)
    {
      var f := quarters[n];
      TtmAppend(quarters, n, actions, date, parse);
      var eps := if f.epsDiluted.Some? then f.epsDiluted else f.epsBasic;
      if eps.None? || eps.value <= 0.0 {
        valid := false;
        TtmAbsorbs(quarters, n + 1, actions, date, parse);
        return;
      }
      var factor;
      factor, valid := CompoundFactor(actions, f.periodEnd, date, parse);
      if !valid {
        TtmAbsorbs(quarters, n + 1, actions, date, parse);
        return;
      }
      SumAppend(epsValues, eps.value / factor, Identity());
      epsValues := epsValues + [eps.value / factor];
    }
    assert quarters[..|quarters|] == quarters;
  }

  /** What one more trading day adds to the two lists. */
  lemma ObserveStep(prices: seq<Price>, n: nat, facts: seq<Fact>, actions: seq<Action>, parse: NumberParser)
    requires n < |prices|
    ensures var before := Outcomes(prices[..n], facts, actions, parse);
            var day := DayOutcome(prices[n], facts, actions, parse);
            var after := Outcomes(prices[..n + 1], facts, actions, parse);
            && Filter(after, IsObserved())
               == (if day.Observed? then Filter(before, IsObserved()) + [day] else Filter(before, IsObserved()))
            && Filter(after, IsExcluded())
               == (if day.Excluded? then Filter(before, IsExcluded()) + [day] else Filter(before, IsExcluded()))
  {
    var before, day := Outcomes(prices[..n], facts, actions, parse), DayOutcome(prices[n], facts, actions, parse);
    assert prices[..n + 1] == prices[..n] + [prices[n]];
    MapAppend(prices[..n], prices[n], Day(facts, actions, parse));
    FilterAppend(before, day, IsObserved());
    FilterAppend(before, day, IsExcluded());
  }

  /** The body of the observation loop: one trading day. */
  method ObserveDay(price: Price, facts: seq<Fact>, actions: seq<Action>, parse: NumberParser)
    returns (outcome: Outcome)
    ensures outcome == DayOutcome(price, facts, actions, parse)
  {
    var visible := Filter(facts, AvailableBy(EndOfDay(price.date)));
    var latest := SelectLatest(visible, ByVersion());
    var quarters := TopFour(latest);
    if |quarters| != 4 {
      return Excluded(price.date, FewerThanFourQuarters);
    }
    var epsValues, valid := AdjustedEpsValues(quarters, actions, price.date, parse);
    if !valid {
      return Excluded(price.date, EpsOrAdjustmentMissing);
    }
    var ttm := Sum(epsValues, Identity());
    if ttm <= 0.0 {
      return Excluded(price.date, NonPositiveTtmEps);
    }
    var pe := QuantizeHalfEven(price.close / ttm, 10000.0);
    outcome := Observed(price.date, pe, ttm, price.id, Map(quarters, FactId()));
  }

  /** The observation loop of `generate_for_company`. */
  method Observe(prices: seq<Price>, facts: seq<Fact>, actions: seq<Action>, parse: NumberParser)
    returns (observations: seq<Outcome>, exclusions: seq<Outcome>)
    ensures observations == Filter(Outcomes(prices, facts, actions, parse), IsObserved())
    ensures exclusions == Filter(Outcomes(prices, facts, actions, parse), IsExcluded())
  {
    observations, exclusions := [], [];
    for n := 0 to |prices|
      invariant observations == Filter(Outcomes(prices[..n], facts, actions, parse), IsObserved())
      invariant exclusions == Filter(Outcomes(prices[..n], facts, actions, parse), IsExcluded())
    {
      ObserveStep(prices, n, facts, actions, parse);
      var outcome := ObserveDay(prices[n], facts, actions, parse);
      if outcome.Observed? {
        observations := observations + [outcome];
      } else {
        exclusions := exclusions + [outcome];
      }
    }
    assert prices[..|prices|] == prices;
  }

  /** The third exclusion reason is never recorded: four positive adjusted figures have a positive sum. */
  lemma NonPositiveTtmNeverHappens(price: Price, facts: seq<Fact>, actions: seq<Action>, parse: NumberParser)
    ensures var o := DayOutcome(price, facts, actions, parse);
            o.Excluded? ==> o.reason != NonPositiveTtmEps
  {
    var quarters := QuartersOn(facts, price.date);
    if |quarters| == 4 {
      var ttm := TtmEps(quarters, actions, price.date, parse);
    }
  }

  // --------------------------------------------------- what a day's figure is

  /** Without actions the figure is the diluted one, the basic one if there is none, and it must be positive. */
  lemma UnadjustedEps(f: Fact, date: int, parse: NumberParser)
    ensures var eps := AdjustedEps(f, [], date, parse);
            && (f.epsDiluted.Some? && f.epsDiluted.value > 0.0 ==> eps == f.epsDiluted)
            && (f.epsDiluted.Some? && f.epsDiluted.value <= 0.0 ==> eps == None)
            && (f.epsDiluted.None? && f.epsBasic.Some? && f.epsBasic.value > 0.0 ==> eps == f.epsBasic)
            && (f.epsDiluted.None? && (f.epsBasic.None? || f.epsBasic.value <= 0.0) ==> eps == None)
  {
  }

  /** Both are there or neither, and one is the other divided by `k`. */
  ghost predicate ScaledBy(plain: Option<real>, adjusted: Option<real>, k: real)
    requires k > 0.0
  {
    plain.Some? == adjusted.Some? && (plain.Some? ==> adjusted.value == plain.value / k)
  }

  lemma DivDiv(x: real, y: real, k: real)
    requires y > 0.0 && k > 0.0
    ensures y * k > 0.0 && x / (y * k) == (x / y) / k
  {
    var q := x / (y * k);
    assert q * (y * k) == x;
    assert (q * k) * y == x;
    assert q * k == x / y;
  }

  lemma DivProduct(x: real, y: real, k: real)
    requires y > 0.0 && k > 0.0
    ensures x / Product(y, k) == (x / y) / k
  {
    DivDiv(x, y, k);
  }

  /**
   * Which actions adjust a quarter: those effective after the quarter's end and no later than the
   * trading day, and public by the end of that day.  Such an action divides the figure by its factor,
   * or leaves none when its ratio cannot be read; every other action is ignored.
   */
  lemma ActionAdjusts(f: Fact, actions: seq<Action>, a: Action, date: int, parse: NumberParser)
    ensures var plain, adjusted := AdjustedEps(f, actions, date, parse), AdjustedEps(f, actions + [a], date, parse);
            if f.periodEnd < a.eventDate && a.eventDate <= date && DateOf(a.availableAt) <= date then
              var k := RatioFactor(a.ratio, parse);
              if k.Some? then k.value > 0.0 && ScaledBy(plain, adjusted, k.value) else adjusted == None
            else adjusted == plain
  {
    EndOfDayBefore(date, a.availableAt);
    CompoundAppend(actions, a, Applies(f.periodEnd, date), parse);
    var reported, factor := ReportedEps(f), Compound(actions, Applies(f.periodEnd, date), parse);
    var k := RatioFactor(a.ratio, parse);
    if reported.Some? && reported.value > 0.0 && factor.Some? && k.Some? {
      DivProduct(reported.value, factor.value, k.value);
    }
  }

  function EpsOn(actions: seq<Action>, date: int, parse: NumberParser): Fact -> real
  {
    (f: Fact) =>
      var eps := AdjustedEps(f, actions, date, parse);
      if eps.Some? then eps.value else 0.0
  }

  /** There is a trailing figure exactly when every quarter has one, and it is their sum. */
  lemma {:induction false} TtmIsSum(quarters: seq<Fact>, actions: seq<Action>, date: int, parse: NumberParser)
    ensures TtmEps(quarters, actions, date, parse).Some?
       <==> forall f | f in quarters :: AdjustedEps(f, actions, date, parse).Some?
    ensures TtmEps(quarters, actions, date, parse).Some? ==>
              TtmEps(quarters, actions, date, parse).value == Sum(quarters, EpsOn(actions, date, parse))
  {
    if quarters != [] {
      var init, f := quarters[..|quarters| - 1], quarters[|quarters| - 1];
      TtmIsSum(init, actions, date, parse);
      assert quarters == init + [f];
    }
  }

  /** Of the facts available by the end of the day, one of the highest version of its period. */
  ghost predicate BestBy(facts: seq<Fact>, q: Fact, date: int)
  {
    && q in facts && DateOf(q.availableAt) <= date
    && forall g | g in facts && DateOf(g.availableAt) <= date && g.period == q.period :: g.version <= q.version
  }

  lemma LatestIsBest(facts: seq<Fact>, q: Fact, date: int)
    ensures IsLatestOf(Filter(facts, AvailableBy(EndOfDay(date))), q, ByVersion()) <==> BestBy(facts, q, date)
  {
    FilterMembers(facts, AvailableBy(EndOfDay(date)));
    forall f: Fact ensures AvailableBy(EndOfDay(date))(f) <==> DateOf(f.availableAt) <= date {
      EndOfDayBefore(date, f.availableAt);
    }
  }

  /**
   * The quarters a day uses: four different periods, newest first, each by a best fact available that
   * day, every other available period ending no later by its best fact.  There are four exactly when
   * facts of four periods are available.
   */
  lemma QuartersUsed(facts: seq<Fact>, date: int)
    ensures var q := QuartersOn(facts, date);
            && (|q| == 4 <==> |set f | f in facts && DateOf(f.availableAt) <= date :: f.period| >= 4)
            && (|q| == 4 ==>
                  && (forall i, j | 0 <= i < j < 4 :: q[i].period != q[j].period && q[i].periodEnd >= q[j].periodEnd)
                  && (forall i | 0 <= i < 4 :: BestBy(facts, q[i], date))
                  && (forall g | g in facts && DateOf(g.availableAt) <= date
                                 && (forall i | 0 <= i < 4 :: q[i].period != g.period) ::
                        exists b | BestBy(facts, b, date) && b.period == g.period :: b.periodEnd <= q[3].periodEnd))
  {
    var visible, q := Filter(facts, AvailableBy(EndOfDay(date))), QuartersOn(facts, date);
    BothOrder();
    FourFoundIff(visible, ByVersion());
    SelectionMeans(visible, ByVersion());
    PeriodsAvailable(facts, date);
    if |q| == 4 {
      forall i | 0 <= i < 4 ensures BestBy(facts, q[i], date) {
        assert q[i] in q;
        LatestIsBest(facts, q[i], date);
      }
      forall g | g in facts && DateOf(g.availableAt) <= date && (forall i | 0 <= i < 4 :: q[i].period != g.period)
        ensures exists b | BestBy(facts, b, date) && b.period == g.period :: b.periodEnd <= q[3].periodEnd {
        LeftOverIsBest(facts, date, g);
      }
    }
  }

  lemma PeriodsAvailable(facts: seq<Fact>, date: int)
    ensures Periods(Filter(facts, AvailableBy(EndOfDay(date))))
         == set f | f in facts && DateOf(f.availableAt) <= date :: f.period
  {
    FilterMembers(facts, AvailableBy(EndOfDay(date)));
    forall f: Fact ensures AvailableBy(EndOfDay(date))(f) <==> DateOf(f.availableAt) <= date {
      EndOfDayBefore(date, f.availableAt);
    }
  }

  lemma LeftOverIsBest(facts: seq<Fact>, date: int, g: Fact)
    requires |QuartersOn(facts, date)| == 4 && g in facts && DateOf(g.availableAt) <= date
    requires forall i | 0 <= i < 4 :: QuartersOn(facts, date)[i].period != g.period
    ensures exists b | BestBy(facts, b, date) && b.period == g.period ::
            b.periodEnd <= QuartersOn(facts, date)[3].periodEnd
  {
    var visible := Filter(facts, AvailableBy(EndOfDay(date)));
    BothOrder();
    FilterMembers(facts, AvailableBy(EndOfDay(date)));
    EndOfDayBefore(date, g.availableAt);
    assert g in visible;
    LeftOverEndsBy(visible, ByVersion(), g);
    var b :| IsLatestOf(visible, b, ByVersion()) && b.period == g.period
      && b.periodEnd <= QuartersOn(facts, date)[3].periodEnd;
    LatestIsBest(facts, b, date);
  }

  /**
   * A day's outcome: too few quarters, a missing figure, or the close divided by the sum of the four
   * adjusted figures, rounded to four decimals, with the identifiers of what was used.
   */
  lemma DayMeans(price: Price, facts: seq<Fact>, actions: seq<Action>, parse: NumberParser)
    ensures var o, q := DayOutcome(price, facts, actions, parse), QuartersOn(facts, price.date);
            && o.date == price.date
            && (|q| != 4 <==> o == Excluded(price.date, FewerThanFourQuarters))
            && (|q| == 4 && (exists f | f in q :: AdjustedEps(f, actions, price.date, parse).None?)
                <==> o == Excluded(price.date, EpsOrAdjustmentMissing))
            && (o.Observed? ==>
                  && |q| == 4 && o.ttm > 0.0 && o.ttm == Sum(q, EpsOn(actions, price.date, parse))
                  && -0.00005 <= o.pe - price.close / o.ttm <= 0.00005
                  && o.priceId == price.id
                  && |o.resultIds| == 4 && forall i | 0 <= i < 4 :: o.resultIds[i] == q[i].id)
  {
    var q := QuartersOn(facts, price.date);
    TtmIsSum(q, actions, price.date, parse);
    var ttm := TtmEps(q, actions, price.date, parse);
    if |q| == 4 && ttm.Some? {
      QuantizeErrors(price.close / ttm.value, 10000.0);
    }
  }

  /** At an exact tie of the fourth decimal the ratio goes to the even neighbour. */
  lemma PeTieEven(price: Price, facts: seq<Fact>, actions: seq<Action>, parse: NumberParser, n: int)
    ensures var o := DayOutcome(price, facts, actions, parse);
            o.Observed? && price.close / o.ttm * 10000.0 == n as real + 0.5 ==>
              o.pe == (if n % 2 == 0 then n else n + 1) as real / 10000.0
  {
    TieBreaks(n);
  }
}
