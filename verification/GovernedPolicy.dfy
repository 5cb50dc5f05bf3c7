/** `services/governed_policy.py`: expanding-window validation of a candidate policy. */
module GovernedPolicy {
  import opened Basics
  import opened AuditRows

  const MIN_N: nat := 5
  const MAX_DRAWDOWN_DEGRADATION_PCT: real := 10.0

  datatype CandidateSpec = CandidateSpec(ruleId: string, affectedAction: string, matches: AuditRow -> bool,
                                         complexity: int)

  /** Three fixed candidates. */
  function CandidateSpecs(): seq<CandidateSpec>
  {
    [ CandidateSpec("add_after_6_to_12m_review", "ADD",
        (r: AuditRow) => r.action == "ADD" && r.holdingAgeDays.Some? && 182 <= r.holdingAgeDays.value < 365, 1),
      CandidateSpec("long_held_thesis_review", "HOLDING_REVIEW",
        (r: AuditRow) => r.holdingAgeDays.Some? && r.holdingAgeDays.value >= 730, 1),
      CandidateSpec("high_concentration_add_penalty", "ADD",
        (r: AuditRow) => r.action == "ADD" && r.concentrationPct.Some? && r.concentrationPct.value >= 0.50, 1) ]
  }

  datatype Metrics = Metrics(
    n: nat, medianStockReturnPct: Option<real>, medianBenchmarkReturnPct: Option<real>,
    medianExcessReturnPct: Option<real>, medianDecisionDollarImpact: Option<real>,
    hitRatePct: Option<real>, benchmarkOutperformanceRatePct: Option<real>,
    medianDrawdownPct: Option<real>, turnoverInr: real, medianConcentrationPct: Option<real>, interventions: nat)

  datatype Fold = Fold(trainEndYear: int, validationYear: int, train: Metrics, validation: Metrics)

  /** Stored as BACKTESTED and REJECTED. */
  datatype Verdict = Passing | Failing

  datatype Reason =
    | FullHistoryTooSmall | Excluding2020TooSmall | FewerThanTwoFolds | NoExcluding2020Result
    | NoPositiveExcess | DependsOnOneSymbol | DrawdownDegradation(year: int) | BelowComplexityPenalty

  datatype Evaluation = Evaluation(
    ruleId: string, benchmark: Benchmark, fullHistory: Metrics, excluding2020: Metrics,
    folds: seq<Fold>, status: Verdict, confidence: Option<real>, reasons: seq<Reason>)

  // --------------------------------------------------------------- summaries

  function Selected(spec: CandidateSpec): AuditRow -> bool
  {
    (r: AuditRow) => r.included && spec.matches(r)
  }

  function InCohort(spec: CandidateSpec): AuditRow -> bool
  {
    (r: AuditRow) => r.included && spec.matches(r) && r.stockReturn.m12.Some?
  }

  function StockReturn(): AuditRow -> Option<real> { (r: AuditRow) => r.stockReturn.m12 }

  function Excess(kind: Benchmark): AuditRow -> Option<real>
  {
    (r: AuditRow) => if kind == Tri then r.excessReturnTri.m12 else r.excessReturn.m12
  }

  function BenchmarkReturn(kind: Benchmark): AuditRow -> Option<real>
  {
    (r: AuditRow) => if kind == Tri then r.benchmarkTriReturn.m12 else r.benchmarkReturn.m12
  }

  function Impact(): AuditRow -> Option<real> { (r: AuditRow) => r.impact.m12 }

  function Concentration(): AuditRow -> Option<real> { (r: AuditRow) => r.concentrationPct }

  function Abs(x: real): (a: real)
    ensures a >= 0.0 && (a == x || a == -x)
  {
    if x < 0.0 then -x else x
  }

  /** Traded value of one row; rows without a baseline or an entry price contribute nothing. */
  function Turnover(): AuditRow -> real
  {
    (r: AuditRow) =>
      if r.holdQuantityHeld.Some? && r.entryPrice.Some?
      then Abs(r.quantityHeld - r.holdQuantityHeld.value) * r.entryPrice.value else 0.0
  }

  function Summarize(rows: seq<AuditRow>, spec: CandidateSpec, kind: Benchmark): Metrics
  {
    var matched := Filter(rows, InCohort(spec));
    var excess, stock := Present(matched, Excess(kind)), Present(matched, StockReturn());
    Metrics(
      |matched|,
      Percent(Median(stock)),
      Percent(Median(Present(matched, BenchmarkReturn(kind)))),
      Percent(Median(excess)),
      Median(Present(matched, Impact())),
      Rate(stock, Positive()),
      Rate(excess, Positive()),
      Percent(Median(Present(matched, Drawdown()))),
      Sum(matched, Turnover()),
      Percent(Median(Present(matched, Concentration()))),
      |matched|)
  }

  // ------------------------------------------------------------------- folds

  function InYear(y: int): AuditRow -> bool { (r: AuditRow) => r.calendarYear == y }

  function BeforeYear(y: int): AuditRow -> bool { (r: AuditRow) => r.calendarYear < y }

  ghost predicate Ascending(ys: seq<int>)
  {
    forall i, j | 0 <= i < j < |ys| :: ys[i] < ys[j]
  }

  function AddYear(ys: seq<int>, y: int): (r: seq<int>)
    ensures r != []
  {
    if ys == [] then [y]
    else if y < ys[0] then [y] + ys
    else if y == ys[0] then ys
    else [ys[0]] + AddYear(ys[1..], y)
  }

  /** `sorted({row.calendar_year for row in rows})`. */
  function Years(rows: seq<AuditRow>): seq<int>
  {
    if rows == [] then [] else AddYear(Years(rows[..|rows| - 1]), rows[|rows| - 1].calendarYear)
  }

  function FoldAt(rows: seq<AuditRow>, spec: CandidateSpec, kind: Benchmark, y: int): Fold
  {
    Fold(y - 1, y, Summarize(Filter(rows, BeforeYear(y)), spec, kind), Summarize(Filter(rows, InYear(y)), spec, kind))
  }

  function FoldOf(rows: seq<AuditRow>, spec: CandidateSpec, kind: Benchmark): int -> Fold
  {
    (y: int) => FoldAt(rows, spec, kind, y)
  }

  /** A year opens a fold when there are rows both before it and in it. */
  function Opens(rows: seq<AuditRow>): int -> bool
  {
    (y: int) => Filter(rows, BeforeYear(y)) != [] && Filter(rows, InYear(y)) != []
  }

  function Folds(rows: seq<AuditRow>, spec: CandidateSpec, kind: Benchmark, years: seq<int>): seq<Fold>
  {
    Map(Filter(years, Opens(rows)), FoldOf(rows, spec, kind))
  }

  function MeetsMinimum(): Fold -> bool { (f: Fold) => f.train.n >= MIN_N && f.validation.n >= MIN_N }

  // ----------------------------------------------------------------- verdict

  function OfSymbol(s: string): AuditRow -> bool { (r: AuditRow) => r.symbol == s }

  /** More than half of the rows come from one symbol. */
  predicate Dominated(rows: seq<AuditRow>)
  {
    exists i | 0 <= i < |rows| :: 2 * |Filter(rows, OfSymbol(rows[i].symbol))| > |rows|
  }

  predicate Degrades(f: Fold)
  {
    && f.train.medianDrawdownPct.Some? && f.validation.medianDrawdownPct.Some?
    && f.validation.medianDrawdownPct.value < f.train.medianDrawdownPct.value - MAX_DRAWDOWN_DEGRADATION_PCT
  }

  /** The first valid fold whose drawdown degrades, as a reason. */
  function DrawdownReasons(folds: seq<Fold>): seq<Reason>
  {
    if folds == [] then []
    else if Degrades(folds[0]) then [DrawdownDegradation(folds[0].validationYear)]
    else DrawdownReasons(folds[1..])
  }

  function When(c: bool, r: Reason): seq<Reason> { if c then [r] else [] }

  function SampleReasons(full: nat, excluding: nat, valid: nat): seq<Reason>
  {
    When(full < MIN_N, FullHistoryTooSmall)
    + When(excluding < MIN_N, Excluding2020TooSmall)
    + When(valid < 2, FewerThanTwoFolds)
  }

  function ExcessReasons(excess: Option<real>): seq<Reason>
  {
    When(excess.None?, NoExcluding2020Result) + When(excess.Some? && excess.value <= 0.0, NoPositiveExcess)
  }

  function PenaltyReasons(excess: Option<real>, complexity: int): seq<Reason>
  {
    When(excess.Some? && excess.value <= complexity as real, BelowComplexityPenalty)
  }

  function Reasons(rows: seq<AuditRow>, spec: CandidateSpec, full: Metrics, excluding: Metrics,
                   folds: seq<Fold>): seq<Reason>
  {
    var valid := Filter(folds, MeetsMinimum());
    SampleReasons(full.n, excluding.n, |valid|)
    + ExcessReasons(excluding.medianExcessReturnPct)
    + When(Dominated(Filter(rows, Selected(spec))), DependsOnOneSymbol)
    + DrawdownReasons(valid)
    + PenaltyReasons(excluding.medianExcessReturnPct, spec.complexity)
  }

  function Min(a: real, b: real): real { if a <= b then a else b }

  function Conclude(spec: CandidateSpec, kind: Benchmark, full: Metrics, excluding: Metrics,
                    folds: seq<Fold>, reasons: seq<Reason>): Evaluation
  {
    var status := if reasons == [] then Passing else Failing;
    Evaluation(spec.ruleId, kind, full, excluding, folds, status,
               if status == Passing then Some(Min(0.90, full.n as real / 100.0)) else None, reasons)
  }

  function Evaluate(rows: seq<AuditRow>, spec: CandidateSpec, kind: Benchmark): Evaluation
  {
    var full, excluding := Summarize(rows, spec, kind), Summarize(Filter(rows, Not2020()), spec, kind);
    var folds := Folds(rows, spec, kind, Years(rows));
    Conclude(spec, kind, full, excluding, folds, Reasons(rows, spec, full, excluding, folds))
  }

  // ------------------------------------------------------------ the procedure

  function CountOf(counts: map<string, nat>, s: string): nat
  {
    if s in counts then counts[s] else 0
  }

  ghost predicate Counts(counts: map<string, nat>, rows: seq<AuditRow>)
  {
    forall s: string :: CountOf(counts, s) == |Filter(rows, OfSymbol(s))|
  }

  lemma CountsStep(counts: map<string, nat>, rows: seq<AuditRow>, row: AuditRow)
    requires Counts(counts, rows)
    ensures Counts(counts[row.symbol := CountOf(counts, row.symbol) + 1], rows + [row])
  {
    var counts' := counts[row.symbol := CountOf(counts, row.symbol) + 1];
    forall s: string ensures CountOf(counts', s) == |Filter(rows + [row], OfSymbol(s))| {
      FilterAppend(rows, row, OfSymbol(s));
      assert CountOf(counts, s) == |Filter(rows, OfSymbol(s))|;
    }
  }

  /** The dictionary loop counting rows per symbol. */
  method CountSymbols(rows: seq<AuditRow>) returns (counts: map<string, nat>)
    ensures Counts(counts, rows)
  {
    counts := map[];
    for n := 0 to |rows|
      invariant Counts(counts, rows[..n])
    {
      CountsStep(counts, rows[..n], rows[n]);
      assert rows[..n + 1] == rows[..n] + [rows[n]];
      counts := counts[rows[n].symbol := CountOf(counts, rows[n].symbol) + 1];
    }
    assert rows[..|rows|] == rows;
  }

  /** `matched and max(symbol_counts.values()) / len(matched) > 0.50`. */
  method FindDominance(matched: seq<AuditRow>) returns (dominated: bool)
    ensures dominated == Dominated(matched)
  {
    var counts := CountSymbols(matched);
    var largest := 0;
    for n := 0 to |matched|
      invariant forall i | 0 <= i < n :: CountOf(counts, matched[i].symbol) <= largest
      invariant largest == 0 || exists i | 0 <= i < n :: CountOf(counts, matched[i].symbol) == largest
    {
      if CountOf(counts, matched[n].symbol) > largest {
        largest := CountOf(counts, matched[n].symbol);
      }
    }
    dominated := 2 * largest > |matched|;
    assert forall i | 0 <= i < |matched| ::
      CountOf(counts, matched[i].symbol) == |Filter(matched, OfSymbol(matched[i].symbol))|;
  }

  lemma FoldsStep(rows: seq<AuditRow>, spec: CandidateSpec, kind: Benchmark, years: seq<int>, n: nat)
    requires n < |years|
    ensures Folds(rows, spec, kind, years[..n + 1])
         == Folds(rows, spec, kind, years[..n]) + NewFold(rows, spec, kind, years[n])
  {
    var before := Filter(years[..n], Opens(rows));
    assert years[..n + 1] == years[..n] + [years[n]];
    FilterAppend(years[..n], years[n], Opens(rows));
    if Opens(rows)(years[n]) {
      MapAppend(before, years[n], FoldOf(rows, spec, kind));
    }
  }

  function NewFold(rows: seq<AuditRow>, spec: CandidateSpec, kind: Benchmark, y: int): seq<Fold>
  {
    if Opens(rows)(y) then [FoldAt(rows, spec, kind, y)] else []
  }

  /** The body of the loop over years: at most one fold, when both sides have rows. */
  method OpenFold(rows: seq<AuditRow>, spec: CandidateSpec, kind: Benchmark, y: int) returns (added: seq<Fold>)
    ensures added == NewFold(rows, spec, kind, y)
  {
    var train, validation := Filter(rows, BeforeYear(y)), Filter(rows, InYear(y));
    if train == [] || validation == [] {
      return [];
    }
    added := [Fold(y - 1, y, Summarize(train, spec, kind), Summarize(validation, spec, kind))];
  }

  method BuildFolds(rows: seq<AuditRow>, spec: CandidateSpec, kind: Benchmark, years: seq<int>)
    returns (folds: seq<Fold>)
    ensures folds == Folds(rows, spec, kind, years)
  {
    folds := [];
    for n := 0 to |years|
      invariant folds == Folds(rows, spec, kind, years[..n])
    {
      FoldsStep(rows, spec, kind, years, n);
      var added := OpenFold(rows, spec, kind, years[n]);
      folds := folds + added;
    }
    assert years[..|years|] == years;
  }

  /** The loop over the valid folds, leaving at the first degradation. */
  method FirstDegradation(folds: seq<Fold>) returns (reasons: seq<Reason>)
    ensures reasons == DrawdownReasons(folds)
  {
    for n := 0 to |folds|
      invariant DrawdownReasons(folds) == DrawdownReasons(folds[n..])
    {
      if Degrades(folds[n]) {
        return [DrawdownDegradation(folds[n].validationYear)];
      }
      assert folds[n..][1..] == folds[n + 1..];
    }
    reasons := [];
  }

  method CollectSampleReasons(full: nat, excluding: nat, valid: nat) returns (reasons: seq<Reason>)
    ensures reasons == SampleReasons(full, excluding, valid)
  {
    reasons := [];
    if full < MIN_N {
      reasons := reasons + [FullHistoryTooSmall];
    }
    if excluding < MIN_N {
      reasons := reasons + [Excluding2020TooSmall];
    }
    if valid < 2 {
      reasons := reasons + [FewerThanTwoFolds];
    }
  }

  method CollectExcessReasons(excess: Option<real>) returns (reasons: seq<Reason>)
    ensures reasons == ExcessReasons(excess)
  {
    reasons := [];
    if excess.None? {
      reasons := reasons + [NoExcluding2020Result];
    } else if excess.value <= 0.0 {
      reasons := reasons + [NoPositiveExcess];
    }
  }

  method CollectReasons(rows: seq<AuditRow>, spec: CandidateSpec, full: Metrics, excluding: Metrics, folds: seq<Fold>)
    returns (reasons: seq<Reason>)
    ensures reasons == Reasons(rows, spec, full, excluding, folds)
  {
    var valid, excess := Filter(folds, MeetsMinimum()), excluding.medianExcessReturnPct;
    var samples := CollectSampleReasons(full.n, excluding.n, |valid|);
    var benefits := CollectExcessReasons(excess);
    var dominated := FindDominance(Filter(rows, Selected(spec)));
    var drawdown := FirstDegradation(valid);
    reasons := samples + benefits + When(dominated, DependsOnOneSymbol) + drawdown
               + PenaltyReasons(excess, spec.complexity);
  }

  method ValidateExpanding(rows: seq<AuditRow>, spec: CandidateSpec, kind: Benchmark) returns (e: Evaluation)
    ensures e == Evaluate(rows, spec, kind)
  {
    var fullHistory := Summarize(rows, spec, kind);
    var excluding2020 := Summarize(Filter(rows, Not2020()), spec, kind);
    var folds := BuildFolds(rows, spec, kind, Years(rows));
    var reasons := CollectReasons(rows, spec, fullHistory, excluding2020, folds);
    e := Conclude(spec, kind, fullHistory, excluding2020, folds, reasons);
  }

  // -------------------------------------------------- what the figures mean

  /** The scored cohort of a rule: included rows it matches, with a twelve-month return. */
  ghost predicate IsCohort(rows: seq<AuditRow>, spec: CandidateSpec, cohort: seq<AuditRow>)
  {
    cohort == Filter(rows, (r: AuditRow) => r.included && spec.matches(r) && r.stockReturn.m12.Some?)
  }

  /**
   * Every figure of a summary, over the fields of the rows: sizes, medians, shares and turnover of
   * the scored cohort, each from its own column.
   */
  lemma SummaryMeans(rows: seq<AuditRow>, spec: CandidateSpec, kind: Benchmark, cohort: seq<AuditRow>)
    requires IsCohort(rows, spec, cohort)
    ensures var m := Summarize(rows, spec, kind);
            && m.n == |cohort| && m.interventions == |cohort|
            && IsMedian(cohort, (r: AuditRow) => r.stockReturn.m12, 100.0, m.medianStockReturnPct)
            && IsMedian(cohort,
                        (r: AuditRow) => if kind == Tri then r.benchmarkTriReturn.m12 else r.benchmarkReturn.m12,
                        100.0, m.medianBenchmarkReturnPct)
            && IsMedian(cohort,
                        (r: AuditRow) => if kind == Tri then r.excessReturnTri.m12 else r.excessReturn.m12,
                        100.0, m.medianExcessReturnPct)
            && IsMedian(cohort, (r: AuditRow) => r.impact.m12, 1.0, m.medianDecisionDollarImpact)
            && IsMedian(cohort, (r: AuditRow) => r.maxDrawdownPct, 100.0, m.medianDrawdownPct)
            && IsMedian(cohort, (r: AuditRow) => r.concentrationPct, 100.0, m.medianConcentrationPct)
            && IsPositiveShare(cohort, (r: AuditRow) => r.stockReturn.m12, m.hitRatePct)
            && IsPositiveShare(cohort,
                               (r: AuditRow) => if kind == Tri then r.excessReturnTri.m12 else r.excessReturn.m12,
                               m.benchmarkOutperformanceRatePct)
  {
    FilterCongruence(rows, InCohort(spec), (r: AuditRow) => r.included && spec.matches(r) && r.stockReturn.m12.Some?);
    var m := Summarize(rows, spec, kind);
    MedianPercentMeans(cohort, StockReturn(), (r: AuditRow) => r.stockReturn.m12,
      Median(Present(cohort, StockReturn())));
    MedianPercentMeans(cohort, BenchmarkReturn(kind),
                       (r: AuditRow) => if kind == Tri then r.benchmarkTriReturn.m12 else r.benchmarkReturn.m12,
                       Median(Present(cohort, BenchmarkReturn(kind))));
    MedianPercentMeans(cohort, Excess(kind),
                       (r: AuditRow) => if kind == Tri then r.excessReturnTri.m12 else r.excessReturn.m12,
                       Median(Present(cohort, Excess(kind))));
    MedianMeans(cohort, Impact(), (r: AuditRow) => r.impact.m12, m.medianDecisionDollarImpact);
    MedianPercentMeans(cohort, Drawdown(), (r: AuditRow) => r.maxDrawdownPct, Median(Present(cohort, Drawdown())));
    MedianPercentMeans(cohort, Concentration(), (r: AuditRow) => r.concentrationPct,
      Median(Present(cohort, Concentration())));
    ShareMeans(cohort, StockReturn(), (r: AuditRow) => r.stockReturn.m12, m.hitRatePct);
    ShareMeans(cohort, Excess(kind), (r: AuditRow) => if kind == Tri then r.excessReturnTri.m12 else r.excessReturn.m12,
               m.benchmarkOutperformanceRatePct);
  }

  /** Turnover: what a row trades against its baseline, at its entry price; bought or sold alike. */
  lemma TurnoverAppend(rows: seq<AuditRow>, r: AuditRow, spec: CandidateSpec, kind: Benchmark)
    ensures var before, after := Summarize(rows, spec, kind).turnoverInr, Summarize(rows + [r], spec, kind).turnoverInr;
            if r.included && spec.matches(r) && r.stockReturn.m12.Some? && r.holdQuantityHeld.Some?
              && r.entryPrice.Some? then
              after - before == Abs(r.quantityHeld - r.holdQuantityHeld.value) * r.entryPrice.value
            else after == before
  {
    CohortTurnoverAppend(rows, r, spec);
  }

  lemma CohortTurnoverAppend(rows: seq<AuditRow>, r: AuditRow, spec: CandidateSpec)
    ensures Sum(Filter(rows + [r], InCohort(spec)), Turnover())
         == Sum(Filter(rows, InCohort(spec)), Turnover()) + (if InCohort(spec)(r) then Turnover()(r) else 0.0)
  {
    FilterAppend(rows, r, InCohort(spec));
    if InCohort(spec)(r) {
      SumAppend(Filter(rows, InCohort(spec)), r, Turnover());
    }
  }

  /** The median drawdown in validation is at most ten points deeper than in training, where both are there. */
  ghost predicate HoldsUp(f: Fold)
  {
    f.train.medianDrawdownPct.Some? && f.validation.medianDrawdownPct.Some? ==>
      f.validation.medianDrawdownPct.value + 10.0 >= f.train.medianDrawdownPct.value
  }

  /** The first fold that does not hold up is of this year. */
  ghost predicate FirstDegrades(valid: seq<Fold>, year: int)
  {
    exists i | 0 <= i < |valid| ::
      valid[i].validationYear == year && !HoldsUp(valid[i]) && forall j | 0 <= j < i :: HoldsUp(valid[j])
  }

  /** One symbol has more than half of the rows. */
  lemma DominatedIff(rows: seq<AuditRow>)
    ensures Dominated(rows)
       <==> exists q | q in rows :: 2 * |Filter(rows, (r: AuditRow) => r.symbol == q.symbol)| > |rows|
  {
    forall q | q in rows
      ensures Filter(rows, OfSymbol(q.symbol)) == Filter(rows, (r: AuditRow) => r.symbol == q.symbol) {
      FilterCongruence(rows, OfSymbol(q.symbol), (r: AuditRow) => r.symbol == q.symbol);
    }
    if Dominated(rows) {
      var i :| 0 <= i < |rows| && 2 * |Filter(rows, OfSymbol(rows[i].symbol))| > |rows|;
      assert rows[i] in rows;
    } else {
      forall q | q in rows ensures 2 * |Filter(rows, OfSymbol(q.symbol))| <= |rows| {
        var i :| 0 <= i < |rows| && rows[i] == q;
      }
    }
  }

  /** When each reason is given. */
  ghost predicate IsGiven(r: Reason, full: nat, excluding: nat, valid: seq<Fold>, x: Option<real>, dominated: bool,
                          complexity: int)
  {
    match r
    case FullHistoryTooSmall => full < 5
    case Excluding2020TooSmall => excluding < 5
    case FewerThanTwoFolds => |valid| < 2
    case NoExcluding2020Result => x.None?
    case NoPositiveExcess => x.Some? && x.value <= 0.0
    case DependsOnOneSymbol => dominated
    case DrawdownDegradation(year) => FirstDegrades(valid, year)
    case BelowComplexityPenalty => x.Some? && x.value <= complexity as real
  }

  /** Each reason is given exactly when its gate fails; the drawdown one names the first valid fold that degrades. */
  lemma ReasonsMean(rows: seq<AuditRow>, spec: CandidateSpec, full: Metrics, excluding: Metrics, folds: seq<Fold>,
                    r: Reason)
    ensures var valid := Filter(folds, (f: Fold) => f.train.n >= 5 && f.validation.n >= 5);
            var cohort := Filter(rows, (r: AuditRow) => r.included && spec.matches(r));
            var dominated :=
              exists q | q in cohort :: 2 * |Filter(cohort, (r: AuditRow) => r.symbol == q.symbol)| > |cohort|;
            r in Reasons(rows, spec, full, excluding, folds) <==>
            IsGiven(r, full.n, excluding.n, valid, excluding.medianExcessReturnPct, dominated, spec.complexity)
  {
    var valid, x := Filter(folds, MeetsMinimum()), excluding.medianExcessReturnPct;
    var dominated := Dominated(Filter(rows, Selected(spec)));
    DominatedIff(Filter(rows, Selected(spec)));
    FilterCongruence(folds, MeetsMinimum(), (f: Fold) => f.train.n >= 5 && f.validation.n >= 5);
    FilterCongruence(rows, Selected(spec), (r: AuditRow) => r.included && spec.matches(r));
    InAnyOf(SampleReasons(full.n, excluding.n, |valid|), ExcessReasons(x), When(dominated, DependsOnOneSymbol),
            DrawdownReasons(valid), PenaltyReasons(x, spec.complexity), r);
    SampleReasonsAre(full.n, excluding.n, |valid|, r);
    OtherReasonsAre(x, spec.complexity, dominated, r);
    DrawdownReasonsAre(valid, r);
  }

  lemma InAnyOf(a: seq<Reason>, b: seq<Reason>, c: seq<Reason>, d: seq<Reason>, e: seq<Reason>, r: Reason)
    ensures r in a + b + c + d + e <==> r in a || r in b || r in c || r in d || r in e
  {
  }

  lemma {:induction false} DrawdownReasonsAre(folds: seq<Fold>, r: Reason)
    ensures r in DrawdownReasons(folds) <==> r.DrawdownDegradation? && FirstDegrades(folds, r.year)
  {
    if folds != [] {
      assert HoldsUp(folds[0]) <==> !Degrades(folds[0]);
      if HoldsUp(folds[0]) {
        DrawdownReasonsAre(folds[1..], r);
        if r.DrawdownDegradation? {
          FirstDegradesTail(folds, r.year);
        }
      } else {
        assert r.DrawdownDegradation? ==> (FirstDegrades(folds, r.year) <==> folds[0].validationYear == r.year);
      }
    }
  }

  lemma FirstDegradesTail(folds: seq<Fold>, year: int)
    requires folds != [] && HoldsUp(folds[0])
    ensures FirstDegrades(folds, year) <==> FirstDegrades(folds[1..], year)
  {
    var rest := folds[1..];
    if FirstDegrades(folds, year) {
      var i :| 0 <= i < |folds| && folds[i].validationYear == year && !HoldsUp(folds[i]) && forall j | 0 <= j < i ::
        HoldsUp(folds[j]);
      assert rest[i - 1] == folds[i];
      assert forall j | 0 <= j < i - 1 :: rest[j] == folds[j + 1];
    }
    if FirstDegrades(rest, year) {
      var i :| 0 <= i < |rest| && rest[i].validationYear == year && !HoldsUp(rest[i]) && forall j | 0 <= j < i ::
        HoldsUp(rest[j]);
      assert folds[i + 1] == rest[i];
      assert forall j | 0 < j < i + 1 :: folds[j] == rest[j - 1];
    }
  }

  lemma SampleReasonsAre(full: nat, excluding: nat, valid: nat, r: Reason)
    ensures r in SampleReasons(full, excluding, valid) <==>
            || (r == FullHistoryTooSmall && full < 5) || (r == Excluding2020TooSmall && excluding < 5)
            || (r == FewerThanTwoFolds && valid < 2)
  {
  }

  lemma OtherReasonsAre(x: Option<real>, complexity: int, dominated: bool, r: Reason)
    ensures r in ExcessReasons(x) <==>
            (r == NoExcluding2020Result && x.None?) || (r == NoPositiveExcess && x.Some? && x.value <= 0.0)
    ensures r in PenaltyReasons(x, complexity) <==>
            r == BelowComplexityPenalty && x.Some? && x.value <= complexity as real
    ensures r in When(dominated, DependsOnOneSymbol) <==> r == DependsOnOneSymbol && dominated
  {
  }

  /** The verdict is BACKTESTED exactly without a reason, with the confidence of its sample, at most 0.90. */
  lemma ConcludeMeans(spec: CandidateSpec, kind: Benchmark, full: Metrics, excluding: Metrics, folds: seq<Fold>,
                      reasons: seq<Reason>)
    ensures var e := Conclude(spec, kind, full, excluding, folds, reasons);
            && e.ruleId == spec.ruleId && e.benchmark == kind
            && e.fullHistory == full && e.excluding2020 == excluding && e.folds == folds && e.reasons == reasons
            && (e.status == Passing <==> reasons == [])
            && (e.status == Failing ==> e.confidence == None)
            && (e.status == Passing ==> e.confidence == Some(if full.n >= 90 then 0.90 else full.n as real / 100.0))
  {
  }

  /** Without 2020 means without the rows of that year. */
  lemma Without2020(rows: seq<AuditRow>)
    ensures Filter(rows, Not2020()) == Filter(rows, (r: AuditRow) => r.calendarYear != 2020)
  {
    FilterCongruence(rows, Not2020(), (r: AuditRow) => r.calendarYear != 2020);
  }

  lemma ValidFoldsAre(folds: seq<Fold>)
    ensures Filter(folds, MeetsMinimum()) == Filter(folds, (f: Fold) => f.train.n >= 5 && f.validation.n >= 5)
  {
    FilterCongruence(folds, MeetsMinimum(), (f: Fold) => f.train.n >= 5 && f.validation.n >= 5);
  }

  lemma SelectedAre(rows: seq<AuditRow>, spec: CandidateSpec)
    ensures Filter(rows, Selected(spec)) == Filter(rows, (r: AuditRow) => r.included && spec.matches(r))
  {
    FilterCongruence(rows, Selected(spec), (r: AuditRow) => r.included && spec.matches(r));
  }

  lemma HoldsUpIff(f: Fold)
    ensures HoldsUp(f) <==> !Degrades(f)
  {
  }

  /** A fold sets the summary of all earlier years beside that of its own year. */
  lemma FoldMeans(rows: seq<AuditRow>, spec: CandidateSpec, kind: Benchmark, y: int)
    ensures var f := FoldAt(rows, spec, kind, y);
            && f.validationYear == y && f.trainEndYear == y - 1
            && f.train == Summarize(Filter(rows, (r: AuditRow) => r.calendarYear < y), spec, kind)
            && f.validation == Summarize(Filter(rows, (r: AuditRow) => r.calendarYear == y), spec, kind)
  {
    FilterCongruence(rows, BeforeYear(y), (r: AuditRow) => r.calendarYear < y);
    FilterCongruence(rows, InYear(y), (r: AuditRow) => r.calendarYear == y);
  }

  /** The three shipped candidates, by what they match. */
  lemma CandidatesAre(r: AuditRow)
    ensures var specs := CandidateSpecs();
            && |specs| == 3 && specs[0].affectedAction == "ADD" && specs[1].affectedAction == "HOLDING_REVIEW"
            && specs[2].affectedAction == "ADD"
            && (specs[0].matches(r) <==>
                  r.action == "ADD" && r.holdingAgeDays.Some? && 182 <= r.holdingAgeDays.value <= 364)
            && (specs[1].matches(r) <==> r.holdingAgeDays.Some? && 2 * 365 <= r.holdingAgeDays.value)
            && (specs[2].matches(r) <==>
                  r.action == "ADD" && r.concentrationPct.Some? && 2.0 * r.concentrationPct.value >= 1.0)
  {
  }
}
