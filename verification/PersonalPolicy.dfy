/** `services/personal_policy.py`: descriptive patterns of past decisions, grouped along eight dimensions. */
module PersonalPolicy {
  import opened Basics
  import opened AuditRows
  import opened Text

  datatype SampleLabel = InsufficientEvidence | LowSample | ModerateSample | StrongerSample

  function LabelFor(n: nat): SampleLabel
  {
    if n < 5 then InsufficientEvidence
    else if n < 10 then LowSample
    else if n < 30 then ModerateSample
    else StrongerSample
  }

  datatype Stats = Stats(
    n: nat, sample: SampleLabel, medianAbsoluteReturnPct: Option<real>, medianExcessReturnPct: Option<real>,
    benchmarkOutperformanceRatePct: Option<real>, positiveReturnRatePct: Option<real>,
    medianDrawdownPct: Option<real>, maxDrawdownPct: Option<real>,
    medianDecisionDollarImpact: Option<real>, positiveDollarImpactRatePct: Option<real>, nDecisionDollarImpact: nat)

  datatype Dimension =
    Overall | ByAction | ByCalendarYear | ByHoldingAge | ByConcentration | ByMarketRegime | BySymbol | BySector

  /** A bucket's name. */
  type Bucket = string

  datatype Population = FullHistory | Excluding2020

  datatype Context = Context(sectors: map<string, Option<string>>, regimes: map<int, string>)

  datatype Pattern = Pattern(
    population: Population, dimension: Dimension, bucket: Bucket, horizon: Horizon, stats: Stats, decisionIds: seq<int>)

  function KeyOf(d: Dimension, c: Context): AuditRow -> Bucket
  {
    (r: AuditRow) =>
      match d
      case Overall => "ALL"
      case ByAction => r.action
      case ByCalendarYear => Decimal(r.calendarYear)
      case ByHoldingAge => r.ageBucket
      case ByConcentration => r.concentrationBucket
      case ByMarketRegime => if r.decisionId in c.regimes then c.regimes[r.decisionId] else "UNKNOWN"
      case BySymbol => r.symbol
      case BySector =>
        if r.symbol in c.sectors && c.sectors[r.symbol].Some? && c.sectors[r.symbol].value != ""
        then c.sectors[r.symbol].value else "UNKNOWN"
  }

  function Scored(h: Horizon): AuditRow -> bool
  {
    (r: AuditRow) => r.included && r.stockReturn.At(h).Some?
  }

  function ReturnAt(h: Horizon): AuditRow -> Option<real> { (r: AuditRow) => r.stockReturn.At(h) }

  function ExcessAt(h: Horizon, kind: Benchmark): AuditRow -> Option<real>
  {
    (r: AuditRow) => if kind == Tri then r.excessReturnTri.At(h) else r.excessReturn.At(h)
  }

  function ImpactAt(h: Horizon): AuditRow -> Option<real> { (r: AuditRow) => r.impact.At(h) }

  /** The smallest value, the deepest loss among drawdowns. */
  function Least(values: seq<real>): (m: Option<real>)
    ensures m.Some? <==> values != []
    ensures m.Some? ==> m.value in values && forall v | v in values :: m.value <= v
  {
    if values == [] then None else
      var rest := Least(values[..|values| - 1]);
      var last := values[|values| - 1];
      assert values == values[..|values| - 1] + [last];
      if rest.Some? && rest.value <= last then rest else Some(last)
  }

  function StatsOf(rows: seq<AuditRow>, h: Horizon, kind: Benchmark): Stats
  {
    var scored := Filter(rows, Scored(h));
    var stock, excess := Present(scored, ReturnAt(h)), Present(scored, ExcessAt(h, kind));
    var drawdowns, impacts := Present(scored, Drawdown()), Present(scored, ImpactAt(h));
    Stats(|scored|, LabelFor(|scored|), Percent(Median(stock)), Percent(Median(excess)),
          Rate(excess, Positive()), Rate(stock, Positive()),
          Percent(Median(drawdowns)), Percent(Least(drawdowns)),
          Median(impacts), Rate(impacts, Positive()), |impacts|)
  }

  // ------------------------------------------------------------------ groups

  function InBucket(key: AuditRow -> Bucket, b: Bucket): AuditRow -> bool
  {
    (r: AuditRow) => key(r) == b
  }

  /** The buckets in order of first appearance. */
  function Buckets(rows: seq<AuditRow>, key: AuditRow -> Bucket): (bs: seq<Bucket>)
    ensures |bs| <= |rows|
  {
    if rows == [] then [] else
      var rest := Buckets(rows[..|rows| - 1], key);
      var b := key(rows[|rows| - 1]);
      if b in rest then rest else rest + [b]
  }

  /** Symbol and sector patterns need five scored rows; every other bucket stays visible. */
  predicate Hidden(d: Dimension, n: nat)
  {
    (d == BySymbol || d == BySector) && n < 5
  }

  const HORIZONS: seq<Horizon> := [OneMonth, ThreeMonths, SixMonths, TwelveMonths]

  const DIMENSIONS: seq<Dimension> :=
    [Overall, ByAction, ByCalendarYear, ByHoldingAge, ByConcentration, ByMarketRegime, BySymbol, BySector]

  const POPULATIONS: seq<Population> := [FullHistory, Excluding2020]

  function PopulationRows(rows: seq<AuditRow>, p: Population): seq<AuditRow>
  {
    match p
    case FullHistory => rows
    case Excluding2020 => Filter(rows, Not2020())
  }

  function DecisionId(): AuditRow -> int { (r: AuditRow) => r.decisionId }

  /** The rows of one population and the key of one dimension, which the inner loops share. */
  datatype Cut = Cut(rows: seq<AuditRow>, population: Population, dimension: Dimension, key: AuditRow -> Bucket,
                     kind: Benchmark)
  {
    function Group(b: Bucket): seq<AuditRow> { Filter(rows, InBucket(key, b)) }

    function Names(): seq<Bucket> { SortNames(Buckets(rows, key)) }
  }

  function CutOf(rows: seq<AuditRow>, c: Context, kind: Benchmark, p: Population, d: Dimension): Cut
  {
    Cut(PopulationRows(rows, p), p, d, KeyOf(d, c), kind)
  }

  function PatternOf(cut: Cut, b: Bucket): Horizon -> Pattern
  {
    (h: Horizon) =>
      Pattern(cut.population, cut.dimension, b, h, StatsOf(cut.Group(b), h, cut.kind), Map(cut.Group(b), DecisionId()))
  }

  function Visible(d: Dimension): Pattern -> bool { (p: Pattern) => !Hidden(d, p.stats.n) }

  function BucketPatterns(cut: Cut): Bucket -> seq<Pattern>
  {
    (b: Bucket) => Filter(Map(HORIZONS, PatternOf(cut, b)), Visible(cut.dimension))
  }

  function DimensionPatterns(rows: seq<AuditRow>, c: Context, kind: Benchmark, p: Population): Dimension -> seq<Pattern>
  {
    (d: Dimension) =>
      var cut := CutOf(rows, c, kind, p, d);
      FlatMap(cut.Names(), BucketPatterns(cut))
  }

  function PopulationPatterns(rows: seq<AuditRow>, c: Context, kind: Benchmark): Population -> seq<Pattern>
  {
    (p: Population) => FlatMap(DIMENSIONS, DimensionPatterns(rows, c, kind, p))
  }

  /** The patterns of every population, dimension, bucket and horizon, in that order. */
  function Patterns(rows: seq<AuditRow>, c: Context, kind: Benchmark): seq<Pattern>
  {
    FlatMap(POPULATIONS, PopulationPatterns(rows, c, kind))
  }

  // ------------------------------------------------------------------- loops

  ghost predicate Groups(groups: map<Bucket, seq<AuditRow>>, rows: seq<AuditRow>, key: AuditRow -> Bucket)
  {
    forall b :: Filter(rows, InBucket(key, b)) == if b in groups then groups[b] else []
  }

  lemma GroupsStep(groups: map<Bucket, seq<AuditRow>>, rows: seq<AuditRow>, key: AuditRow -> Bucket, row: AuditRow)
    requires Groups(groups, rows, key)
    ensures var b := key(row);
            Groups(groups[b := (if b in groups then groups[b] else []) + [row]], rows + [row], key)
  {
    var b := key(row);
    var groups' := groups[b := (if b in groups then groups[b] else []) + [row]];
    forall c ensures Filter(rows + [row], InBucket(key, c)) == if c in groups' then groups'[c] else [] {
      FilterAppend(rows, row, InBucket(key, c));
      assert Filter(rows, InBucket(key, c)) == if c in groups then groups[c] else [];
    }
  }

  lemma BucketsStep(rows: seq<AuditRow>, n: nat, key: AuditRow -> Bucket)
    requires n < |rows|
    ensures var before, b := Buckets(rows[..n], key), key(rows[n]);
            Buckets(rows[..n + 1], key) == if b in before then before else before + [b]
  {
    assert rows[..n + 1][..n] == rows[..n];
  }

  /** The grouping loop; `order` is the insertion order of the dictionary. */
  method GroupRows(rows: seq<AuditRow>, key: AuditRow -> Bucket)
    returns (groups: map<Bucket, seq<AuditRow>>, order: seq<Bucket>)
    ensures Groups(groups, rows, key)
    ensures order == Buckets(rows, key)
  {
    groups, order := map[], [];
    for n := 0 to |rows|
      invariant Groups(groups, rows[..n], key)
      invariant order == Buckets(rows[..n], key)
    {
      var b := key(rows[n]);
      GroupsStep(groups, rows[..n], key, rows[n]);
      BucketsStep(rows, n, key);
      assert rows[..n + 1] == rows[..n] + [rows[n]];
      groups := groups[b := (if b in groups then groups[b] else []) + [rows[n]]];
      if b !in order {
        order := order + [b];
      }
    }
    assert rows[..|rows|] == rows;
  }

  method BuildPattern(cut: Cut, group: seq<AuditRow>, b: Bucket, h: Horizon) returns (p: Pattern)
    requires group == cut.Group(b)
    ensures p == PatternOf(cut, b)(h)
  {
    var stats := StatsOf(group, h, cut.kind);
    p := Pattern(cut.population, cut.dimension, b, h, stats, Map(group, DecisionId()));
  }

  /** The loop over horizons. */
  method BuildBucket(cut: Cut, group: seq<AuditRow>, b: Bucket, hs: seq<Horizon>) returns (patterns: seq<Pattern>)
    requires group == cut.Group(b)
    ensures patterns == Filter(Map(hs, PatternOf(cut, b)), Visible(cut.dimension))
  {
    patterns := [];
    for n := 0 to |hs|
      invariant patterns == Filter(Map(hs[..n], PatternOf(cut, b)), Visible(cut.dimension))
    {
      FilterMapStep(hs, n, PatternOf(cut, b), Visible(cut.dimension));
      var p := BuildPattern(cut, group, b, hs[n]);
      if Hidden(cut.dimension, p.stats.n) {
        continue;
      }
      patterns := patterns + [p];
    }
    assert hs[..|hs|] == hs;
  }

  /** The loop over the sorted buckets. */
  method BuildBuckets(cut: Cut, groups: map<Bucket, seq<AuditRow>>, names: seq<Bucket>) returns (patterns: seq<Pattern>)
    requires Groups(groups, cut.rows, cut.key)
    ensures patterns == FlatMap(names, BucketPatterns(cut))
  {
    patterns := [];
    for n := 0 to |names|
      invariant patterns == FlatMap(names[..n], BucketPatterns(cut))
    {
      var group := if names[n] in groups then groups[names[n]] else [];
      assert Filter(cut.rows, InBucket(cut.key, names[n])) == group;
      var found := BuildBucket(cut, group, names[n], HORIZONS);
      FlatMapStep(names, n, BucketPatterns(cut));
      patterns := patterns + found;
    }
    assert names[..|names|] == names;
  }

  /** Grouping, sorting, and the loop over the buckets. */
  method BuildDimension(cut: Cut) returns (patterns: seq<Pattern>)
    ensures patterns == FlatMap(cut.Names(), BucketPatterns(cut))
  {
    var groups, order := GroupRows(cut.rows, cut.key);
    patterns := BuildBuckets(cut, groups, SortNames(order));
  }

  /** The loop over dimensions. */
  method BuildPopulation(rows: seq<AuditRow>, c: Context, kind: Benchmark, p: Population)
    returns (patterns: seq<Pattern>)
    ensures patterns == PopulationPatterns(rows, c, kind)(p)
  {
    patterns := [];
    for n := 0 to |DIMENSIONS|
      invariant patterns == FlatMap(DIMENSIONS[..n], DimensionPatterns(rows, c, kind, p))
    {
      var found := BuildDimension(CutOf(rows, c, kind, p, DIMENSIONS[n]));
      FlatMapStep(DIMENSIONS, n, DimensionPatterns(rows, c, kind, p));
      patterns := patterns + found;
    }
    assert DIMENSIONS[..|DIMENSIONS|] == DIMENSIONS;
  }

  /** `build_patterns`. */
  method BuildPatterns(rows: seq<AuditRow>, c: Context, kind: Benchmark) returns (patterns: seq<Pattern>)
    ensures patterns == Patterns(rows, c, kind)
  {
    patterns := [];
    for n := 0 to |POPULATIONS|
      invariant patterns == FlatMap(POPULATIONS[..n], PopulationPatterns(rows, c, kind))
    {
      var found := BuildPopulation(rows, c, kind, POPULATIONS[n]);
      FlatMapStep(POPULATIONS, n, PopulationPatterns(rows, c, kind));
      patterns := patterns + found;
    }
    assert POPULATIONS[..|POPULATIONS|] == POPULATIONS;
  }

  // ------------------------------------------------------- which are shown

  lemma {:induction false} BucketsCover(rows: seq<AuditRow>, key: AuditRow -> Bucket)
    ensures forall i | 0 <= i < |rows| :: key(rows[i]) in Buckets(rows, key)
    ensures forall b | b in Buckets(rows, key) :: Filter(rows, InBucket(key, b)) != []
  {
    if rows != [] {
      BucketsCover(rows[..|rows| - 1], key);
    }
  }

  /** Names are distinct and in order, and there is one exactly for every bucket that holds a row. */
  lemma NamesAre(cut: Cut)
    ensures InOrder(cut.Names()) && Distinct(cut.Names())
    ensures forall b :: b in cut.Names() <==> cut.Group(b) != []
  {
    SortNamesSorts(Buckets(cut.rows, cut.key));
    InOrderIsDistinct(cut.Names());
    BucketsCover(cut.rows, cut.key);
    forall b ensures cut.Group(b) != [] ==> b in Buckets(cut.rows, cut.key) {
      FilterMembers(cut.rows, InBucket(cut.key, b));
      if cut.Group(b) != [] {
        assert cut.Group(b)[0] in cut.Group(b);
      }
    }
  }

  /** The pattern is that of its bucket and horizon, five of the rows scored when it is a symbol or sector. */
  ghost predicate ShowsIn(cut: Cut, p: Pattern)
  {
    && p == PatternOf(cut, p.bucket)(p.horizon)
    && (cut.dimension in {BySymbol, BySector} ==> |Filter(cut.Group(p.bucket), Scored(p.horizon))| >= 5)
  }

  ghost predicate IsShown(cut: Cut, p: Pattern)
  {
    cut.Group(p.bucket) != [] && ShowsIn(cut, p)
  }

  lemma BucketMembers(cut: Cut, b: Bucket, p: Pattern)
    ensures p in BucketPatterns(cut)(b) <==> p.bucket == b && ShowsIn(cut, p)
  {
    FilterMapMembers(HORIZONS, PatternOf(cut, b), Visible(cut.dimension), p);
    EveryHorizon(p.horizon);
    if p == PatternOf(cut, p.bucket)(p.horizon) {
      SizeShown(cut, p);
    }
    if h :| h in HORIZONS && PatternOf(cut, b)(h) == p {
      PatternTags(cut, b, h);
    }
    PatternTags(cut, b, p.horizon);
  }

  lemma PatternTags(cut: Cut, b: Bucket, h: Horizon)
    ensures var p := PatternOf(cut, b)(h);
            && p.population == cut.population && p.dimension == cut.dimension && p.bucket == b && p.horizon == h
            && p.stats.n == |Filter(cut.Group(b), Scored(h))|
  {
  }

  lemma SizeShown(cut: Cut, p: Pattern)
    requires p == PatternOf(cut, p.bucket)(p.horizon)
    ensures Visible(cut.dimension)(p) <==>
            (cut.dimension in {BySymbol, BySector} ==> |Filter(cut.Group(p.bucket), Scored(p.horizon))| >= 5)
  {
    PatternTags(cut, p.bucket, p.horizon);
  }

  lemma EveryHorizon(h: Horizon)
    ensures h in HORIZONS
  {
    assert HORIZONS[0] == OneMonth && HORIZONS[1] == ThreeMonths && HORIZONS[2] == SixMonths
           && HORIZONS[3] == TwelveMonths;
  }

  lemma DimensionMembers(cut: Cut, p: Pattern)
    ensures p in FlatMap(cut.Names(), BucketPatterns(cut)) <==> IsShown(cut, p)
  {
    var shown, names := BucketPatterns(cut), cut.Names();
    FlatMapMembers(names, shown, p);
    NamesAre(cut);
    forall b ensures p in shown(b) <==> p.bucket == b && ShowsIn(cut, p) {
      BucketMembers(cut, b, p);
    }
    if p.bucket in names && ShowsIn(cut, p) {
      assert p in shown(p.bucket);
    }
  }

  lemma PopulationMembers(rows: seq<AuditRow>, c: Context, kind: Benchmark, p: Population, pattern: Pattern)
    ensures pattern in PopulationPatterns(rows, c, kind)(p) <==>
            pattern in DimensionPatterns(rows, c, kind, p)(pattern.dimension)
  {
    FlatMapMembers(DIMENSIONS, DimensionPatterns(rows, c, kind, p), pattern);
    EveryDimension(pattern.dimension);
    forall d | pattern in DimensionPatterns(rows, c, kind, p)(d) ensures d == pattern.dimension {
      DimensionMembers(CutOf(rows, c, kind, p, d), pattern);
    }
  }

  lemma EveryPopulation(p: Population)
    ensures p in POPULATIONS
  {
    assert POPULATIONS[0] == FullHistory && POPULATIONS[1] == Excluding2020;
  }

  lemma EveryDimension(d: Dimension)
    ensures d in DIMENSIONS
  {
    assert DIMENSIONS[0] == Overall && DIMENSIONS[1] == ByAction && DIMENSIONS[2] == ByCalendarYear
           && DIMENSIONS[3] == ByHoldingAge;
    assert DIMENSIONS[4] == ByConcentration && DIMENSIONS[5] == ByMarketRegime && DIMENSIONS[6] == BySymbol
           && DIMENSIONS[7] == BySector;
  }

  /**
   * A pattern is shown exactly when its bucket holds a row of its population, its figures are those of
   * that bucket at its horizon, and, for a symbol or sector, five of the rows are scored.
   */
  lemma ShownIff(rows: seq<AuditRow>, c: Context, kind: Benchmark, pattern: Pattern)
    ensures var cut := CutOf(rows, c, kind, pattern.population, pattern.dimension);
            pattern in Patterns(rows, c, kind) <==> IsShown(cut, pattern)
  {
    FlatMapMembers(POPULATIONS, PopulationPatterns(rows, c, kind), pattern);
    EveryPopulation(pattern.population);
    forall p | p in POPULATIONS
      ensures pattern in PopulationPatterns(rows, c, kind)(p)
              <==> IsShown(CutOf(rows, c, kind, p, pattern.dimension), pattern) {
      PopulationMembers(rows, c, kind, p, pattern);
      DimensionMembers(CutOf(rows, c, kind, p, pattern.dimension), pattern);
    }
  }

  // ------------------------------------------------------------ conservation

  function SizeIn(cut: Cut, p: AuditRow -> bool): Bucket -> real
  {
    (b: Bucket) => |Filter(cut.Group(b), p)| as real
  }

  function Hit(b: Bucket): Bucket -> real { (c: Bucket) => if c == b then 1.0 else 0.0 }

  lemma SizeStep(cut: Cut, row: AuditRow, p: AuditRow -> bool, b: Bucket)
    ensures SizeIn(cut.(rows := cut.rows + [row]), p)(b)
            == SizeIn(cut, p)(b) + (if p(row) then Hit(cut.key(row))(b) else 0.0)
  {
    FilterAppend(cut.rows, row, InBucket(cut.key, b));
    if cut.key(row) == b {
      FilterAppend(cut.Group(b), row, p);
    }
  }

  /** One more row adds one to the total of the bucket sizes when it has the property. */
  lemma SizesGrow(cut: Cut, row: AuditRow, p: AuditRow -> bool, bs: seq<Bucket>)
    requires Distinct(bs) && cut.key(row) in bs
    ensures Sum(bs, SizeIn(cut.(rows := cut.rows + [row]), p))
            == Sum(bs, SizeIn(cut, p)) + (if p(row) then 1.0 else 0.0)
  {
    var before, after, hit := SizeIn(cut, p), SizeIn(cut.(rows := cut.rows + [row]), p), Hit(cut.key(row));
    forall b | b in bs ensures after(b) == if p(row) then Plus(before, hit)(b) else before(b) {
      SizeStep(cut, row, p, b);
    }
    if p(row) {
      SumCongruence(bs, after, Plus(before, hit));
      SumPlus(bs, before, hit);
      SumOfOne(bs, cut.key(row), hit);
    } else {
      SumCongruence(bs, after, before);
    }
  }

  /** Counting bucket by bucket counts every row once. */
  lemma {:induction false} BucketsPartition(cut: Cut, p: AuditRow -> bool, bs: seq<Bucket>)
    requires Distinct(bs) && forall i | 0 <= i < |cut.rows| :: cut.key(cut.rows[i]) in bs
    ensures Sum(bs, SizeIn(cut, p)) == |Filter(cut.rows, p)| as real
    decreases |cut.rows|
  {
    if cut.rows == [] {
      SumOfZeros(bs, SizeIn(cut, p));
    } else {
      var init, last := cut.rows[..|cut.rows| - 1], cut.rows[|cut.rows| - 1];
      BucketsPartition(cut.(rows := init), p, bs);
      assert cut.rows == init + [last];
      SizesGrow(cut.(rows := init), last, p, bs);
    }
  }

  function At(p: Population, d: Dimension, h: Horizon): Pattern -> bool
  {
    (q: Pattern) => q.population == p && q.dimension == d && q.horizon == h
  }

  function ShownN(): Pattern -> real { (p: Pattern) => p.stats.n as real }

  /** The shown sample sizes of one population, dimension and horizon. */
  function Shown(rows: seq<AuditRow>, c: Context, kind: Benchmark, p: Population, d: Dimension, h: Horizon): real
  {
    Sum(Filter(Patterns(rows, c, kind), At(p, d, h)), ShownN())
  }

  /** What a bucket contributes to them, and what it does not. */
  function ShownIn(cut: Cut, h: Horizon): Bucket -> real
  {
    (b: Bucket) => if Hidden(cut.dimension, |Filter(cut.Group(b), Scored(h))|) then 0.0
      else |Filter(cut.Group(b), Scored(h))| as real
  }

  function HiddenIn(cut: Cut, h: Horizon): Bucket -> real
  {
    (b: Bucket) => if Hidden(cut.dimension, |Filter(cut.Group(b), Scored(h))|)
      then |Filter(cut.Group(b), Scored(h))| as real else 0.0
  }

  function Is(h: Horizon): Horizon -> bool { (g: Horizon) => g == h }

  function IsVisible(cut: Cut, b: Bucket, h: Horizon): Horizon -> bool
  {
    (g: Horizon) => g == h && Visible(cut.dimension)(PatternOf(cut, b)(g))
  }

  function VisibleAt(cut: Cut, h: Horizon): Pattern -> bool
  {
    (q: Pattern) => Visible(cut.dimension)(q) && At(cut.population, cut.dimension, h)(q)
  }

  lemma OneHorizon(h: Horizon)
    ensures Filter(HORIZONS, Is(h)) == [h]
  {
    assert HORIZONS == [] + [OneMonth] + [ThreeMonths] + [SixMonths] + [TwelveMonths];
    FilterAppend([], OneMonth, Is(h));
    FilterAppend([] + [OneMonth], ThreeMonths, Is(h));
    FilterAppend([] + [OneMonth] + [ThreeMonths], SixMonths, Is(h));
    FilterAppend([] + [OneMonth] + [ThreeMonths] + [SixMonths], TwelveMonths, Is(h));
  }

  lemma BucketShows(cut: Cut, b: Bucket, h: Horizon)
    ensures PartOf(BucketPatterns(cut), At(cut.population, cut.dimension, h), ShownN())(b) == ShownIn(cut, h)(b)
  {
    var all := Map(HORIZONS, PatternOf(cut, b));
    FilterFilter(all, Visible(cut.dimension), At(cut.population, cut.dimension, h), VisibleAt(cut, h));
    FilterMap(HORIZONS, PatternOf(cut, b), IsVisible(cut, b, h), VisibleAt(cut, h));
    HorizonShows(cut, b, h);
  }

  lemma HorizonShows(cut: Cut, b: Bucket, h: Horizon)
    ensures Sum(Map(Filter(HORIZONS, IsVisible(cut, b, h)), PatternOf(cut, b)), ShownN()) == ShownIn(cut, h)(b)
  {
    if Visible(cut.dimension)(PatternOf(cut, b)(h)) {
      OneHorizon(h);
      FilterCongruence(HORIZONS, IsVisible(cut, b, h), Is(h));
      var one := Map([h], PatternOf(cut, b));
      assert one == [] + [PatternOf(cut, b)(h)];
      SumAppend([], PatternOf(cut, b)(h), ShownN());
    } else {
      FilterNone(HORIZONS, IsVisible(cut, b, h));
    }
  }

  /** Patterns of another dimension or population do not count. */
  lemma OthersAdd(patterns: seq<Pattern>, q: Pattern -> bool)
    requires forall p | p in patterns :: !q(p)
    ensures Sum(Filter(patterns, q), ShownN()) == 0.0
  {
    forall i | 0 <= i < |patterns| ensures !q(patterns[i]) {
      assert patterns[i] in patterns;
    }
    FilterNone(patterns, q);
  }

  lemma OtherDimension(rows: seq<AuditRow>, c: Context, kind: Benchmark, p: Population, d: Dimension, e: Dimension,
                       h: Horizon)
    requires e != d
    ensures PartOf(DimensionPatterns(rows, c, kind, p), At(p, d, h), ShownN())(e) == 0.0
  {
    forall q | q in DimensionPatterns(rows, c, kind, p)(e) ensures q.dimension == e {
      DimensionMembers(CutOf(rows, c, kind, p, e), q);
    }
    OthersAdd(DimensionPatterns(rows, c, kind, p)(e), At(p, d, h));
  }

  lemma OtherPopulation(rows: seq<AuditRow>, c: Context, kind: Benchmark, p: Population, d: Dimension, o: Population,
                        h: Horizon)
    requires o != p
    ensures PartOf(PopulationPatterns(rows, c, kind), At(p, d, h), ShownN())(o) == 0.0
  {
    forall q | q in PopulationPatterns(rows, c, kind)(o) ensures q.population == o {
      PopulationMembers(rows, c, kind, o, q);
      DimensionMembers(CutOf(rows, c, kind, o, q.dimension), q);
    }
    OthersAdd(PopulationPatterns(rows, c, kind)(o), At(p, d, h));
  }

  lemma DimensionsDiffer()
    ensures Distinct(DIMENSIONS) && Distinct(POPULATIONS)
  {
  }

  lemma ShownByBuckets(rows: seq<AuditRow>, c: Context, kind: Benchmark, p: Population, d: Dimension, h: Horizon)
    ensures var cut := CutOf(rows, c, kind, p, d);
            Shown(rows, c, kind, p, d, h) == Sum(cut.Names(), ShownIn(cut, h))
  {
    var cut, q, w := CutOf(rows, c, kind, p, d), At(p, d, h), ShownN();
    DimensionsDiffer();
    EveryPopulation(p);
    EveryDimension(d);
    SumFlatMap(POPULATIONS, PopulationPatterns(rows, c, kind), q, w);
    forall o | o in POPULATIONS && o != p ensures PartOf(PopulationPatterns(rows, c, kind), q, w)(o) == 0.0 {
      OtherPopulation(rows, c, kind, p, d, o, h);
    }
    SumOfOne(POPULATIONS, p, PartOf(PopulationPatterns(rows, c, kind), q, w));
    SumFlatMap(DIMENSIONS, DimensionPatterns(rows, c, kind, p), q, w);
    forall e | e in DIMENSIONS && e != d ensures PartOf(DimensionPatterns(rows, c, kind, p), q, w)(e) == 0.0 {
      OtherDimension(rows, c, kind, p, d, e, h);
    }
    SumOfOne(DIMENSIONS, d, PartOf(DimensionPatterns(rows, c, kind, p), q, w));
    SumFlatMap(cut.Names(), BucketPatterns(cut), q, w);
    forall b | b in cut.Names() ensures PartOf(BucketPatterns(cut), q, w)(b) == ShownIn(cut, h)(b) {
      BucketShows(cut, b, h);
    }
    SumCongruence(cut.Names(), PartOf(BucketPatterns(cut), q, w), ShownIn(cut, h));
  }

  lemma SizesSplit(cut: Cut, bs: seq<Bucket>, h: Horizon)
    ensures Sum(bs, SizeIn(cut, Scored(h))) == Sum(bs, ShownIn(cut, h)) + Sum(bs, HiddenIn(cut, h))
    ensures cut.dimension !in {BySymbol, BySector} ==> Sum(bs, HiddenIn(cut, h)) == 0.0
  {
    SumPlus(bs, ShownIn(cut, h), HiddenIn(cut, h));
    SumCongruence(bs, SizeIn(cut, Scored(h)), Plus(ShownIn(cut, h), HiddenIn(cut, h)));
    if cut.dimension !in {BySymbol, BySector} {
      SumOfZeros(bs, HiddenIn(cut, h));
    }
  }

  /**
   * Conservation: for every population, dimension and horizon the shown sample sizes, together with
   * those of the hidden symbol and sector buckets, add up to the scored rows of the population;
   * elsewhere nothing is hidden.
   */
  lemma PatternsConserveRows(rows: seq<AuditRow>, c: Context, kind: Benchmark, p: Population, d: Dimension, h: Horizon)
    ensures var cut := CutOf(rows, c, kind, p, d);
            var hidden := Sum(cut.Names(), HiddenIn(cut, h));
            && Shown(rows, c, kind, p, d, h) + hidden == |Filter(PopulationRows(rows, p), Scored(h))| as real
            && (d !in {BySymbol, BySector} ==> hidden == 0.0)
  {
    ShownByBuckets(rows, c, kind, p, d, h);
    CutConserves(CutOf(rows, c, kind, p, d), h);
  }

  lemma CutConserves(cut: Cut, h: Horizon)
    ensures Sum(cut.Names(), ShownIn(cut, h)) + Sum(cut.Names(), HiddenIn(cut, h))
            == |Filter(cut.rows, Scored(h))| as real
    ensures cut.dimension !in {BySymbol, BySector} ==> Sum(cut.Names(), HiddenIn(cut, h)) == 0.0
  {
    NamesCover(cut);
    BucketsPartition(cut, Scored(h), cut.Names());
    SizesSplit(cut, cut.Names(), h);
  }

  lemma NamesCover(cut: Cut)
    ensures Distinct(cut.Names()) && forall i | 0 <= i < |cut.rows| :: cut.key(cut.rows[i]) in cut.Names()
  {
    NamesAre(cut);
    BucketsCover(cut.rows, cut.key);
    SortNamesSorts(Buckets(cut.rows, cut.key));
  }

  // ------------------------------------------------------------- populations

  function In2020(): AuditRow -> bool { (r: AuditRow) => r.calendarYear == 2020 }

  /** The two populations differ by exactly the scored rows of 2020. */
  lemma PopulationsDifferBy2020(rows: seq<AuditRow>, h: Horizon, kind: Benchmark)
    ensures StatsOf(rows, h, kind).n
         == StatsOf(PopulationRows(rows, Excluding2020), h, kind).n + StatsOf(Filter(rows, In2020()), h, kind).n
  {
    CountSplits(rows, Scored(h));
  }

  lemma {:induction false} CountSplits(rows: seq<AuditRow>, p: AuditRow -> bool)
    ensures |Filter(rows, p)| == |Filter(Filter(rows, Not2020()), p)| + |Filter(Filter(rows, In2020()), p)|
  {
    if rows != [] {
      var init, last := rows[..|rows| - 1], rows[|rows| - 1];
      CountSplits(init, p);
      FilterAppend(Filter(init, Not2020()), last, p);
      FilterAppend(Filter(init, In2020()), last, p);
    }
  }

  // -------------------------------------------------- what the figures mean

  /** Each dimension's bucket of a row. */
  lemma KeysAre(c: Context, r: AuditRow)
    ensures KeyOf(Overall, c)(r) == "ALL"
    ensures KeyOf(ByAction, c)(r) == r.action
    ensures KeyOf(ByHoldingAge, c)(r) == r.ageBucket && KeyOf(ByConcentration, c)(r) == r.concentrationBucket
    ensures KeyOf(BySymbol, c)(r) == r.symbol
    ensures KeyOf(ByMarketRegime, c)(r) == (if r.decisionId in c.regimes then c.regimes[r.decisionId] else "UNKNOWN")
    ensures r.symbol !in c.sectors || c.sectors[r.symbol] == None || c.sectors[r.symbol] == Some("") ==>
              KeyOf(BySector, c)(r) == "UNKNOWN"
    ensures r.symbol in c.sectors && c.sectors[r.symbol].Some? && c.sectors[r.symbol] != Some("") ==>
              Some(KeyOf(BySector, c)(r)) == c.sectors[r.symbol]
  {
  }

  /** Two rows share a calendar bucket exactly when they are of the same year. */
  lemma YearBucketIff(c: Context, r: AuditRow, q: AuditRow)
    ensures KeyOf(ByCalendarYear, c)(r) == KeyOf(ByCalendarYear, c)(q) <==> r.calendarYear == q.calendarYear
  {
    if Decimal(r.calendarYear) == Decimal(q.calendarYear) {
      DecimalInjective(r.calendarYear, q.calendarYear);
    }
  }

  /** The figure of a horizon. */
  lemma HorizonsAre(p: PerHorizon)
    ensures p.At(OneMonth) == p.m1 && p.At(ThreeMonths) == p.m3 && p.At(SixMonths) == p.m6
            && p.At(TwelveMonths) == p.m12
  {
  }

  /** Included rows with a return at the horizon. */
  ghost predicate IsScored(rows: seq<AuditRow>, h: Horizon, scored: seq<AuditRow>)
  {
    scored == Filter(rows, (r: AuditRow) => r.included && r.stockReturn.At(h).Some?)
  }

  /** `figure` is the smallest value of `f`, in percent. */
  ghost predicate IsLeastPercent(rows: seq<AuditRow>, f: AuditRow -> Option<real>, figure: Option<real>)
  {
    && (figure.None? <==> forall r | r in rows :: f(r).None?)
    && (figure.Some? ==>
          && (exists r | r in rows :: f(r).Some? && figure.value == f(r).value * 100.0)
          && forall r | r in rows && f(r).Some? :: figure.value <= f(r).value * 100.0)
  }

  /** The medians of a bucket, each from its own column of the scored rows. */
  lemma StatsMedians(rows: seq<AuditRow>, h: Horizon, kind: Benchmark, scored: seq<AuditRow>)
    requires IsScored(rows, h, scored)
    ensures var s := StatsOf(rows, h, kind);
            && IsMedian(scored, (r: AuditRow) => r.stockReturn.At(h), 100.0, s.medianAbsoluteReturnPct)
            && IsMedian(scored, (r: AuditRow) => if kind == Tri then r.excessReturnTri.At(h) else r.excessReturn.At(h),
                        100.0, s.medianExcessReturnPct)
            && IsMedian(scored, (r: AuditRow) => r.maxDrawdownPct, 100.0, s.medianDrawdownPct)
            && IsMedian(scored, (r: AuditRow) => r.impact.At(h), 1.0, s.medianDecisionDollarImpact)
  {
    ScoredAre(rows, h, scored);
    MedianPercentMeans(scored, ReturnAt(h), (r: AuditRow) => r.stockReturn.At(h), Median(Present(scored, ReturnAt(h))));
    MedianPercentMeans(scored, ExcessAt(h, kind),
                       (r: AuditRow) => if kind == Tri then r.excessReturnTri.At(h) else r.excessReturn.At(h),
                       Median(Present(scored, ExcessAt(h, kind))));
    MedianPercentMeans(scored, Drawdown(), (r: AuditRow) => r.maxDrawdownPct, Median(Present(scored, Drawdown())));
    MedianMeans(scored, ImpactAt(h), (r: AuditRow) => r.impact.At(h), Median(Present(scored, ImpactAt(h))));
  }

  lemma ScoredAre(rows: seq<AuditRow>, h: Horizon, scored: seq<AuditRow>)
    requires IsScored(rows, h, scored)
    ensures scored == Filter(rows, Scored(h))
  {
    FilterCongruence(rows, Scored(h), (r: AuditRow) => r.included && r.stockReturn.At(h).Some?);
  }

  /** Its size with the label that goes with it, its shares, and its deepest drawdown. */
  lemma StatsCounts(rows: seq<AuditRow>, h: Horizon, kind: Benchmark, scored: seq<AuditRow>)
    requires IsScored(rows, h, scored)
    ensures var s := StatsOf(rows, h, kind);
            && s.n == |scored|
            && (s.sample == InsufficientEvidence <==> s.n < 5)
            && (s.sample == LowSample <==> 5 <= s.n < 10)
            && (s.sample == ModerateSample <==> 10 <= s.n < 30)
            && (s.sample == StrongerSample <==> 30 <= s.n)
            && IsPositiveShare(scored, (r: AuditRow) => r.stockReturn.At(h), s.positiveReturnRatePct)
            && IsPositiveShare(scored,
                               (r: AuditRow) => if kind == Tri then r.excessReturnTri.At(h) else r.excessReturn.At(h),
                               s.benchmarkOutperformanceRatePct)
            && IsPositiveShare(scored, (r: AuditRow) => r.impact.At(h), s.positiveDollarImpactRatePct)
            && s.nDecisionDollarImpact == |Filter(scored, HasFigure((r: AuditRow) => r.impact.At(h)))|
            && IsLeastPercent(scored, (r: AuditRow) => r.maxDrawdownPct, s.maxDrawdownPct)
  {
    var s := StatsOf(rows, h, kind);
    ScoredAre(rows, h, scored);
    ShareMeans(scored, ReturnAt(h), (r: AuditRow) => r.stockReturn.At(h), s.positiveReturnRatePct);
    ShareMeans(scored, ExcessAt(h, kind),
               (r: AuditRow) => if kind == Tri then r.excessReturnTri.At(h) else r.excessReturn.At(h),
               s.benchmarkOutperformanceRatePct);
    ShareMeans(scored, ImpactAt(h), (r: AuditRow) => r.impact.At(h), s.positiveDollarImpactRatePct);
    PassCounts(scored, ImpactAt(h), (r: AuditRow) => r.impact.At(h), Positive(), Positive());
    LeastMeans(scored, Drawdown(), (r: AuditRow) => r.maxDrawdownPct);
  }

  lemma {:induction false} PresentMembers(rows: seq<AuditRow>, f: AuditRow -> Option<real>, x: real)
    ensures x in Present(rows, f) <==> exists r | r in rows :: f(r) == Some(x)
  {
    if rows != [] {
      var init, last := rows[..|rows| - 1], rows[|rows| - 1];
      PresentMembers(init, f, x);
      assert rows == init + [last];
    }
  }

  lemma LeastMeans(rows: seq<AuditRow>, f: AuditRow -> Option<real>, g: AuditRow -> Option<real>)
    requires forall r :: f(r) == g(r)
    ensures IsLeastPercent(rows, g, Percent(Least(Present(rows, f))))
  {
    var values := Present(rows, f);
    var least := Least(values);
    forall r | r in rows && g(r).Some? ensures g(r).value in values {
      PresentMembers(rows, f, g(r).value);
    }
    if least.Some? {
      PresentMembers(rows, f, least.value);
    }
  }

  /** A pattern is of its own population, dimension, bucket and horizon, with its rows' decisions in order. */
  lemma PatternMeans(rows: seq<AuditRow>, c: Context, kind: Benchmark, p: Population, d: Dimension, b: Bucket,
                     h: Horizon, group: seq<AuditRow>)
    requires group == Filter(rows,
                             (r: AuditRow) => (p == Excluding2020 ==> r.calendarYear != 2020) && KeyOf(d, c)(r) == b)
    ensures var pattern := PatternOf(CutOf(rows, c, kind, p, d), b)(h);
            && pattern.population == p && pattern.dimension == d && pattern.bucket == b && pattern.horizon == h
            && pattern.stats == StatsOf(group, h, kind)
            && |pattern.decisionIds| == |group|
            && forall i | 0 <= i < |group| :: pattern.decisionIds[i] == group[i].decisionId
  {
    GroupIs(rows, c, kind, p, d, b, group);
  }

  lemma GroupIs(rows: seq<AuditRow>, c: Context, kind: Benchmark, p: Population, d: Dimension, b: Bucket,
                group: seq<AuditRow>)
    requires group == Filter(rows,
                             (r: AuditRow) => (p == Excluding2020 ==> r.calendarYear != 2020) && KeyOf(d, c)(r) == b)
    ensures CutOf(rows, c, kind, p, d).Group(b) == group
  {
    var all := (r: AuditRow) => (p == Excluding2020 ==> r.calendarYear != 2020) && KeyOf(d, c)(r) == b;
    if p == FullHistory {
      FilterCongruence(rows, InBucket(KeyOf(d, c), b), all);
    } else {
      FilterFilter(rows, Not2020(), InBucket(KeyOf(d, c), b), all);
    }
  }
}
