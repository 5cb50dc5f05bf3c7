/** What the expanding folds conserve, and how much evidence a BACKTESTED verdict forces. */
module PolicyEvidence {
  import opened Basics
  import opened AuditRows
  import opened GovernedPolicy

  // ------------------------------------------------------------------- years

  lemma {:induction false} AddYearKeepsOrder(ys: seq<int>, y: int)
    requires Ascending(ys)
    ensures Ascending(AddYear(ys, y))
    ensures forall z :: z in AddYear(ys, y) <==> z in ys || z == y
  {
    if ys != [] && y > ys[0] {
      AddYearKeepsOrder(ys[1..], y);
      var rest := AddYear(ys[1..], y);
      assert ys == [ys[0]] + ys[1..];
      forall i | 0 <= i < |rest| ensures ys[0] < rest[i] {
        assert rest[i] in rest;
      }
    }
  }

  lemma {:induction false} YearsSpec(rows: seq<AuditRow>)
    ensures Ascending(Years(rows))
    ensures forall i | 0 <= i < |rows| :: rows[i].calendarYear in Years(rows)
    ensures forall y | y in Years(rows) :: exists i | 0 <= i < |rows| :: rows[i].calendarYear == y
  {
    if rows != [] {
      var init := rows[..|rows| - 1];
      YearsSpec(init);
      AddYearKeepsOrder(Years(init), rows[|rows| - 1].calendarYear);
      forall y | y in Years(rows) ensures exists i | 0 <= i < |rows| :: rows[i].calendarYear == y {
        if y in Years(init) {
          var i :| 0 <= i < |init| && init[i].calendarYear == y;
          assert rows[i].calendarYear == y;
        } else {
          assert rows[|rows| - 1].calendarYear == y;
        }
      }
    }
  }

  lemma {:induction false} AscendingUnique(a: seq<int>, b: seq<int>)
    requires Ascending(a) && Ascending(b)
    requires forall y :: y in a <==> y in b
    ensures a == b
  {
    assert b != [] ==> b[0] in b && b[0] in a;
    assert a != [] ==> a[0] in a && a[0] in b;
    if a != [] {
      assert a[0] == b[0];
      forall y ensures y in a[1..] <==> y in b[1..] {
        TailMembers(a, y);
        TailMembers(b, y);
      }
      AscendingUnique(a[1..], b[1..]);
      assert a == [a[0]] + a[1..] && b == [b[0]] + b[1..];
    }
  }

  lemma TailMembers(a: seq<int>, y: int)
    requires Ascending(a) && a != []
    ensures y in a[1..] <==> y in a && y != a[0]
  {
    assert a == [a[0]] + a[1..];
  }

  // -------------------------------------------------------- shape of the folds

  /** Every year has rows to validate on, and every year but the first has rows to train on. */
  lemma SidesOfYear(rows: seq<AuditRow>, n: nat)
    requires n < |Years(rows)|
    ensures Filter(rows, InYear(Years(rows)[n])) != []
    ensures Filter(rows, BeforeYear(Years(rows)[n])) == [] <==> n == 0
  {
    var ys := Years(rows);
    var y := ys[n];
    YearsSpec(rows);
    FilterMembers(rows, InYear(y));
    FilterMembers(rows, BeforeYear(y));
    assert y in ys && ys[0] in ys;
    var i :| 0 <= i < |rows| && rows[i].calendarYear == y;
    assert rows[i] in rows;
    if n == 0 {
      forall m | 0 <= m < |rows| ensures !BeforeYear(y)(rows[m]) {
        assert rows[m].calendarYear in ys;
      }
      FilterNone(rows, BeforeYear(y));
    } else {
      var m :| 0 <= m < |rows| && rows[m].calendarYear == ys[0];
      assert rows[m] in rows;
    }
  }

  lemma OpenYears(rows: seq<AuditRow>)
    ensures var ys := Years(rows);
            Filter(ys, Opens(rows)) == if ys == [] then [] else ys[1..]
  {
    var ys := Years(rows);
    if ys != [] {
      SidesOfYear(rows, 0);
      assert ys == [ys[0]] + ys[1..];
      FilterCons(ys[0], ys[1..], Opens(rows));
      forall j | 0 <= j < |ys[1..]| ensures Opens(rows)(ys[1..][j]) {
        SidesOfYear(rows, j + 1);
      }
      FilterAll(ys[1..], Opens(rows));
    }
  }

  /** One fold per distinct year but the first, in order. */
  lemma FoldPerLaterYear(rows: seq<AuditRow>, spec: CandidateSpec, kind: Benchmark)
    ensures var ys := Years(rows);
            var folds := Folds(rows, spec, kind, ys);
            && |folds| == (if ys == [] then 0 else |ys| - 1)
            && (forall j | 0 <= j < |folds| :: folds[j] == FoldAt(rows, spec, kind, ys[j + 1]))
            && (forall i, j | 0 <= i < j < |folds| :: folds[i].validationYear < folds[j].validationYear)
  {
    OpenYears(rows);
    YearsSpec(rows);
  }

  /** Each fold trains on the previous fold's training and validation rows together. */
  lemma {:induction false} TrainGrows(rows: seq<AuditRow>, y: int, next: int)
    requires y < next && forall i | 0 <= i < |rows| :: rows[i].calendarYear <= y || rows[i].calendarYear >= next
    ensures multiset(Filter(rows, BeforeYear(next)))
         == multiset(Filter(rows, BeforeYear(y))) + multiset(Filter(rows, InYear(y)))
  {
    if rows != [] {
      TrainGrows(rows[..|rows| - 1], y, next);
    }
  }

  /** Successive years of the data leave no year between them. */
  lemma TrainIsPastTrainAndValidation(rows: seq<AuditRow>, j: nat)
    requires j + 1 < |Years(rows)|
    ensures var y, next := Years(rows)[j], Years(rows)[j + 1];
            && multiset(Filter(rows, BeforeYear(next)))
               == multiset(Filter(rows, BeforeYear(y))) + multiset(Filter(rows, InYear(y)))
            && (forall r | r in Filter(rows, BeforeYear(next)) :: r.calendarYear < next)
            && (forall r | r in Filter(rows, InYear(next)) :: r.calendarYear == next)
  {
    var ys := Years(rows);
    YearsSpec(rows);
    forall i | 0 <= i < |rows| ensures rows[i].calendarYear <= ys[j] || rows[i].calendarYear >= ys[j + 1] {
      var m :| 0 <= m < |ys| && ys[m] == rows[i].calendarYear;
    }
    TrainGrows(rows, ys[j], ys[j + 1]);
    FilterMembers(rows, BeforeYear(ys[j + 1]));
    FilterMembers(rows, InYear(ys[j + 1]));
  }

  // ---------------------------------------------------------------- no leakage

  function UpToYear(y: int): AuditRow -> bool { (r: AuditRow) => r.calendarYear <= y }

  function NotAfter(y: int): int -> bool { (z: int) => z <= y }

  function ValidatedBy(y: int): Fold -> bool { (f: Fold) => f.validationYear <= y }

  lemma YearsOfPrefix(rows: seq<AuditRow>, y: int)
    ensures Years(Filter(rows, UpToYear(y))) == Filter(Years(rows), NotAfter(y))
  {
    var early := Filter(rows, UpToYear(y));
    var ys, kept := Years(rows), Filter(Years(rows), NotAfter(y));
    YearsSpec(rows);
    YearsSpec(early);
    FilterMembers(rows, UpToYear(y));
    FilterMembers(ys, NotAfter(y));
    FilterAscending(ys, NotAfter(y));
    forall z ensures z in Years(early) <==> z in kept {
      if z in Years(early) {
        var i :| 0 <= i < |early| && early[i].calendarYear == z;
        assert early[i] in early && early[i] in rows;
      }
      if z in kept {
        var i :| 0 <= i < |rows| && rows[i].calendarYear == z;
        assert rows[i] in early;
        var m :| 0 <= m < |early| && early[m] == rows[i];
        assert early[m].calendarYear in Years(early);
      }
    }
    AscendingUnique(Years(early), kept);
  }

  lemma {:induction false} FilterAscending(ys: seq<int>, p: int -> bool)
    requires Ascending(ys)
    ensures Ascending(Filter(ys, p))
  {
    if ys != [] {
      var init, last := ys[..|ys| - 1], ys[|ys| - 1];
      FilterAscending(init, p);
      FilterMembers(init, p);
      var kept := Filter(init, p);
      forall i | 0 <= i < |kept| ensures kept[i] < last {
        assert kept[i] in init;
      }
    }
  }

  /** A fold of a year up to `y` uses no row after `y`. */
  lemma FoldOfEarlyRows(rows: seq<AuditRow>, spec: CandidateSpec, kind: Benchmark, z: int, y: int)
    requires z <= y
    ensures var early := Filter(rows, UpToYear(y));
            && Filter(early, BeforeYear(z)) == Filter(rows, BeforeYear(z))
            && Filter(early, InYear(z)) == Filter(rows, InYear(z))
            && FoldAt(early, spec, kind, z) == FoldAt(rows, spec, kind, z)
  {
    FilterFilter(rows, UpToYear(y), BeforeYear(z), BeforeYear(z));
    FilterFilter(rows, UpToYear(y), InYear(z), InYear(z));
  }

  function OpensBy(rows: seq<AuditRow>, y: int): int -> bool { (z: int) => z <= y && Opens(rows)(z) }

  lemma FoldsOfYears(rows: seq<AuditRow>, spec: CandidateSpec, kind: Benchmark, ys: seq<int>, y: int)
    ensures Filter(Folds(rows, spec, kind, ys), ValidatedBy(y))
         == Folds(Filter(rows, UpToYear(y)), spec, kind, Filter(ys, NotAfter(y)))
  {
    var early := Filter(rows, UpToYear(y));
    var kept := Filter(ys, OpensBy(rows, y));
    FilterMap(Filter(ys, Opens(rows)), FoldOf(rows, spec, kind), NotAfter(y), ValidatedBy(y));
    FilterFilter(ys, Opens(rows), NotAfter(y), OpensBy(rows, y));
    forall z | z <= y ensures Opens(early)(z) == Opens(rows)(z)
                      ensures FoldOf(early, spec, kind)(z) == FoldOf(rows, spec, kind)(z) {
      FoldOfEarlyRows(rows, spec, kind, z, y);
    }
    FilterFilter(ys, NotAfter(y), Opens(early), OpensBy(rows, y));
    FilterMembers(ys, OpensBy(rows, y));
    forall i | 0 <= i < |kept| ensures kept[i] <= y {
      assert kept[i] in kept;
    }
    assert Map(kept, FoldOf(rows, spec, kind)) == Map(kept, FoldOf(early, spec, kind));
  }

  /** Rows of later years cannot reach back: the folds validated by year `y` depend only on rows up to `y`. */
  lemma FoldsIgnoreLaterYears(rows: seq<AuditRow>, other: seq<AuditRow>, spec: CandidateSpec, kind: Benchmark, y: int)
    requires Filter(rows, UpToYear(y)) == Filter(other, UpToYear(y))
    ensures Filter(Folds(rows, spec, kind, Years(rows)), ValidatedBy(y))
         == Filter(Folds(other, spec, kind, Years(other)), ValidatedBy(y))
  {
    FoldsOfYears(rows, spec, kind, Years(rows), y);
    FoldsOfYears(other, spec, kind, Years(other), y);
    YearsOfPrefix(rows, y);
    YearsOfPrefix(other, y);
  }

  // -------------------------------------------------------------- conservation

  function Masked(p: AuditRow -> bool, f: AuditRow -> real): AuditRow -> real
  {
    (r: AuditRow) => if p(r) then f(r) else 0.0
  }

  function One(): AuditRow -> real { (r: AuditRow) => 1.0 }

  lemma {:induction false} SumOfFilter(rows: seq<AuditRow>, p: AuditRow -> bool, f: AuditRow -> real)
    ensures Sum(Filter(rows, p), f) == Sum(rows, Masked(p, f))
  {
    if rows != [] {
      var init, last := rows[..|rows| - 1], rows[|rows| - 1];
      SumOfFilter(init, p, f);
      if p(last) {
        SumAppend(Filter(init, p), last, f);
      }
    }
  }

  lemma {:induction false} CountIsSum(rows: seq<AuditRow>)
    ensures Sum(rows, One()) == |rows| as real
  {
    if rows != [] {
      CountIsSum(rows[..|rows| - 1]);
    }
  }

  function YearTotal(rows: seq<AuditRow>, w: AuditRow -> real): int -> real
  {
    (y: int) => Sum(Filter(rows, InYear(y)), w)
  }

  lemma {:induction false} SumSplits(rows: seq<AuditRow>, y: int, w: AuditRow -> real)
    requires forall i | 0 <= i < |rows| :: rows[i].calendarYear <= y
    ensures Sum(rows, w) == Sum(Filter(rows, BeforeYear(y)), w) + Sum(Filter(rows, InYear(y)), w)
  {
    if rows != [] {
      var init, last := rows[..|rows| - 1], rows[|rows| - 1];
      SumSplits(init, y, w);
      SumAppend(Filter(init, BeforeYear(y)), last, w);
      SumAppend(Filter(init, InYear(y)), last, w);
    }
  }

  lemma {:induction false} SumPointwise<T, U>(a: seq<T>, f: T -> real, b: seq<U>, g: U -> real)
    requires |a| == |b| && forall i | 0 <= i < |a| :: f(a[i]) == g(b[i])
    ensures Sum(a, f) == Sum(b, g)
  {
    if a != [] {
      SumPointwise(a[..|a| - 1], f, b[..|b| - 1], g);
    }
  }

  lemma RowsHaveYears(rows: seq<AuditRow>, ys: seq<int>)
    requires forall i | 0 <= i < |rows| :: rows[i].calendarYear in ys
    ensures rows != [] ==> ys != []
  {
    if rows != [] {
      assert rows[0].calendarYear in ys;
    }
  }

  lemma EarlyYears(rows: seq<AuditRow>, ys: seq<int>)
    requires Ascending(ys) && ys != [] && forall i | 0 <= i < |rows| :: rows[i].calendarYear in ys
    ensures var early := Filter(rows, BeforeYear(ys[|ys| - 1]));
            forall i | 0 <= i < |early| :: early[i].calendarYear in ys[..|ys| - 1]
    ensures forall i | 0 <= i < |rows| :: rows[i].calendarYear <= ys[|ys| - 1]
  {
    var y := ys[|ys| - 1];
    var early := Filter(rows, BeforeYear(y));
    FilterMembers(rows, BeforeYear(y));
    assert ys == ys[..|ys| - 1] + [y];
    forall i | 0 <= i < |early| ensures early[i].calendarYear in ys[..|ys| - 1] {
      assert early[i] in early && early[i] in rows;
      assert early[i].calendarYear in ys;
    }
    forall i | 0 <= i < |rows| ensures rows[i].calendarYear <= y {
      var m :| 0 <= m < |ys| && ys[m] == rows[i].calendarYear;
    }
  }

  lemma {:induction false} SumByYears(rows: seq<AuditRow>, ys: seq<int>, w: AuditRow -> real)
    requires Ascending(ys) && forall i | 0 <= i < |rows| :: rows[i].calendarYear in ys
    ensures Sum(rows, w) == Sum(ys, YearTotal(rows, w))
    decreases |ys|
  {
    if ys == [] {
      RowsHaveYears(rows, ys);
    } else {
      var init, y := ys[..|ys| - 1], ys[|ys| - 1];
      var early := Filter(rows, BeforeYear(y));
      SumSplits(rows, y, w);
      EarlyYears(rows, ys);
      SumByYears(early, init, w);
      forall i | 0 <= i < |init| ensures YearTotal(early, w)(init[i]) == YearTotal(rows, w)(init[i]) {
        FilterFilter(rows, BeforeYear(y), InYear(init[i]), InYear(init[i]));
      }
      SumPointwise(init, YearTotal(early, w), init, YearTotal(rows, w));
    }
  }

  function ValidationN(): Fold -> real { (f: Fold) => f.validation.n as real }

  function ValidationTurnover(): Fold -> real { (f: Fold) => f.validation.turnoverInr }

  /** A summary's size and turnover are sums over all rows of what each cohort row contributes. */
  lemma SummaryIsSum(rows: seq<AuditRow>, spec: CandidateSpec, kind: Benchmark)
    ensures var m := Summarize(rows, spec, kind);
            && m.n as real == Sum(rows, Masked(InCohort(spec), One()))
            && m.turnoverInr == Sum(rows, Masked(InCohort(spec), Turnover()))
  {
    var cohort := Filter(rows, InCohort(spec));
    SumOfFilter(rows, InCohort(spec), One());
    SumOfFilter(rows, InCohort(spec), Turnover());
    CountIsSum(cohort);
  }

  lemma HeadAndRest(ys: seq<int>, f: int -> real)
    requires ys != []
    ensures Sum(ys, f) == f(ys[0]) + Sum(ys[1..], f)
  {
    assert ys == [ys[0]] + ys[1..];
    SumConcat([ys[0]], ys[1..], f);
    assert [ys[0]][..0] == [];
  }

  /** Nothing is lost or counted twice: the whole history is the first year plus every fold's validation. */
  lemma FoldsConserveEvidence(rows: seq<AuditRow>, spec: CandidateSpec, kind: Benchmark)
    requires rows != []
    ensures Years(rows) != []
    ensures var full, first := Summarize(rows, spec, kind), Summarize(Filter(rows, InYear(Years(rows)[0])), spec, kind);
            var folds := Folds(rows, spec, kind, Years(rows));
            && full.n as real == first.n as real + Sum(folds, ValidationN())
            && full.turnoverInr == first.turnoverInr + Sum(folds, ValidationTurnover())
  {
    YearsSpec(rows);
    assert rows[0].calendarYear in Years(rows);
    var count, traded := Masked(InCohort(spec), One()), Masked(InCohort(spec), Turnover());
    SummaryIsSum(rows, spec, kind);
    YearSummary(rows, spec, kind, Years(rows)[0]);
    forall y ensures YearTotal(rows, count)(y) == ValidationN()(FoldAt(rows, spec, kind, y))
             ensures YearTotal(rows, traded)(y) == ValidationTurnover()(FoldAt(rows, spec, kind, y)) {
      YearSummary(rows, spec, kind, y);
    }
    FoldsAddUp(rows, spec, kind, count, ValidationN());
    FoldsAddUp(rows, spec, kind, traded, ValidationTurnover());
  }

  lemma YearSummary(rows: seq<AuditRow>, spec: CandidateSpec, kind: Benchmark, y: int)
    ensures var f := FoldAt(rows, spec, kind, y);
            && f.validation == Summarize(Filter(rows, InYear(y)), spec, kind)
            && YearTotal(rows, Masked(InCohort(spec), One()))(y) == ValidationN()(f)
            && YearTotal(rows, Masked(InCohort(spec), Turnover()))(y) == ValidationTurnover()(f)
  {
    SummaryIsSum(Filter(rows, InYear(y)), spec, kind);
  }

  /** A total over all rows is the first year's plus what the folds' validations report. */
  lemma FoldsAddUp(rows: seq<AuditRow>, spec: CandidateSpec, kind: Benchmark, w: AuditRow -> real,
                   reported: Fold -> real)
    requires Years(rows) != []
    requires forall y :: YearTotal(rows, w)(y) == reported(FoldAt(rows, spec, kind, y))
    ensures Sum(rows, w) == YearTotal(rows, w)(Years(rows)[0]) + Sum(Folds(rows, spec, kind, Years(rows)), reported)
  {
    var ys, total := Years(rows), YearTotal(rows, w);
    YearsSpec(rows);
    SumByYears(rows, ys, w);
    HeadAndRest(ys, total);
    LaterYearsAddUp(rows, spec, kind, w, reported);
  }

  lemma LaterYearsAddUp(rows: seq<AuditRow>, spec: CandidateSpec, kind: Benchmark, w: AuditRow -> real,
                        reported: Fold -> real)
    requires Years(rows) != []
    requires forall y :: YearTotal(rows, w)(y) == reported(FoldAt(rows, spec, kind, y))
    ensures Sum(Years(rows)[1..], YearTotal(rows, w)) == Sum(Folds(rows, spec, kind, Years(rows)), reported)
  {
    var ys, total, folds := Years(rows), YearTotal(rows, w), Folds(rows, spec, kind, Years(rows));
    FoldPerLaterYear(rows, spec, kind);
    forall i | 0 <= i < |folds| ensures total(ys[1..][i]) == reported(folds[i]) {
      assert folds[i] == FoldAt(rows, spec, kind, ys[i + 1]);
    }
    SumPointwise(ys[1..], total, folds, reported);
  }

  // ------------------------------------------------ what a verdict implies

  lemma {:induction false} TwoHits(folds: seq<Fold>, p: Fold -> bool) returns (i: nat, j: nat)
    requires |Filter(folds, p)| >= 2
    ensures i < j < |folds| && p(folds[i]) && p(folds[j])
  {
    var init, last := folds[..|folds| - 1], folds[|folds| - 1];
    if p(last) {
      j := |init|;
      i := OneHit(init, p);
    } else {
      i, j := TwoHits(init, p);
    }
  }

  lemma {:induction false} OneHit(folds: seq<Fold>, p: Fold -> bool) returns (i: nat)
    requires |Filter(folds, p)| >= 1
    ensures i < |folds| && p(folds[i])
  {
    if p(folds[|folds| - 1]) {
      i := |folds| - 1;
    } else {
      i := OneHit(folds[..|folds| - 1], p);
    }
  }

  function Both(p: AuditRow -> bool, q: AuditRow -> bool): AuditRow -> bool
  {
    (r: AuditRow) => p(r) && q(r)
  }

  lemma SizeWithin(rows: seq<AuditRow>, p: AuditRow -> bool, spec: CandidateSpec, kind: Benchmark)
    ensures Summarize(Filter(rows, p), spec, kind).n == |Filter(rows, Both(p, InCohort(spec)))|
  {
    FilterFilter(rows, p, InCohort(spec), Both(p, InCohort(spec)));
  }

  lemma {:induction false} DisjointWithin(rows: seq<AuditRow>, p: AuditRow -> bool, q: AuditRow -> bool,
                                          whole: AuditRow -> bool)
    requires forall r :: !(p(r) && q(r)) && (p(r) || q(r) ==> whole(r))
    ensures |Filter(rows, p)| + |Filter(rows, q)| <= |Filter(rows, whole)|
  {
    if rows != [] {
      DisjointWithin(rows[..|rows| - 1], p, q, whole);
    }
  }

  /**
   * Two valid folds already force fifteen cohort rows in the whole history and ten outside 2020, so
   * the two explicit sample gates can never be what rejects a candidate with two valid folds.
   */
  lemma TwoValidFoldsForceEvidence(rows: seq<AuditRow>, spec: CandidateSpec, kind: Benchmark)
    ensures |Filter(Folds(rows, spec, kind, Years(rows)), MeetsMinimum())| >= 2 ==>
              && Summarize(rows, spec, kind).n >= 15
              && Summarize(Filter(rows, Not2020()), spec, kind).n >= 10
  {
    if |Filter(Folds(rows, spec, kind, Years(rows)), MeetsMinimum())| >= 2 {
      var folds := Folds(rows, spec, kind, Years(rows));
      var i, j := TwoHits(folds, MeetsMinimum());
      FoldPerLaterYear(rows, spec, kind);
      var y, z := folds[i].validationYear, folds[j].validationYear;
      assert folds[i] == FoldAt(rows, spec, kind, y) && folds[j] == FoldAt(rows, spec, kind, z);
      var c := InCohort(spec);
      var before, inY, inZ := Both(BeforeYear(y), c), Both(InYear(y), c), Both(InYear(z), c);
      SizeWithin(rows, BeforeYear(y), spec, kind);
      SizeWithin(rows, InYear(y), spec, kind);
      SizeWithin(rows, InYear(z), spec, kind);
      SizeWithin(rows, Not2020(), spec, kind);
      DisjointWithin(rows, before, inY, Both(UpToYear(y), c));
      DisjointWithin(rows, Both(UpToYear(y), c), inZ, c);
      if y == 2020 {
        DisjointWithin(rows, before, inZ, Both(Not2020(), c));
      } else if z == 2020 {
        DisjointWithin(rows, before, inY, Both(Not2020(), c));
      } else {
        DisjointWithin(rows, inY, inZ, Both(Not2020(), c));
      }
    }
  }

  /** The facts a BACKTESTED evaluation is bound to satisfy. */
  ghost predicate Convincing(rows: seq<AuditRow>, spec: CandidateSpec, e: Evaluation)
  {
    && e.fullHistory.n >= 15
    && e.excluding2020.n >= 10
    && |Filter(e.folds, MeetsMinimum())| >= 2
    && e.excluding2020.medianExcessReturnPct.Some?
    && e.excluding2020.medianExcessReturnPct.value > spec.complexity as real
    && e.excluding2020.medianExcessReturnPct.value > 0.0
    && e.confidence.Some? && 0.15 <= e.confidence.value <= 0.90
    && (forall s: string :: 2 * |Filter(Filter(rows, Selected(spec)), OfSymbol(s))| <= |Filter(rows, Selected(spec))|)
    && (exists r, q | r in Filter(rows, Selected(spec)) && q in Filter(rows, Selected(spec)) :: r.symbol != q.symbol)
  }

  lemma NoDominantSymbol(matched: seq<AuditRow>, s: string)
    requires !Dominated(matched)
    ensures 2 * |Filter(matched, OfSymbol(s))| <= |matched|
  {
    FilterMembers(matched, OfSymbol(s));
    if Filter(matched, OfSymbol(s)) != [] {
      var r := Filter(matched, OfSymbol(s))[0];
      assert r in matched;
      var i :| 0 <= i < |matched| && matched[i] == r;
    }
  }

  lemma TwoSymbols(matched: seq<AuditRow>)
    requires matched != [] && !Dominated(matched)
    ensures exists r, q | r in matched && q in matched :: r.symbol != q.symbol
  {
    var s := matched[0].symbol;
    NoDominantSymbol(matched, s);
    if forall i | 0 <= i < |matched| :: OfSymbol(s)(matched[i]) {
      FilterAll(matched, OfSymbol(s));
      assert false;
    }
    var i :| 0 <= i < |matched| && !OfSymbol(s)(matched[i]);
    assert matched[0] in matched && matched[i] in matched;
  }

  lemma NoReason(rows: seq<AuditRow>, spec: CandidateSpec, full: Metrics, excluding: Metrics, folds: seq<Fold>)
    requires Reasons(rows, spec, full, excluding, folds) == []
    ensures |Filter(folds, MeetsMinimum())| >= 2
    ensures !Dominated(Filter(rows, Selected(spec)))
    ensures var x := excluding.medianExcessReturnPct; x.Some? && x.value > 0.0 && x.value > spec.complexity as real
    ensures DrawdownReasons(Filter(folds, MeetsMinimum())) == []
  {
    var valid := Filter(folds, MeetsMinimum());
    var x := excluding.medianExcessReturnPct;
    var a, b := SampleReasons(full.n, excluding.n, |valid|), ExcessReasons(x);
    var c, d := When(Dominated(Filter(rows, Selected(spec))), DependsOnOneSymbol), DrawdownReasons(valid);
    assert |a + b + c + d + PenaltyReasons(x, spec.complexity)| == 0;
    assert |a| == 0 && |b| == 0 && |c| == 0 && |d| == 0 && |PenaltyReasons(x, spec.complexity)| == 0;
    assert |When(full.n < MIN_N, FullHistoryTooSmall) + When(excluding.n < MIN_N, Excluding2020TooSmall)
            + When(|valid| < 2, FewerThanTwoFolds)| == 0;
    assert |When(x.None?, NoExcluding2020Result) + When(x.Some? && x.value <= 0.0, NoPositiveExcess)| == 0;
  }

  /** A BACKTESTED verdict forces evidence well beyond the explicit gates. */
  lemma BacktestedIsConvincing(rows: seq<AuditRow>, spec: CandidateSpec, kind: Benchmark)
    ensures var e := Evaluate(rows, spec, kind);
            e.status == Passing ==> Convincing(rows, spec, e)
  {
    var e := Evaluate(rows, spec, kind);
    if e.status == Passing {
      var full, excluding := Summarize(rows, spec, kind), Summarize(Filter(rows, Not2020()), spec, kind);
      var folds := Folds(rows, spec, kind, Years(rows));
      var matched := Filter(rows, Selected(spec));
      NoReason(rows, spec, full, excluding, folds);
      TwoValidFoldsForceEvidence(rows, spec, kind);
      FilterMonotone(rows, InCohort(spec), Selected(spec));
      forall s: string ensures 2 * |Filter(matched, OfSymbol(s))| <= |matched| {
        NoDominantSymbol(matched, s);
      }
      TwoSymbols(matched);
    }
  }

  lemma {:induction false} NoDegradation(folds: seq<Fold>)
    ensures DrawdownReasons(folds) == [] <==> forall i | 0 <= i < |folds| :: !Degrades(folds[i])
  {
    if folds != [] && !Degrades(folds[0]) {
      NoDegradation(folds[1..]);
      assert folds == [folds[0]] + folds[1..];
    }
  }

  /**
   * The verdict, without its redundant gates: two valid folds, an excess outside 2020 above both zero
   * and the complexity, no symbol with more than half of the rows, no degraded drawdown.
   */
  lemma BacktestedIff(rows: seq<AuditRow>, spec: CandidateSpec, kind: Benchmark)
    ensures var e := Evaluate(rows, spec, kind);
            var valid := Filter(e.folds, (f: Fold) => f.train.n >= 5 && f.validation.n >= 5);
            var x := e.excluding2020.medianExcessReturnPct;
            var cohort := Filter(rows, (r: AuditRow) => r.included && spec.matches(r));
            e.status == Passing <==>
              && |valid| >= 2
              && x.Some? && x.value > 0.0 && x.value > spec.complexity as real
              && (forall q | q in cohort :: 2 * |Filter(cohort, (r: AuditRow) => r.symbol == q.symbol)| <= |cohort|)
              && (forall i | 0 <= i < |valid| :: HoldsUp(valid[i]))
  {
    GatesIff(rows, spec, kind);
    ValidFoldsAre(Evaluate(rows, spec, kind).folds);
    SelectedAre(rows, spec);
    DominatedIff(Filter(rows, Selected(spec)));
    AllHoldUpIff(Filter(Evaluate(rows, spec, kind).folds, MeetsMinimum()));
  }

  lemma AllHoldUpIff(folds: seq<Fold>)
    ensures (forall i | 0 <= i < |folds| :: HoldsUp(folds[i])) <==> (forall i | 0 <= i < |folds| :: !Degrades(folds[i]))
  {
    forall i | 0 <= i < |folds| ensures HoldsUp(folds[i]) <==> !Degrades(folds[i]) {
      HoldsUpIff(folds[i]);
    }
  }

  lemma GatesIff(rows: seq<AuditRow>, spec: CandidateSpec, kind: Benchmark)
    ensures var e := Evaluate(rows, spec, kind);
            var valid := Filter(e.folds, MeetsMinimum());
            var x := e.excluding2020.medianExcessReturnPct;
            e.status == Passing <==>
              && |valid| >= 2
              && x.Some? && x.value > 0.0 && x.value > spec.complexity as real
              && !Dominated(Filter(rows, Selected(spec)))
              && (forall i | 0 <= i < |valid| :: !Degrades(valid[i]))
  {
    var full, excluding := Summarize(rows, spec, kind), Summarize(Filter(rows, Not2020()), spec, kind);
    var folds := Folds(rows, spec, kind, Years(rows));
    var valid := Filter(folds, MeetsMinimum());
    NoDegradation(valid);
    if Reasons(rows, spec, full, excluding, folds) == [] {
      NoReason(rows, spec, full, excluding, folds);
    }
    if |valid| >= 2 {
      TwoValidFoldsForceEvidence(rows, spec, kind);
    }
  }

  /**
   * What a passing verdict says about the rows themselves: of the scored cohort's excess returns
   * outside 2020, in percent, there are some, and at least half exceed both zero and the complexity.
   */
  lemma PassingBeatsBenchmark(rows: seq<AuditRow>, spec: CandidateSpec, kind: Benchmark)
    ensures var scored := Filter(rows,
              (r: AuditRow) => r.calendarYear != 2020 && r.included && spec.matches(r) && r.stockReturn.m12.Some?);
            var excess := (r: AuditRow) => if kind == Tri then r.excessReturnTri.m12 else r.excessReturn.m12;
            var hurdle := if spec.complexity > 0 then spec.complexity as real else 0.0;
            Evaluate(rows, spec, kind).status == Passing ==>
              && |Filter(scored, HasFigure(excess))| > 0
              && 2 * |Filter(scored, FigurePasses(excess, (x: real) => x * 100.0 > hurdle))|
                 >= |Filter(scored, HasFigure(excess))|
  {
    var scored := Filter(rows,
              (r: AuditRow) => r.calendarYear != 2020 && r.included && spec.matches(r) && r.stockReturn.m12.Some?);
    var excess := (r: AuditRow) => if kind == Tri then r.excessReturnTri.m12 else r.excessReturn.m12;
    var hurdle := if spec.complexity > 0 then spec.complexity as real else 0.0;
    var outside := Filter(rows, Not2020());
    FilterFilter(rows, Not2020(), (r: AuditRow) => r.included && spec.matches(r) && r.stockReturn.m12.Some?,
                 (r: AuditRow) => r.calendarYear != 2020 && r.included && spec.matches(r) && r.stockReturn.m12.Some?);
    SummaryMeans(outside, spec, kind, scored);
    BacktestedIff(rows, spec, kind);
    if Evaluate(rows, spec, kind).status == Passing {
      var m := Summarize(outside, spec, kind).medianExcessReturnPct.value;
      FilterSubset(scored, FigurePasses(excess, ScaledAtLeast(100.0, m)),
        FigurePasses(excess, (x: real) => x * 100.0 > hurdle));
    }
  }

  /** Each of the three shipped candidates has to beat the benchmark by more than one percent outside 2020. */
  lemma CandidatesClearOnePercent(rows: seq<AuditRow>, spec: CandidateSpec, kind: Benchmark)
    requires spec in CandidateSpecs()
    ensures var e := Evaluate(rows, spec, kind);
            e.status == Passing ==>
              e.excluding2020.medianExcessReturnPct.Some? && e.excluding2020.medianExcessReturnPct.value > 1.0
  {
    CandidateComplexity(spec);
    BacktestedIsConvincing(rows, spec, kind);
  }

  lemma CandidateComplexity(spec: CandidateSpec)
    requires spec in CandidateSpecs()
    ensures spec.complexity == 1
  {
  }
}
