/** `FinancialResultRepository` of `db/repositories/financial.py`. */
module FinancialResults {
  import opened Basics
  import opened VersionedTable
  import opened VersionedHistory

  datatype ResultKey = ResultKey(period: int, scope: string, basis: string, sourceType: string)

  /** The eighteen compared columns. */
  datatype ResultValues = ResultValues(
    isAudited: bool, resultDate: Option<int>, currency: string, unitScale: string,
    revenue: Option<real>, ebitda: Option<real>, ebitdaMarginPct: Option<real>, ebitdaSource: Option<string>,
    pbt: Option<real>, pat: Option<real>, patMarginPct: Option<real>,
    epsBasic: Option<real>, epsDiluted: Option<real>,
    totalDebt: Option<real>, cashEquivalents: Option<real>, operatingCashFlow: Option<real>,
    roePct: Option<real>, rocePct: Option<real>)

  datatype Precision = Exact | DateOnly

  datatype Verification = Verification(
    status: string, documentId: Option<int>, verifiedAt: Option<int>, means: Option<string>, notes: Option<string>)

  /** Columns an in-place correction may rewrite (besides `availableAt`). */
  datatype Trail = Trail(publishedAt: Option<int>, precision: Precision, verification: Verification)

  type ResultRow = Row<ResultKey, ResultValues, Trail>

  datatype ResultCreate = ResultCreate(
    key: ResultKey, company: int, values: ResultValues, availableAt: Option<int>, trail: Trail)

  /** `_refresh_provenance`: absent timestamps leave the stored ones alone, precision always follows. */
  function Refreshed(row: ResultRow, data: ResultCreate): (r: ResultRow)
    ensures Rewrites(row, r)
  {
    row.(availableAt := if data.availableAt.Some? then data.availableAt.value else row.availableAt,
         meta := row.meta.(
           publishedAt := if data.trail.publishedAt.Some? then data.trail.publishedAt else row.meta.publishedAt,
           precision := data.trail.precision))
  }

  function AvailableAt(data: ResultCreate, now: int): int
  {
    if data.availableAt.Some? then data.availableAt.value else now
  }

  // ------------------------------------------------------------------- steps

  datatype Step =
    | Upsert(data: ResultCreate, now: int)
    | SetVerification(id: int, verification: Verification)
    | UpgradeTimestamp(id: int, publishedAt: int, availableAt: int)

  ghost predicate IsRefresh(rows: seq<ResultRow>, data: ResultCreate)
  {
    var last := Last(Group(rows, data.key));
    last.Some? && last.value.values == data.values
  }

  predicate Exists(rows: seq<ResultRow>, id: int)
  {
    0 <= id < |rows|
  }

  /** The row an in-place step rewrites, and what it becomes; `None` for an insertion or an unknown id. */
  ghost function RewriteOf(rows: seq<ResultRow>, step: Step): (w: Option<(nat, ResultRow)>)
    requires Chained(rows)
    ensures w.Some? ==> w.value.0 < |rows| && Rewrites(rows[w.value.0], w.value.1)
  {
    match step
    case Upsert(data, _) =>
      LatestIsLast(rows, data.key);
      if IsRefresh(rows, data) then
        var e := Last(Group(rows, data.key)).value;
        Some((e.id, Refreshed(e, data)))
      else None
    case SetVerification(id, v) =>
      if Exists(rows, id) then Some((id, rows[id].(meta := rows[id].meta.(verification := v)))) else None
    case UpgradeTimestamp(id, published, available) =>
      if Exists(rows, id) then
        Some((id, rows[id].(availableAt := available,
                            meta := rows[id].meta.(publishedAt := Some(published), precision := Exact))))
      else None
  }

  ghost function Apply(rows: seq<ResultRow>, step: Step): (rows': seq<ResultRow>)
    requires Chained(rows)
    ensures Chained(rows')
  {
    var w := RewriteOf(rows, step);
    if w.Some? then
      RewriteKeepsChained(rows, w.value.0, w.value.1);
      rows[w.value.0 := w.value.1]
    else if step.Upsert? then
      var d := step.data;
      LatestIsLast(rows, d.key);
      InsertKeepsChained(rows, d.key, d.company, d.values, AvailableAt(d, step.now), d.trail);
      Insert(rows, Last(Group(rows, d.key)), d.key, d.company, d.values, AvailableAt(d, step.now), d.trail)
    else rows
  }

  ghost function RunFrom(rows: seq<ResultRow>, steps: seq<Step>): (rows': seq<ResultRow>)
    requires Chained(rows)
    ensures Chained(rows')
  {
    if steps == [] then rows else Apply(RunFrom(rows, steps[..|steps| - 1]), steps[|steps| - 1])
  }

  ghost function Run(steps: seq<Step>): (rows: seq<ResultRow>)
    ensures Chained(rows)
  {
    RunFrom([], steps)
  }

  /** `func.min(available_at)` over every row of the period. */
  function EarliestAvailableAt(rows: seq<ResultRow>, period: int): (e: Option<int>)
    ensures e.Some? ==> exists i | 0 <= i < |rows| :: rows[i].key.period == period && rows[i].availableAt == e.value
    ensures forall i | 0 <= i < |rows| && rows[i].key.period == period :: e.Some? && e.value <= rows[i].availableAt
  {
    if rows == [] then None else
      var rest := EarliestAvailableAt(rows[..|rows| - 1], period);
      var r := rows[|rows| - 1];
      if r.key.period == period && (rest.None? || r.availableAt < rest.value) then Some(r.availableAt) else rest
  }

  lemma RefreshOfLatest(rows: seq<ResultRow>, data: ResultCreate)
    requires Chained(rows) && IsRefresh(rows, data)
    ensures var e := Last(Group(rows, data.key)).value;
            && e.id < |rows| && rows[e.id] == e && Chained(rows[e.id := Refreshed(e, data)])
            && Last(Group(rows[e.id := Refreshed(e, data)], data.key)) == Some(Refreshed(e, data))
  {
    LatestIsLast(rows, data.key);
    var g := Group(rows, data.key);
    var e := g[|g| - 1];
    assert Chain(g);
    assert Linked(g, |g| - 1);
    GroupMembers(rows, data.key);
    RewriteKeepsChained(rows, e.id, Refreshed(e, data));
    RewriteGroup(rows, e.id, Refreshed(e, data), data.key);
  }

  class FinancialResultRepository {
    var rows: seq<ResultRow>

    ghost predicate Valid()
      reads this
    {
      Chained(rows)
    }

    constructor ()
      ensures Valid() && rows == []
    {
      rows := [];
    }

    method UpsertVersioned(data: ResultCreate, now: int) returns (result: Result<(ResultRow, bool), string>)
      requires Valid()
      modifies this
      ensures Valid()
      ensures rows == Apply(old(rows), Upsert(data, now))
      ensures result.Ok? && Some(result.value.0) == Last(Group(rows, data.key))
      ensures result.value.0.values == data.values
      ensures result.value.1 <==> |rows| == |old(rows)| + 1
      ensures !result.value.1 <==> IsRefresh(old(rows), data)
    {
      LatestIsLast(rows, data.key);
      var lookup := GetLatest(rows, data.key);
      var existing := lookup.value;
      if existing.Some? && existing.value.values == data.values {
        var refreshed := Refreshed(existing.value, data);
        RefreshOfLatest(rows, data);
        rows := rows[existing.value.id := refreshed];
        return Ok((refreshed, false));
      }
      InsertGroup(rows, data.key, data.company, data.values, AvailableAt(data, now), data.trail, data.key);
      InsertShape(rows, data.key, data.company, data.values, AvailableAt(data, now), data.trail);
      var version := if existing.Some? then existing.value.version + 1 else 1;
      var supersedes := if existing.Some? then Some(existing.value.id) else None;
      var row := Row(|rows|, data.key, data.company, data.values, version, true, supersedes,
                     AvailableAt(data, now), data.trail);
      ghost var before := rows;
      rows := rows + [row];
      if existing.Some? {
        rows := rows[existing.value.id := rows[existing.value.id].(isLatest := false)];
      }
      assert rows == Apply(before, Upsert(data, now));
      result := Ok((row, true));
    }

    method SetVerificationTrail(id: int, verification: Verification) returns (result: Result<ResultRow, string>)
      requires Valid()
      modifies this
      ensures Valid()
      ensures rows == Apply(old(rows), SetVerification(id, verification))
      ensures result.Ok? <==> Exists(old(rows), id)
      ensures result.Ok? ==> result.value == rows[id]
    {
      if !Exists(rows, id) {
        return Err("financial_result not found");
      }
      RewriteKeepsChained(rows, id, rows[id].(meta := rows[id].meta.(verification := verification)));
      rows := rows[id := rows[id].(meta := rows[id].meta.(verification := verification))];
      result := Ok(rows[id]);
    }

    method UpgradeTimestampPrecision(id: int, publishedAt: int, availableAt: int)
      returns (result: Result<ResultRow, string>)
      requires Valid()
      modifies this
      ensures Valid()
      ensures rows == Apply(old(rows), UpgradeTimestamp(id, publishedAt, availableAt))
      ensures result.Ok? <==> Exists(old(rows), id)
      ensures result.Ok? ==> result.value == rows[id] && rows[id].meta.precision == Exact
    {
      if !Exists(rows, id) {
        return Err("financial_result not found");
      }
      var upgraded := rows[id].(availableAt := availableAt,
                                meta := rows[id].meta.(publishedAt := Some(publishedAt), precision := Exact));
      RewriteKeepsChained(rows, id, upgraded);
      rows := rows[id := upgraded];
      result := Ok(rows[id]);
    }

    method ListByCompanyAsOf(company: int, asOf: int) returns (latest: map<ResultKey, ResultRow>)
      requires Valid()
      ensures latest == ViewAsOf(rows, company, asOf)
    {
      var selected := Filter(rows, VisibleAt(Some(company), asOf));
      latest := LatestPerGroup(selected);
    }
  }

  // ------------------------------------------------------- history of a fact

  function About(k: ResultKey): Step -> bool { (s: Step) => s.Upsert? && s.data.key == k }

  function ReportedAbout(steps: seq<Step>, k: ResultKey): seq<ResultValues>
  {
    Map(Filter(steps, About(k)), (s: Step) => if s.Upsert? then s.data.values else NO_VALUES)
  }

  const NO_VALUES: ResultValues :=
    ResultValues(false, None, "", "", None, None, None, None, None, None, None, None, None, None, None, None, None,
      None)

  lemma RewriteStepKeepsValues(rows: seq<ResultRow>, step: Step, k: ResultKey)
    requires Chained(rows) && RewriteOf(rows, step).Some?
    ensures ValuesOf(Group(Apply(rows, step), k)) == ValuesOf(Group(rows, k))
  {
    var w := RewriteOf(rows, step).value;
    RewriteKeepsValues(rows, w.0, w.1, k);
  }

  /** A refresh repeats the value the history ends with. */
  lemma RefreshRepeats(rows: seq<ResultRow>, data: ResultCreate, inputs: seq<ResultValues>)
    requires IsRefresh(rows, data) && ValuesOf(Group(rows, data.key)) == Destutter(inputs)
    ensures Destutter(inputs + [data.values]) == Destutter(inputs)
  {
    ReportStep(Group(rows, data.key), inputs, data.values);
  }

  lemma InsertStepExtends(rows: seq<ResultRow>, step: Step, k: ResultKey, inputs: seq<ResultValues>)
    requires Chained(rows) && step.Upsert? && RewriteOf(rows, step).None?
    requires ValuesOf(Group(rows, k)) == Destutter(inputs)
    ensures ValuesOf(Group(Apply(rows, step), k))
            == Destutter(if step.data.key == k then inputs + [step.data.values] else inputs)
  {
    var d, at := step.data, AvailableAt(step.data, step.now);
    if d.key == k {
      InsertExtendsHistory(rows, k, d.company, d.values, at, d.trail, inputs);
    } else {
      InsertGroup(rows, d.key, d.company, d.values, at, d.trail, k);
    }
  }

  /** One step of the history theorem: only a changed ingestion of `k` itself extends the history. */
  lemma HistoryStep(rows: seq<ResultRow>, step: Step, k: ResultKey, inputs: seq<ResultValues>)
    requires Chained(rows) && ValuesOf(Group(rows, k)) == Destutter(inputs)
    ensures ValuesOf(Group(Apply(rows, step), k))
            == Destutter(if About(k)(step) then inputs + [step.data.values] else inputs)
  {
    if RewriteOf(rows, step).Some? {
      RewriteStepKeepsValues(rows, step, k);
      if About(k)(step) {
        RefreshRepeats(rows, step.data, inputs);
      }
    } else if step.Upsert? {
      InsertStepExtends(rows, step, k, inputs);
    }
  }

  lemma ReportedStep(steps: seq<Step>, step: Step, k: ResultKey)
    ensures ReportedAbout(steps + [step], k)
            == if About(k)(step) then ReportedAbout(steps, k) + [step.data.values] else ReportedAbout(steps, k)
  {
    FilterAppend(steps, step, About(k));
  }

  /**
   * Whatever verifications and timestamp corrections are interleaved, the stored history of every
   * fact is the reported input without consecutive repetitions.
   */
  lemma {:induction false} HistoryIsDestutteredInput(steps: seq<Step>, k: ResultKey)
    ensures ValuesOf(Group(Run(steps), k)) == Destutter(ReportedAbout(steps, k))
  {
    if steps != [] {
      var init, last := steps[..|steps| - 1], steps[|steps| - 1];
      HistoryIsDestutteredInput(init, k);
      HistoryStep(Run(init), last, k, ReportedAbout(init, k));
      ReportedStep(init, last, k);
      assert steps == init + [last] && Run(steps) == Apply(Run(init), last);
    }
  }

  // ------------------------------------------------- what the past can notice

  /** The step changes what a query about `k` at time `t` answers. */
  ghost predicate Disturbs(rows: seq<ResultRow>, step: Step, k: ResultKey, seen: Option<int>, t: int)
    requires Chained(rows)
  {
    match step
    case Upsert(d, now) =>
      if IsRefresh(rows, d) then
        d.availableAt.Some? && Moves(rows, Last(Group(rows, d.key)).value, d.availableAt.value, k, seen, t)
      else
        && d.key == k && (seen == None || seen == Some(d.company))
        && (if d.availableAt.Some? then d.availableAt.value else now) <= t
    case SetVerification(_, _) => false
    case UpgradeTimestamp(id, _, availableAt) => 0 <= id < |rows| && Moves(rows, rows[id], availableAt, k, seen, t)
  }

  /** The row passes to the other side of `t` while nothing newer of its fact is seen there. */
  ghost predicate Moves(rows: seq<ResultRow>, r: ResultRow, availableAt: int, k: ResultKey, seen: Option<int>, t: int)
  {
    var known := KnownAt(rows, k, seen, t);
    && r.key == k && (seen == None || seen == Some(r.company))
    && (r.availableAt <= t) != (availableAt <= t)
    && (known.None? || known.value.version <= r.version)
  }

  /** A step changes a point-in-time answer exactly when it disturbs it. */
  lemma StepNoticedIff(rows: seq<ResultRow>, step: Step, k: ResultKey, seen: Option<int>, t: int)
    requires Chained(rows)
    ensures SameFact(KnownAt(rows, k, seen, t), KnownAt(Apply(rows, step), k, seen, t))
            <==> !Disturbs(rows, step, k, seen, t)
  {
    match step
    case Upsert(d, now) =>
      LatestIsLast(rows, d.key);
      if IsRefresh(rows, d) {
        var e := Last(Group(rows, d.key)).value;
        RewriteNoticedIff(rows, e.id, Refreshed(e, d), k, seen, t);
      } else {
        InsertNoticedIff(rows, d.key, d.company, d.values, AvailableAt(d, now), d.trail, k, seen, t);
      }
    case SetVerification(id, _) =>
      if Exists(rows, id) {
        RewriteNoticedIff(rows, id, RewriteOf(rows, step).value.1, k, seen, t);
      }
    case UpgradeTimestamp(id, _, availableAt) =>
      if Exists(rows, id) {
        RewriteNoticedIff(rows, id, RewriteOf(rows, step).value.1, k, seen, t);
      }
  }

  ghost predicate NeverDisturbs(rows: seq<ResultRow>, steps: seq<Step>, k: ResultKey, seen: Option<int>, t: int)
    requires Chained(rows)
  {
    forall n | 0 <= n < |steps| :: !Disturbs(RunFrom(rows, steps[..n]), steps[n], k, seen, t)
  }

  /** Non-interference: a run none of whose steps disturbs the past leaves every answer about it standing. */
  lemma {:induction false} PastIsNotRewritten(rows: seq<ResultRow>, steps: seq<Step>, k: ResultKey, seen: Option<int>,
                                              t: int)
    requires Chained(rows) && NeverDisturbs(rows, steps, k, seen, t)
    ensures SameFact(KnownAt(rows, k, seen, t), KnownAt(RunFrom(rows, steps), k, seen, t))
  {
    if steps != [] {
      var init, last := steps[..|steps| - 1], steps[|steps| - 1];
      forall n | 0 <= n < |init| ensures !Disturbs(RunFrom(rows, init[..n]), init[n], k, seen, t) {
        assert init[..n] == steps[..n];
        assert !Disturbs(RunFrom(rows, steps[..n]), steps[n], k, seen, t);
      }
      PastIsNotRewritten(rows, init, k, seen, t);
      assert !Disturbs(RunFrom(rows, steps[..|init|]), steps[|init|], k, seen, t);
      StepNoticedIff(RunFrom(rows, init), last, k, seen, t);
    }
  }

  // ----------------------------------------------------------------- cutoffs

  /**
   * `get_earliest_available_at` is the moment the period first becomes known: before it no
   * point-in-time query returns a row of the period, from it on some query does.
   */
  lemma EarliestIsFirstKnown(rows: seq<ResultRow>, period: int, t: int)
    requires Chained(rows)
    ensures var e := EarliestAvailableAt(rows, period);
            (exists k: ResultKey :: k.period == period && KnownAt(rows, k, None, t).Some?) <==> e.Some? && e.value <= t
  {
    var e := EarliestAvailableAt(rows, period);
    var visible: ResultRow -> bool := VisibleAt(None, t);
    var selected := Filter(rows, visible);
    FilterMembers(rows, visible);
    forall k: ResultKey | k.period == period && KnownAt(rows, k, None, t).Some? ensures e.Some? && e.value <= t {
      GroupMembers(selected, k);
      var r := KnownAt(rows, k, None, t).value;
      assert r in rows;
    }
    if e.Some? && e.value <= t {
      var i :| 0 <= i < |rows| && rows[i].key.period == period && rows[i].availableAt == e.value;
      assert rows[i] in selected;
      GroupMembers(selected, rows[i].key);
      assert KnownAt(rows, rows[i].key, None, t).Some?;
    }
  }

  /** One tick before that moment no company view holds a row of the period. */
  lemma NothingKnownBeforeEarliest(rows: seq<ResultRow>, period: int, company: int)
    requires Chained(rows)
    ensures var e := EarliestAvailableAt(rows, period);
            e.Some? ==> forall k | k in ViewAsOf(rows, company, e.value - 1) :: k.period != period
  {
    var e := EarliestAvailableAt(rows, period);
    if e.Some? {
      var t := e.value - 1;
      var own: ResultRow -> bool := VisibleAt(Some(company), t);
      var selected := Filter(rows, own);
      FilterMembers(rows, own);
      forall k | k in ViewAsOf(rows, company, t) ensures k.period != period {
        KeysOfGroups(selected, k);
        GroupMembers(selected, k);
        var r := Group(selected, k)[0];
        assert r in rows;
      }
    }
  }

  // --------------------------------------------------------------- precision

  ghost predicate LosesPrecision(rows: seq<ResultRow>, step: Step, id: nat)
    requires Chained(rows) && id < |rows|
  {
    rows[id].meta.precision == Exact && id < |Apply(rows, step)| && Apply(rows, step)[id].meta.precision == DateOnly
  }

  /**
   * The comment on `upgrade_timestamp_precision` promises that EXACT is never downgraded.  It is,
   * exactly by a DATE_ONLY re-ingestion of unchanged values over the latest version.
   */
  lemma PrecisionLostIff(rows: seq<ResultRow>, step: Step, id: nat)
    requires Chained(rows) && id < |rows|
    ensures LosesPrecision(rows, step, id) <==>
            && rows[id].meta.precision == Exact
            && step.Upsert? && step.data.trail.precision == DateOnly
            && Last(Group(rows, step.data.key)) == Some(rows[id])
            && step.data.values == rows[id].values
  {
    match step
    case Upsert(d, now) =>
      LatestIsLast(rows, d.key);
      if !IsRefresh(rows, d) {
        InsertShape(rows, d.key, d.company, d.values, AvailableAt(d, now), d.trail);
      }
    case SetVerification(_, _) =>
    case UpgradeTimestamp(_, _, _) =>
  }

  /** One exact ingestion, then the same figures again from a date-only source. */
  lemma PrecisionLostWitness() returns (first: Step, second: Step)
    ensures |Run([first])| == 1 && LosesPrecision(Run([first]), second, 0)
  {
    var unverified := Verification("unverified", None, None, None, None);
    var k := ResultKey(1, "STANDALONE", "QUARTER", "nse");
    var exact := ResultCreate(k, 1, NO_VALUES, Some(5), Trail(Some(5), Exact, unverified));
    first := Upsert(exact, 9);
    second := Upsert(exact.(trail := exact.trail.(precision := DateOnly)), 10);
    var steps := [first];
    assert steps[..|steps| - 1] == [];
    var none: seq<ResultRow> := [];
    assert RunFrom(none, steps[..|steps| - 1]) == none;
    var rows := Run(steps);
    assert rows == Apply(none, first);
    InsertGroup([], k, 1, NO_VALUES, 5, exact.trail, k);
    PrecisionLostIff(rows, second, 0);
  }

  // ------------------------------------ the result a valuation starts from

  function IsVerified(): ResultRow -> bool { (r: ResultRow) => r.meta.verification.status == "verified" }

  /** The rows `_latest_financial` chooses from. */
  function Candidate(company: int, t: int): ResultRow -> bool
  {
    (r: ResultRow) => r.company == company && r.isLatest && IsVerified()(r) && r.availableAt <= t
  }

  function Candidates(rows: seq<ResultRow>, company: int, t: int): seq<ResultRow>
  {
    Filter(rows, Candidate(company, t))
  }

  function VerifiedOf(company: int): ResultRow -> bool { (r: ResultRow) => r.company == company && IsVerified()(r) }

  /**
   * A group has a candidate at `t` exactly when what was known of it at `t` is still its last version
   * and is verified and the company's own.
   */
  lemma CandidateIff(rows: seq<ResultRow>, k: ResultKey, company: int, t: int)
    requires Chained(rows)
    ensures (exists r | r in Candidates(rows, company, t) :: r.key == k)
       <==> var known := KnownAt(rows, k, None, t);
            known.Some? && known == Last(Group(rows, k)) && VerifiedOf(company)(known.value)
  {
    FilterMembers(rows, Candidate(company, t));
    FlagHidesIff(rows, k, VerifiedOf(company), t);
    if r :| r in rows && r.key == k && VerifiedOf(company)(r) && r.isLatest && r.availableAt <= t {
      assert r in Candidates(rows, company, t);
    }
  }

  /** The step rewrites or supersedes a candidate, or makes a row one. */
  ghost predicate Touches(rows: seq<ResultRow>, step: Step, company: int, t: int)
    requires Chained(rows)
  {
    var q, w := Candidate(company, t), RewriteOf(rows, step);
    if w.Some? then
      w.value.1 != rows[w.value.0] && (q(rows[w.value.0]) || q(w.value.1))
    else
      step.Upsert? &&
      var d, last := step.data, Last(Group(rows, step.data.key));
      || (last.Some? && q(last.value))
      || q(NewRow(rows, d.key, d.company, d.values, AvailableAt(d, step.now), d.trail))
  }

  /** One step leaves the candidates as they are exactly when it touches none. */
  lemma CandidatesKeptIff(rows: seq<ResultRow>, step: Step, company: int, t: int)
    requires Chained(rows)
    ensures Candidates(Apply(rows, step), company, t) == Candidates(rows, company, t)
       <==> !Touches(rows, step, company, t)
  {
    var q, w := Candidate(company, t), RewriteOf(rows, step);
    if w.Some? {
      RewriteKeepsMatchesIff(rows, w.value.0, w.value.1, q);
    } else if step.Upsert? {
      InsertKeepsCandidatesIff(rows, step, company, t);
    }
  }

  lemma RewriteKeepsMatchesIff(rows: seq<ResultRow>, i: nat, r: ResultRow, q: ResultRow -> bool)
    requires Chained(rows) && i < |rows| && r.id == rows[i].id
    ensures Filter(rows[i := r], q) == Filter(rows, q) <==> !(r != rows[i] && (q(rows[i]) || q(r)))
  {
    FilterUpdateSize(rows, i, r, q);
    if r == rows[i] {
      assert rows[i := r] == rows;
    } else if !q(rows[i]) && !q(r) {
      FilterUpdateUnmatched(rows, i, r, q);
    } else if q(rows[i]) && q(r) {
      FilterMembers(rows, q);
      FilterMembers(rows[i := r], q);
      assert rows[i := r][i] == r;
      assert r !in rows;
    }
  }

  lemma InsertKeepsCandidatesIff(rows: seq<ResultRow>, step: Step, company: int, t: int)
    requires Chained(rows) && step.Upsert? && RewriteOf(rows, step).None?
    ensures Candidates(Apply(rows, step), company, t) == Candidates(rows, company, t)
       <==> !Touches(rows, step, company, t)
  {
    var q, d, last := Candidate(company, t), step.data, Last(Group(rows, step.data.key));
    var at := AvailableAt(d, step.now);
    var row := NewRow(rows, d.key, d.company, d.values, at, d.trail);
    LatestIsLast(rows, d.key);
    InsertShape(rows, d.key, d.company, d.values, at, d.trail);
    var flipped := if last.Some? then rows[last.value.id := last.value.(isLatest := false)] else rows;
    FilterAppend(flipped, row, q);
    FilterMembers(rows, q);
    if last.Some? {
      FilterUpdateSize(rows, last.value.id, last.value.(isLatest := false), q);
      if !q(last.value) {
        FilterUpdateUnmatched(rows, last.value.id, last.value.(isLatest := false), q);
      }
    }
    if q(row) {
      assert row !in rows;
      assert row in Filter(flipped, q) + [row];
    }
  }

  ghost predicate NeverTouches(rows: seq<ResultRow>, steps: seq<Step>, company: int, t: int)
    requires Chained(rows)
  {
    steps != [] ==>
      var init := steps[..|steps| - 1];
      NeverTouches(rows, init, company, t) && !Touches(RunFrom(rows, init), steps[|steps| - 1], company, t)
  }

  lemma {:induction false} CandidatesReplay(rows: seq<ResultRow>, steps: seq<Step>, company: int, t: int)
    requires Chained(rows) && NeverTouches(rows, steps, company, t)
    ensures Candidates(RunFrom(rows, steps), company, t) == Candidates(rows, company, t)
  {
    if steps != [] {
      var init := steps[..|steps| - 1];
      CandidatesReplay(rows, init, company, t);
      CandidatesKeptIff(RunFrom(rows, init), steps[|steps| - 1], company, t);
    }
  }

  /** A verified result known at 10 and revised at 20: asked for 10 afterwards, no result of it is left. */
  lemma RevisedResultWitness() returns (first: Step, second: Step, k: ResultKey)
    ensures Candidates(Run([first]), 1, 10) != [] && KnownAt(Run([first, second]), k, None, 10).Some?
    ensures forall r | r in Candidates(Run([first, second]), 1, 10) :: r.key != k
  {
    k := ResultKey(1, "STANDALONE", "QUARTER", "nse");
    var verified := Verification("verified", None, None, None, None);
    var filed := ResultCreate(k, 1, NO_VALUES, Some(5), Trail(Some(5), Exact, verified));
    first := Upsert(filed, 9);
    second := Upsert(filed.(values := NO_VALUES.(revenue := Some(1.0)), availableAt := Some(20)), 21);
    FirstFiling(filed, 9);
    SecondFiling(first, second);
    var rows := Run([first, second]);
    var one := Run([first]);
    assert one == [Row(0, k, 1, NO_VALUES, 1, true, None, 5, filed.trail)];
    assert IsVerified()(one[0]) && Candidate(1, 10)(one[0]);
    FilterAll(one, Candidate(1, 10));
    CandidateIff(rows, k, 1, 10);
  }

  lemma FirstFiling(d: ResultCreate, now: int)
    ensures var rows := Run([Upsert(d, now)]);
            && Group(rows, d.key) == rows
            && rows == [Row(0, d.key, d.company, d.values, 1, true, None, AvailableAt(d, now), d.trail)]
            && forall t | AvailableAt(d, now) <= t :: KnownAt(rows, d.key, None, t) == Some(rows[0])
  {
    var steps := [Upsert(d, now)];
    assert steps[..|steps| - 1] == [];
    var none: seq<ResultRow> := [];
    assert RunFrom(none, steps[..|steps| - 1]) == none;
    var rows := Run(steps);
    assert rows == Apply(none, Upsert(d, now));
    assert rows[..0] == none;
    forall t | AvailableAt(d, now) <= t ensures KnownAt(rows, d.key, None, t) == Some(rows[0]) {
      KnownIsLastVisible(rows, d.key, None, t);
    }
  }

  /** What was known before a changed filing became available is still known, but no longer the last version. */
  lemma SecondFiling(first: Step, second: Step)
    requires first.Upsert? && second.Upsert? && first.data.key == second.data.key
             && first.data.values != second.data.values
    requires AvailableAt(first.data, first.now) <= 10 < AvailableAt(second.data, second.now)
    ensures var rows, k := Run([first, second]), first.data.key;
            KnownAt(rows, k, None, 10).Some? && KnownAt(rows, k, None, 10) != Last(Group(rows, k))
  {
    var d := second.data;
    FirstFiling(first.data, first.now);
    var both := [first, second];
    assert both[..|both| - 1] == [first];
    var once := Run([first]);
    InsertGroup(once, d.key, d.company, d.values, AvailableAt(d, second.now), d.trail, d.key);
    InsertNoticedIff(once, d.key, d.company, d.values, AvailableAt(d, second.now), d.trail, d.key, None, 10);
  }

  // ------------------------------------------------ what each step writes

  /** The row is the flagged one of the reported fact and has the reported values. */
  ghost predicate Repeats(rows: seq<ResultRow>, e: ResultRow, data: ResultCreate)
  {
    e in rows && e.key == data.key && e.isLatest && e.values == data.values
  }

  /** Given timestamps replace the stored ones, precision follows the source, all else stays. */
  ghost predicate IsRefreshed(before: ResultRow, after: ResultRow, data: ResultCreate)
  {
    && after.availableAt == (if data.availableAt.Some? then data.availableAt.value else before.availableAt)
    && after.meta.publishedAt
       == (if data.trail.publishedAt.Some? then data.trail.publishedAt else before.meta.publishedAt)
    && after.meta.precision == data.trail.precision
    && after.meta.verification == before.meta.verification
    && after.id == before.id && after.key == before.key && after.company == before.company
       && after.values == before.values
    && after.version == before.version && after.isLatest == before.isLatest && after.supersedes == before.supersedes
  }

  /**
   * An ingestion refreshes the one row it repeats, or inserts the next version, available when the
   * source says or now.
   */
  lemma UpsertMeans(rows: seq<ResultRow>, data: ResultCreate, now: int)
    requires Chained(rows)
    ensures var after := Apply(rows, Upsert(data, now));
            if exists e :: Repeats(rows, e, data) then
              && |after| == |rows|
              && forall i | 0 <= i < |rows| ::
                   if Repeats(rows, rows[i], data) then IsRefreshed(rows[i], after[i], data) else after[i] == rows[i]
            else
              Inserted(rows, after, data.key, data.company, data.values,
                       if data.availableAt.Some? then data.availableAt.value else now, data.trail)
  {
    var last := Last(Group(rows, data.key));
    LatestIsLast(rows, data.key);
    forall i | 0 <= i < |rows| ensures Repeats(rows, rows[i], data) <==> IsRefresh(rows, data) && i == last.value.id {
      LastIsFlagged(rows, data.key, i);
    }
    if IsRefresh(rows, data) {
      assert Repeats(rows, rows[last.value.id], data);
    } else {
      InsertMeans(rows, data.key, data.company, data.values, AvailableAt(data, now), data.trail);
    }
  }

  /** A verification changes the verification of its row and nothing else; an unknown row changes nothing. */
  lemma VerificationMeans(rows: seq<ResultRow>, id: int, verification: Verification)
    requires Chained(rows)
    ensures var after := Apply(rows, SetVerification(id, verification));
            && |after| == |rows|
            && forall i | 0 <= i < |rows| ::
                 after[i] == if i == id then rows[i].(meta := rows[i].meta.(verification := verification)) else rows[i]
  {
  }

  /** An upgrade sets both timestamps and EXACT on its row and nothing else; an unknown row changes nothing. */
  lemma UpgradeMeans(rows: seq<ResultRow>, id: int, publishedAt: int, availableAt: int)
    requires Chained(rows)
    ensures var after := Apply(rows, UpgradeTimestamp(id, publishedAt, availableAt));
            && |after| == |rows|
            && forall i | 0 <= i < |rows| ::
                 if i == id then
                   && after[i].availableAt == availableAt
                   && after[i].meta == Trail(Some(publishedAt), Exact, rows[i].meta.verification)
                   && after[i] == rows[i].(availableAt := after[i].availableAt, meta := after[i].meta)
                 else after[i] == rows[i]
  {
  }
}
