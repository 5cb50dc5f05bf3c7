/** `db/repositories/corporate_action.py`: versioned upsert, point-in-time views and the dividend calendar. */
module CorporateActions {
  import opened Basics
  import opened Sorting
  import opened Clock
  import opened VersionedTable
  import opened VersionedHistory

  datatype ActionKey = ActionKey(company: int, actionType: string, eventDate: int, sourceType: string)

  /** The thirteen compared columns. */
  datatype ActionValues = ActionValues(
    exDate: Option<int>, recordDate: Option<int>, paymentDate: Option<int>, agmDate: Option<int>,
    amount: Option<real>, amountCurrency: Option<string>, ratio: Option<string>, dividendType: Option<string>,
    isConfirmed: bool, boardMeetingAnnouncedAt: Option<int>, boardMeetingDate: Option<int>,
    expectedResultDate: Option<int>, actualResultPublishedAt: Option<int>)

  /** Columns stored with a version but never compared. */
  datatype ActionExtras = ActionExtras(symbol: string, announcedDate: Option<int>, publishedAt: Option<int>)

  type ActionRow = Row<ActionKey, ActionValues, ActionExtras>

  datatype ActionCreate = ActionCreate(key: ActionKey, values: ActionValues, extras: ActionExtras)

  ghost predicate WellFormed(rows: seq<ActionRow>)
  {
    && Chained(rows)
    && (forall i | 0 <= i < |rows| :: rows[i].company == rows[i].key.company)
  }

  /** The table after one `upsert_versioned` at database time `now`. */
  ghost function Upserted(rows: seq<ActionRow>, data: ActionCreate, now: int): (rows': seq<ActionRow>)
    requires WellFormed(rows)
    ensures WellFormed(rows')
  {
    LatestIsLast(rows, data.key);
    InsertKeepsChained(rows, data.key, data.key.company, data.values, now, data.extras);
    InsertShape(rows, data.key, data.key.company, data.values, now, data.extras);
    var last := Last(Group(rows, data.key));
    if last.Some? && last.value.values == data.values then rows
    else Insert(rows, last, data.key, data.key.company, data.values, now, data.extras)
  }

  // ----------------------------------------------------------------- queries

  function ListByCompany(rows: seq<ActionRow>, company: int): seq<ActionRow>
  {
    Filter(rows, LatestOf(company))
  }

  predicate InWindow(r: ActionRow, companies: seq<int>, today: int, days: int)
  {
    && r.key.actionType == "dividend"
    && r.values.exDate.Some?
    && today <= r.values.exDate.value <= today + days
    && (companies == [] || r.company in companies)
  }

  function InCalendar(companies: seq<int>, today: int, days: int, asOf: Option<int>): ActionRow -> bool
  {
    (r: ActionRow) =>
      InWindow(r, companies, today, days) && r.isLatest && (asOf.Some? ==> r.availableAt <= asOf.value)
  }

  function ExDate(): ActionRow -> real
  {
    (r: ActionRow) => if r.values.exDate.Some? then r.values.exDate.value as real else 0.0
  }

  /** `get_dividend_calendar`; an empty company list means no restriction, `asOf` defaults to `now`. */
  function DividendCalendar(rows: seq<ActionRow>, companies: seq<int>, days: int, asOf: Option<int>,
                            now: int): seq<ActionRow>
  {
    var today := DateOf(if asOf.Some? then asOf.value else now);
    SortBy(Filter(rows, InCalendar(companies, today, days, asOf)), ExDate())
  }

  class CorporateActionRepository {
    var rows: seq<ActionRow>

    ghost predicate Valid()
      reads this
    {
      WellFormed(rows)
    }

    constructor ()
      ensures Valid() && rows == []
    {
      rows := [];
    }

    /** Identical re-ingestion is a no-op; a change is a new version that preserves the old one. */
    method UpsertVersioned(data: ActionCreate, now: int) returns (result: Result<(ActionRow, bool), string>)
      requires Valid()
      modifies this
      ensures Valid()
      ensures rows == Upserted(old(rows), data, now)
      ensures result.Ok? && Some(result.value.0) == Last(Group(rows, data.key))
      ensures result.value.0.values == data.values
      ensures result.value.1 <==> |rows| == |old(rows)| + 1
      ensures !result.value.1 <==> rows == old(rows)
    {
      LatestIsLast(rows, data.key);
      var lookup := GetLatest(rows, data.key);
      var existing := lookup.value;
      if existing.Some? && existing.value.values == data.values {
        return Ok((existing.value, false));
      }
      InsertGroup(rows, data.key, data.key.company, data.values, now, data.extras, data.key);
      InsertShape(rows, data.key, data.key.company, data.values, now, data.extras);
      var version := if existing.Some? then existing.value.version + 1 else 1;
      var supersedes := if existing.Some? then Some(existing.value.id) else None;
      var row := Row(|rows|, data.key, data.key.company, data.values, version, true, supersedes, now, data.extras);
      ghost var before := rows;
      rows := rows + [row];
      if existing.Some? {
        rows := rows[existing.value.id := rows[existing.value.id].(isLatest := false)];
      }
      assert rows == Upserted(before, data, now);
      result := Ok((row, true));
    }

    /** Point-in-time view: the highest version per (type, date, source) available by `asOf`. */
    method ListByCompanyAsOf(company: int, asOf: int) returns (latest: map<ActionKey, ActionRow>)
      requires Valid()
      ensures latest == ViewAsOf(rows, company, asOf)
    {
      var selected := Filter(rows, VisibleAt(Some(company), asOf));
      latest := LatestPerGroup(selected);
    }
  }

  // -------------------------------------------------------------- whole runs

  datatype Step = Step(data: ActionCreate, now: int)

  ghost function Run(steps: seq<Step>): (rows: seq<ActionRow>)
    ensures WellFormed(rows)
  {
    if steps == [] then [] else
      var last := steps[|steps| - 1];
      Upserted(Run(steps[..|steps| - 1]), last.data, last.now)
  }

  ghost predicate ClockRunsForward(steps: seq<Step>)
  {
    forall i, j | 0 <= i < j < |steps| :: steps[i].now <= steps[j].now
  }

  function DoneBy(t: int): Step -> bool { (s: Step) => s.now <= t }

  /** The part of a run executed by time `t`. */
  function UpTo(steps: seq<Step>, t: int): seq<Step>
  {
    Filter(steps, DoneBy(t))
  }

  function About(k: ActionKey): Step -> bool { (s: Step) => s.data.key == k }

  /** The values reported about fact `k`, in order of ingestion. */
  function ReportedAbout(steps: seq<Step>, k: ActionKey): seq<ActionValues>
  {
    Map(Filter(steps, About(k)), (s: Step) => s.data.values)
  }

  lemma HistoryStep(rows: seq<ActionRow>, d: ActionCreate, now: int, k: ActionKey, inputs: seq<ActionValues>)
    requires WellFormed(rows) && ValuesOf(Group(rows, k)) == Destutter(inputs)
    ensures ValuesOf(Group(Upserted(rows, d, now), k)) == Destutter(if d.key == k then inputs + [d.values] else inputs)
  {
    if d.key == k {
      InsertExtendsHistory(rows, k, k.company, d.values, now, d.extras, inputs);
    } else {
      InsertGroup(rows, d.key, d.key.company, d.values, now, d.extras, k);
    }
  }

  lemma ReportedStep(steps: seq<Step>, k: ActionKey)
    requires steps != []
    ensures var before, last := ReportedAbout(steps[..|steps| - 1], k), steps[|steps| - 1];
            ReportedAbout(steps, k) == if last.data.key == k then before + [last.data.values] else before
  {
  }

  /** The stored history of every fact is the reported input without consecutive repetitions. */
  lemma {:induction false} HistoryIsDestutteredInput(steps: seq<Step>, k: ActionKey)
    ensures ValuesOf(Group(Run(steps), k)) == Destutter(ReportedAbout(steps, k))
  {
    if steps != [] {
      var init, last := steps[..|steps| - 1], steps[|steps| - 1];
      HistoryIsDestutteredInput(init, k);
      ReportedStep(steps, k);
      HistoryStep(Run(init), last.data, last.now, k, ReportedAbout(init, k));
    }
  }

  lemma {:induction false} RunAvailability(steps: seq<Step>, t: int)
    requires forall i | 0 <= i < |steps| :: steps[i].now <= t
    ensures forall r | r in Run(steps) :: r.availableAt <= t
  {
    if steps != [] {
      var init, last := steps[..|steps| - 1], steps[|steps| - 1];
      RunAvailability(init, t);
      var d, rows := last.data, Run(init);
      InsertShape(rows, d.key, d.key.company, d.values, last.now, d.extras);
      LatestIsLast(rows, d.key);
    }
  }

  /** The table at the end of a run, group by group, is the table at time `t` plus later versions. */
  lemma {:induction false} PastIsKept(steps: seq<Step>, t: int, k: ActionKey)
    requires ClockRunsForward(steps)
    ensures GrewAfter(Group(Run(UpTo(steps, t)), k), Group(Run(steps), k), t)
  {
    if steps != [] {
      var init, last := steps[..|steps| - 1], steps[|steps| - 1];
      var d, rows := last.data, Run(init);
      if last.now <= t {
        FilterAll(steps, DoneBy(t));
        RunAvailability(steps, t);
        GroupMembers(Run(steps), k);
      } else {
        PastIsKept(init, t, k);
        InsertGrowsAfter(Run(UpTo(init, t)), rows, d.key, d.key.company, d.values, last.now, d.extras, k, t);
      }
    }
  }

  /** All rows of a group belong to one company, so the company filter does not change what is known. */
  lemma KnownToCompany(rows: seq<ActionRow>, k: ActionKey, t: int)
    requires WellFormed(rows)
    ensures var view := ViewAsOf(rows, k.company, t);
            (if k in view then Some(view[k]) else None) == KnownAt(rows, k, None, t)
    ensures var known := KnownAt(rows, k, None, t);
            known.Some? ==> known.value in rows && known.value.key == k && known.value.availableAt <= t
  {
    ViewRefinesGetAsOf(rows, k, k.company, t);
    KnownIsLastVisible(rows, k, None, t);
    GroupMembers(rows, k);
  }

  lemma ViewKeys(rows: seq<ActionRow>, company: int, t: int, k: ActionKey)
    requires WellFormed(rows) && k in ViewAsOf(rows, company, t)
    ensures k.company == company
  {
    var selected := Filter(rows, VisibleAt(Some(company), t));
    KeysOfGroups(selected, k);
    GroupMembers(selected, k);
    FilterMembers(rows, VisibleAt(Some(company), t));
    var r := Group(selected, k)[0];
    assert r in rows;
  }

  /** A row is listed as current exactly when it is the last of its group. */
  lemma ListedIffLast(rows: seq<ActionRow>, r: ActionRow)
    requires WellFormed(rows)
    ensures r in ListByCompany(rows, r.key.company) <==> Last(Group(rows, r.key)) == Some(r)
  {
    var g := Group(rows, r.key);
    FilterMembers(rows, LatestOf(r.key.company));
    GroupMembers(rows, r.key);
    assert Chain(g);
    if r in rows {
      var j :| 0 <= j < |g| && g[j] == r;
    }
  }

  ghost function Facts(view: map<ActionKey, ActionRow>): set<ActionRow>
  {
    set k | k in view :: view[k].(isLatest := true)
  }

  /**
   * Time travel: asked in any later state, the view as of `t` holds exactly the rows that were
   * listed as current in the state reached by the steps executed by `t`.
   */
  lemma TimeTravel(steps: seq<Step>, company: int, t: int)
    requires ClockRunsForward(steps)
    ensures Facts(ViewAsOf(Run(steps), company, t))
         == (set r | r in ListByCompany(Run(UpTo(steps, t)), company))
  {
    var past, rows := Run(UpTo(steps, t)), Run(steps);
    var view := ViewAsOf(rows, company, t);
    var listed := set r | r in ListByCompany(past, company);
    forall k | k in view ensures view[k].(isLatest := true) in listed {
      ViewKeys(rows, company, t, k);
      KnownToCompany(rows, k, t);
      PastIsKept(steps, t, k);
      TimeTravelGroup(past, rows, k, t);
      ListedIffLast(past, view[k].(isLatest := true));
    }
    forall r | r in listed ensures r in Facts(view) {
      FilterMembers(past, LatestOf(company));
      var k := r.key;
      ListedIffLast(past, r);
      PastIsKept(steps, t, k);
      TimeTravelGroup(past, rows, k, t);
      KnownToCompany(rows, k, t);
      assert k in view && view[k].(isLatest := true) == r;
    }
  }

  // ------------------------------------------------------- dividend calendar

  /**
   * The calendar as of `t` shows a row exactly when it was the known version at `t`, falls in the
   * window, and has not been revised since.  Facts revised after `t` drop out of it.
   */
  lemma CalendarShowsUnrevised(rows: seq<ActionRow>, companies: seq<int>, days: int, t: int, now: int, r: ActionRow)
    requires WellFormed(rows)
    ensures r in DividendCalendar(rows, companies, days, Some(t), now)
      <==> && KnownAt(rows, r.key, None, t) == Some(r)
           && InWindow(r, companies, DateOf(t), days)
           && Last(Group(rows, r.key)) == Some(r)
  {
    var p := InCalendar(companies, DateOf(t), days, Some(t));
    SortMembers(Filter(rows, p), ExDate());
    FilterMembers(rows, p);
    GroupMembers(rows, r.key);
    var g := Group(rows, r.key);
    KnownIsLastVisible(rows, r.key, None, t);
    LatestInChain(g, r, t);
    assert Last(g) == Some(r) ==> r in g;
  }

  lemma LatestInChain(g: seq<ActionRow>, r: ActionRow, t: int)
    requires Chain(g)
    ensures r in g ==> (r.isLatest <==> Last(g) == Some(r))
    ensures Last(g) == Some(r) ==> (r.availableAt <= t <==> Pick(g, VisibleAt(None, t)) == Some(r))
  {
    if r in g {
      var j :| 0 <= j < |g| && g[j] == r;
      assert Linked(g, j) && Linked(g, |g| - 1);
    }
    var p: ActionRow -> bool := VisibleAt(None, t);
    if Last(g) == Some(r) {
      assert p(r) == (r.availableAt <= t);
      var m := TopAt(g, p);
      assert m >= 0 && m < |g| - 1 ==> Linked(g, m);
    }
  }

  // ------------------------------------------- current rows, asked afterwards

  /**
   * The rows a query finds that wants both the latest flag and availability by `t`: the dividend
   * calendar, and the splits and bonuses behind the PE band.
   */
  function Current(p: ActionRow -> bool, t: int): ActionRow -> bool
  {
    (r: ActionRow) => p(r) && r.isLatest && r.availableAt <= t
  }

  /** The rest of the query does not look at the flag. */
  ghost predicate IgnoresFlag(p: ActionRow -> bool)
  {
    forall r: ActionRow, flag :: p(r.(isLatest := flag)) == p(r)
  }

  lemma CurrentIsLast(rows: seq<ActionRow>, p: ActionRow -> bool, t: int, r: ActionRow)
    requires WellFormed(rows) && r in Filter(rows, Current(p, t))
    ensures r in rows && Last(Group(rows, r.key)) == Some(r) && Current(p, t)(r)
  {
    FilterMembers(rows, Current(p, t));
    GroupMembers(rows, r.key);
    assert Chain(Group(rows, r.key));
    LatestInChain(Group(rows, r.key), r, t);
  }

  /** An ingestion after `t` hides the row it supersedes and nothing else. */
  lemma CurrentStep(rows: seq<ActionRow>, d: ActionCreate, now: int, p: ActionRow -> bool, t: int)
    requires WellFormed(rows) && IgnoresFlag(p) && now > t
    ensures var q, last := Current(p, t), Last(Group(rows, d.key));
            var hides := last.Some? && last.value.values != d.values && q(last.value);
            var before, after := Filter(rows, q), Filter(Upserted(rows, d, now), q);
            && (!hides ==> after == before)
            && (hides ==> |after| == |before| - 1 && forall r | r in before :: r in after <==> r != last.value)
  {
    var q, last := Current(p, t), Last(Group(rows, d.key));
    LatestIsLast(rows, d.key);
    InsertShape(rows, d.key, d.key.company, d.values, now, d.extras);
    var row := NewRow(rows, d.key, d.key.company, d.values, now, d.extras);
    if last.Some? && last.value.values != d.values {
      var e, off := last.value, last.value.(isLatest := false);
      FilterAppend(rows[e.id := off], row, q);
      FilterUpdateSize(rows, e.id, off, q);
      if q(e) {
        HidesOnly(rows, e.id, off, q);
      } else {
        FilterUpdateUnmatched(rows, e.id, off, q);
      }
    } else if last.None? {
      FilterAppend(rows, row, q);
    }
  }

  lemma HidesOnly(rows: seq<ActionRow>, i: nat, off: ActionRow, q: ActionRow -> bool)
    requires i < |rows| && q(rows[i]) && !q(off) && forall j | 0 <= j < |rows| :: rows[j].id == j
    ensures forall r | r in Filter(rows, q) :: r in Filter(rows[i := off], q) <==> r != rows[i]
  {
    FilterMembers(rows, q);
    FilterMembers(rows[i := off], q);
    forall r | r in Filter(rows, q) ensures r in Filter(rows[i := off], q) <==> r != rows[i] {
      var j :| 0 <= j < |rows| && rows[j] == r;
      assert j != i ==> rows[i := off][j] == r;
    }
  }

  /** Some step after `t` reports the row's fact with other values. */
  ghost predicate Revised(steps: seq<Step>, t: int, r: ActionRow)
  {
    exists n | 0 <= n < |steps| :: steps[n].now > t && steps[n].data.key == r.key && steps[n].data.values != r.values
  }

  lemma RevisedAppend(steps: seq<Step>, s: Step, t: int, r: ActionRow)
    ensures Revised(steps + [s], t, r)
       <==> Revised(steps, t, r) || (s.now > t && s.data.key == r.key && s.data.values != r.values)
  {
    var all := steps + [s];
    assert all[|steps|] == s;
    if Revised(steps, t, r) {
      var n :| 0 <= n < |steps| && steps[n].now > t && steps[n].data.key == r.key && steps[n].data.values != r.values;
      assert all[n] == steps[n];
    }
  }

  ghost predicate Replays(past: seq<ActionRow>, present: seq<ActionRow>, steps: seq<Step>, t: int)
  {
    && (forall r | r in past :: r in present <==> !Revised(steps, t, r))
    && (present == past || |present| < |past|)
    && (present == past <==> forall r | r in past :: !Revised(steps, t, r))
  }

  /** One step keeps the count of revisions and of rows found in step, row by row. */
  lemma RowReplays(rows: seq<ActionRow>, steps: seq<Step>, s: Step, p: ActionRow -> bool, t: int, r: ActionRow)
    requires WellFormed(rows) && IgnoresFlag(p) && s.now > t
    requires r in Filter(rows, Current(p, t)) <==> !Revised(steps, t, r)
    ensures r in Filter(Upserted(rows, s.data, s.now), Current(p, t)) <==> !Revised(steps + [s], t, r)
  {
    RevisedAppend(steps, s, t, r);
    if r in Filter(rows, Current(p, t)) {
      CurrentIsLast(rows, p, t, r);
      CurrentStep(rows, s.data, s.now, p, t);
      if s.data.key != r.key {
        LastsDiffer(rows, s.data.key, r);
      }
    } else {
      HidesNone(rows, s, p, t, r);
    }
  }

  lemma LastsDiffer(rows: seq<ActionRow>, k: ActionKey, r: ActionRow)
    requires r.key != k
    ensures Last(Group(rows, k)) != Some(r)
  {
    GroupMembers(rows, k);
  }

  lemma ReplaysStep(past: seq<ActionRow>, rows: seq<ActionRow>, steps: seq<Step>, s: Step, p: ActionRow -> bool, t: int)
    requires WellFormed(rows) && IgnoresFlag(p) && s.now > t
    requires Replays(past, Filter(rows, Current(p, t)), steps, t)
    ensures Replays(past, Filter(Upserted(rows, s.data, s.now), Current(p, t)), steps + [s], t)
  {
    var before, after := Filter(rows, Current(p, t)), Filter(Upserted(rows, s.data, s.now), Current(p, t));
    CurrentStep(rows, s.data, s.now, p, t);
    forall r | r in past ensures r in after <==> !Revised(steps + [s], t, r) {
      RowReplays(rows, steps, s, p, t, r);
    }
    if after != before && before == past {
      LatestIsLast(rows, s.data.key);
      FilterMembers(rows, Current(p, t));
      var e := Last(Group(rows, s.data.key)).value;
      assert e in past && e !in after;
    } else if before != past {
      var r :| r in past && Revised(steps, t, r);
      RevisedAppend(steps, s, t, r);
    }
  }

  /** A row not found before is not found after. */
  lemma HidesNone(rows: seq<ActionRow>, s: Step, p: ActionRow -> bool, t: int, r: ActionRow)
    requires WellFormed(rows) && IgnoresFlag(p) && s.now > t
    ensures r in Filter(Upserted(rows, s.data, s.now), Current(p, t)) ==> r in Filter(rows, Current(p, t))
  {
    var q, last, d := Current(p, t), Last(Group(rows, s.data.key)), s.data;
    LatestIsLast(rows, d.key);
    InsertShape(rows, d.key, d.key.company, d.values, s.now, d.extras);
    FilterMembers(rows, q);
    FilterMembers(Upserted(rows, d, s.now), q);
  }

  /**
   * Asked for `t` in any later state, such a query still finds a row it found at `t` exactly when no
   * later step revised it, and its whole answer is the same exactly when no row of it was revised.
   */
  lemma {:induction false} CurrentReplaysIff(steps: seq<Step>, p: ActionRow -> bool, t: int)
    requires ClockRunsForward(steps) && IgnoresFlag(p)
    ensures Replays(Filter(Run(UpTo(steps, t)), Current(p, t)), Filter(Run(steps), Current(p, t)), steps, t)
  {
    if steps == [] || steps[|steps| - 1].now <= t {
      NothingLater(steps, Filter(Run(steps), Current(p, t)), t);
    } else {
      CurrentReplaysIff(steps[..|steps| - 1], p, t);
      LaterReplays(steps, p, t);
    }
  }

  lemma LaterReplays(steps: seq<Step>, p: ActionRow -> bool, t: int)
    requires steps != [] && IgnoresFlag(p) && steps[|steps| - 1].now > t
    requires var init := steps[..|steps| - 1];
             Replays(Filter(Run(UpTo(init, t)), Current(p, t)), Filter(Run(init), Current(p, t)), init, t)
    ensures Replays(Filter(Run(UpTo(steps, t)), Current(p, t)), Filter(Run(steps), Current(p, t)), steps, t)
  {
    LaterStep(steps, t);
    ReplaysNext(Filter(Run(UpTo(steps[..|steps| - 1], t)), Current(p, t)), Run(steps[..|steps| - 1]), steps, p, t);
  }

  lemma ReplaysNext(past: seq<ActionRow>, rows: seq<ActionRow>, steps: seq<Step>, p: ActionRow -> bool, t: int)
    requires steps != [] && WellFormed(rows) && IgnoresFlag(p) && steps[|steps| - 1].now > t
    requires Replays(past, Filter(rows, Current(p, t)), steps[..|steps| - 1], t)
    ensures var last := steps[|steps| - 1];
            Replays(past, Filter(Upserted(rows, last.data, last.now), Current(p, t)), steps, t)
  {
    var init, last := steps[..|steps| - 1], steps[|steps| - 1];
    assert steps == init + [last];
    ReplaysStep(past, rows, init, last, p, t);
  }

  lemma NothingLater(steps: seq<Step>, found: seq<ActionRow>, t: int)
    requires ClockRunsForward(steps) && (steps == [] || steps[|steps| - 1].now <= t)
    ensures UpTo(steps, t) == steps && Replays(found, found, steps, t)
  {
    assert forall n | 0 <= n < |steps| :: steps[n].now <= t;
    FilterAll(steps, DoneBy(t));
  }

  lemma LaterStep(steps: seq<Step>, t: int)
    requires steps != [] && steps[|steps| - 1].now > t
    ensures var init, last := steps[..|steps| - 1], steps[|steps| - 1];
            UpTo(steps, t) == UpTo(init, t) && Run(steps) == Upserted(Run(init), last.data, last.now)
  {
  }

  function Windowed(companies: seq<int>, today: int, days: int): ActionRow -> bool
  {
    (r: ActionRow) => InWindow(r, companies, today, days)
  }

  /** Over a whole run, what the calendar showed at `t` is still shown for `t` exactly when no later step revised it. */
  lemma CalendarRemembersIff(steps: seq<Step>, companies: seq<int>, days: int, t: int, now: int, r: ActionRow)
    requires ClockRunsForward(steps)
    requires r in DividendCalendar(Run(UpTo(steps, t)), companies, days, Some(t), now)
    ensures r in DividendCalendar(Run(steps), companies, days, Some(t), now) <==> !Revised(steps, t, r)
  {
    var p := Windowed(companies, DateOf(t), days);
    CurrentReplaysIff(steps, p, t);
    CalendarIsCurrent(Run(UpTo(steps, t)), companies, days, t, now, r);
    CalendarIsCurrent(Run(steps), companies, days, t, now, r);
  }

  lemma CalendarIsCurrent(rows: seq<ActionRow>, companies: seq<int>, days: int, t: int, now: int, r: ActionRow)
    ensures r in DividendCalendar(rows, companies, days, Some(t), now)
       <==> r in Filter(rows, Current(Windowed(companies, DateOf(t), days), t))
  {
    var asked := InCalendar(companies, DateOf(t), days, Some(t));
    assert DividendCalendar(rows, companies, days, Some(t), now) == SortBy(Filter(rows, asked), ExDate());
    SortMembers(Filter(rows, asked), ExDate());
    FilterCongruence(rows, asked, Current(Windowed(companies, DateOf(t), days), t));
  }

  function SplitOrBonus(company: int): ActionRow -> bool
  {
    (r: ActionRow) => r.company == company && r.key.actionType in {"split", "bonus"}
  }

  /** The splits and bonuses `historical_pe_band.py` reads for `t`. */
  function ShareActionsAsOf(rows: seq<ActionRow>, company: int, t: int): seq<ActionRow>
  {
    Filter(rows, Current(SplitOrBonus(company), t))
  }

  /** Read for `t` in any later state they are the same exactly when no later step revised one of them. */
  lemma ShareActionsReplayIff(steps: seq<Step>, company: int, t: int)
    requires ClockRunsForward(steps)
    ensures var past := ShareActionsAsOf(Run(UpTo(steps, t)), company, t);
            ShareActionsAsOf(Run(steps), company, t) == past <==> forall r | r in past :: !Revised(steps, t, r)
  {
    CurrentReplaysIff(steps, SplitOrBonus(company), t);
  }

  function FirstRow(s: Step): ActionRow
  {
    Row(0, s.data.key, s.data.key.company, s.data.values, 1, true, None, s.now, s.data.extras)
  }

  lemma FirstIngestion(s: Step)
    ensures Run([s]) == [FirstRow(s)]
    ensures Group(Run([s]), s.data.key) == Run([s])
  {
    var one := [s];
    assert one[..|one| - 1] == [];
    var none: seq<ActionRow> := [];
    assert Run(one[..|one| - 1]) == none;
    assert Run(one) == Upserted(none, s.data, s.now);
  }

  lemma OnlyEarly(early: Step, late: Step, t: int)
    requires early.now <= t < late.now
    ensures UpTo([early, late], t) == [early]
  {
    assert [early, late] == [early] + [late];
    FilterAppend([early], late, DoneBy(t));
    FilterAll([early], DoneBy(t));
  }

  /** A dividend known on the first day, revised on the tenth: as of the fifth day it is missing. */
  lemma CalendarForgetsWitness() returns (early: Step, late: Step, t: int)
    ensures early.now <= t < late.now
    ensures FirstRow(early) in DividendCalendar(Run(UpTo([early, late], t)), [], 30, Some(t), t)
    ensures FirstRow(early) !in DividendCalendar(Run([early, late]), [], 30, Some(t), t)
  {
    var k := ActionKey(1, "dividend", 20, "nse");
    var v := ActionValues(Some(20), None, None, None, Some(1.0), None, None, None, true, None, None, None, None);
    var revised := v.(amount := Some(2.0));
    early := Step(ActionCreate(k, v, ActionExtras("BEL", None, None)), MICROS_PER_DAY);
    late := Step(ActionCreate(k, revised, ActionExtras("BEL", None, None)), 10 * MICROS_PER_DAY);
    t := 5 * MICROS_PER_DAY;
    assert v.amount != revised.amount && DateOf(t) == 5;
    OnlyEarly(early, late, t);
    FirstIngestion(early);
    CalendarOfOne(Run([early]), FirstRow(early), t);
    assert Revised([early, late], t, FirstRow(early)) by {
      assert [early, late][1] == late;
    }
    CalendarRemembersIff([early, late], [], 30, t, t, FirstRow(early));
  }

  lemma CalendarOfOne(rows: seq<ActionRow>, r: ActionRow, t: int)
    requires rows == [r] && r.isLatest && r.availableAt <= t && InWindow(r, [], DateOf(t), 30)
    ensures r in DividendCalendar(rows, [], 30, Some(t), t)
  {
    FilterAll(rows, InCalendar([], DateOf(t), 30, Some(t)));
    SortMembers(rows, ExDate());
  }

  /** A split read as 1:2 on the first day and corrected to 1:5 on the tenth: asked for the fifth day, it is gone. */
  lemma SplitForgottenWitness() returns (early: Step, late: Step, t: int)
    ensures early.now <= t < late.now
    ensures FirstRow(early) in ShareActionsAsOf(Run(UpTo([early, late], t)), 1, t)
    ensures FirstRow(early) !in ShareActionsAsOf(Run([early, late]), 1, t)
  {
    var k := ActionKey(1, "split", 20, "nse");
    var v := ActionValues(None, None, None, None, None, None, Some("1:2"), None, true, None, None, None, None);
    var corrected := v.(ratio := Some("1:5"));
    early := Step(ActionCreate(k, v, ActionExtras("BEL", None, None)), MICROS_PER_DAY);
    late := Step(ActionCreate(k, corrected, ActionExtras("BEL", None, None)), 10 * MICROS_PER_DAY);
    t := 5 * MICROS_PER_DAY;
    assert "1:2"[2] != "1:5"[2];
    assert v.ratio != corrected.ratio;
    OnlyEarly(early, late, t);
    FirstIngestion(early);
    FilterAll(Run([early]), Current(SplitOrBonus(1), t));
    assert Revised([early, late], t, FirstRow(early)) by {
      assert [early, late][1] == late;
    }
    CurrentReplaysIff([early, late], SplitOrBonus(1), t);
  }

  // -------------------------------------------- what the operations mean

  /**
   * An ingestion changes nothing when the flagged row of the fact has its values, else it inserts the
   * next version, available now.
   */
  lemma UpsertMeans(rows: seq<ActionRow>, d: ActionCreate, now: int)
    requires WellFormed(rows)
    ensures if exists e :: e in rows && e.key == d.key && e.isLatest && e.values == d.values
            then Upserted(rows, d, now) == rows
            else Inserted(rows, Upserted(rows, d, now), d.key, d.key.company, d.values, now, d.extras)
  {
    var last := Last(Group(rows, d.key));
    LatestIsLast(rows, d.key);
    InsertMeans(rows, d.key, d.key.company, d.values, now, d.extras);
    forall e | e in rows && e.key == d.key && e.isLatest ensures last == Some(e) {
      FlaggedIsLast(rows, d.key, e);
    }
    if last.Some? && last.value.values == d.values {
      LastIsFlagged(rows, d.key, last.value.id);
      assert last.value in rows;
    }
  }

  /** A company's listing is its flagged rows. */
  lemma ListMeans(rows: seq<ActionRow>, company: int, r: ActionRow)
    ensures r in ListByCompany(rows, company) <==> r in rows && r.company == company && r.isLatest
  {
    FilterMembers(rows, LatestOf(company));
  }

  /**
   * The calendar holds the flagged dividends of the companies asked for, or of all, with an ex-date
   * from the day asked about to `days` later, known by then if an instant was given.
   */
  lemma CalendarMeans(rows: seq<ActionRow>, companies: seq<int>, days: int, asOf: Option<int>, now: int, r: ActionRow)
    ensures var day := DateOf(if asOf.Some? then asOf.value else now);
            r in DividendCalendar(rows, companies, days, asOf, now) <==>
              && r in rows && r.isLatest && r.key.actionType == "dividend"
              && (companies == [] || r.company in companies)
              && r.values.exDate.Some? && day <= r.values.exDate.value && r.values.exDate.value <= day + days
              && (asOf.Some? ==> r.availableAt <= asOf.value)
  {
    var p := InCalendar(companies, DateOf(if asOf.Some? then asOf.value else now), days, asOf);
    FilterMembers(rows, p);
    SortMembers(Filter(rows, p), ExDate());
    assert p(r) <==> InWindow(r, companies, DateOf(if asOf.Some? then asOf.value else now), days) && r.isLatest
                     && (asOf.Some? ==> r.availableAt <= asOf.value);
  }

  /** It is in order of ex-date. */
  lemma CalendarInOrder(rows: seq<ActionRow>, companies: seq<int>, days: int, asOf: Option<int>, now: int, i: nat,
                        j: nat)
    requires i < j < |DividendCalendar(rows, companies, days, asOf, now)|
    ensures var shown := DividendCalendar(rows, companies, days, asOf, now);
            && shown[i].values.exDate.Some? && shown[j].values.exDate.Some?
            && shown[i].values.exDate.value <= shown[j].values.exDate.value
  {
    var shown := DividendCalendar(rows, companies, days, asOf, now);
    var p := InCalendar(companies, DateOf(if asOf.Some? then asOf.value else now), days, asOf);
    SortSorts(Filter(rows, p), ExDate());
    assert shown[i] in shown && shown[j] in shown;
    CalendarMeans(rows, companies, days, asOf, now, shown[i]);
    CalendarMeans(rows, companies, days, asOf, now, shown[j]);
    assert ExDate()(shown[i]) <= ExDate()(shown[j]);
  }
}
