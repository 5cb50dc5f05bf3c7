/**
 * The append-only versioned table behind `corporate_actions` and `financial_results`.
 *
 * A row's group key `K` names the fact, `V` holds the reported values that decide whether a
 * re-ingestion is a new version, `M` holds whatever else the row carries.  A row's `id` is its
 * insertion index, standing for the fresh UUID the original generates.
 */
module VersionedTable {
  import opened Basics

  datatype Row<K, V, M> = Row(
    id: nat, key: K, company: int, values: V,
    version: nat, isLatest: bool, supersedes: Option<nat>,
    availableAt: int, meta: M)

  // ---------------------------------------------------------------- queries

  /** The rows of one group, in insertion order. */
  function Group<K(==), V, M>(rows: seq<Row<K, V, M>>, k: K): (g: seq<Row<K, V, M>>)
    ensures |g| <= |rows|
  {
    if rows == [] then [] else
      var rest := Group(rows[..|rows| - 1], k);
      if rows[|rows| - 1].key == k then rest + [rows[|rows| - 1]] else rest
  }

  function IsLatest<K, V, M>(): Row<K, V, M> -> bool { (r: Row<K, V, M>) => r.isLatest }

  /** `company` is `None` for a query that does not restrict the company. */
  function VisibleAt<K, V, M>(company: Option<int>, t: int): Row<K, V, M> -> bool
  {
    (r: Row<K, V, M>) => (company == None || company == Some(r.company)) && r.availableAt <= t
  }

  function LatestOf<K, V, M>(company: int): Row<K, V, M> -> bool
  {
    (r: Row<K, V, M>) => r.company == company && r.isLatest
  }

  /** `get_latest`: the single row of the group flagged latest. */
  function GetLatest<K(==), V, M>(rows: seq<Row<K, V, M>>, k: K): Result<Option<Row<K, V, M>>, string>
  {
    OneOrNone(Filter(Group(rows, k), IsLatest()))
  }

  /** `order_by(version.desc()).limit(1)`, an earlier row winning a tie. */
  function TopVersion<K, V, M>(g: seq<Row<K, V, M>>): (top: Option<Row<K, V, M>>)
    ensures top.Some? <==> g != []
    ensures top.Some? ==> top.value in g && forall r | r in g :: r.version <= top.value.version
  {
    if g == [] then None else
      var top := TopVersion(g[..|g| - 1]);
      if top.None? || g[|g| - 1].version > top.value.version then Some(g[|g| - 1]) else top
  }

  /** What was known about fact `k` at time `t` (among the rows of one company, if given). */
  function KnownAt<K(==), V, M>(rows: seq<Row<K, V, M>>, k: K, company: Option<int>, t: int): Option<Row<K, V, M>>
  {
    TopVersion(Group(Filter(rows, VisibleAt(company, t)), k))
  }

  function Keys<K(==), V, M>(rows: seq<Row<K, V, M>>): set<K>
  {
    set i | 0 <= i < |rows| :: rows[i].key
  }

  lemma KeysOfGroups<K, V, M>(rows: seq<Row<K, V, M>>, k: K)
    ensures k in Keys(rows) <==> Group(rows, k) != []
  {
    GroupMembers(rows, k);
    if Group(rows, k) != [] {
      var r := Group(rows, k)[0];
      assert r in rows;
    }
  }

  /** One row per group: the specification of the dictionary-filling loop. */
  function TopPerGroup<K(==), V, M>(selected: seq<Row<K, V, M>>): (view: map<K, Row<K, V, M>>)
  {
    map k | k in Keys(selected) :: (KeysOfGroups(selected, k); TopVersion(Group(selected, k)).value)
  }

  function ViewAsOf<K(==), V, M>(rows: seq<Row<K, V, M>>, company: int, t: int): map<K, Row<K, V, M>>
  {
    TopPerGroup(Filter(rows, VisibleAt(Some(company), t)))
  }

  lemma TopPerGroupAt<K, V, M>(selected: seq<Row<K, V, M>>, k: K)
    ensures var top := TopVersion(Group(selected, k));
            (k in TopPerGroup(selected) <==> top.Some?) &&
            (top.Some? ==> TopPerGroup(selected)[k] == top.value)
  {
    KeysOfGroups(selected, k);
  }

  lemma TopVersionAppend<K, V, M>(selected: seq<Row<K, V, M>>, row: Row<K, V, M>, k: K)
    ensures var top := TopVersion(Group(selected, k));
            TopVersion(Group(selected + [row], k)) ==
            if row.key == k && (top.None? || row.version > top.value.version) then Some(row) else top
  {
    GroupAppend(selected, row, k);
    var g := Group(selected, k);
    assert (g + [row])[..|g|] == g;
  }

  ghost predicate HoldsTop<K, V, M>(latest: map<K, Row<K, V, M>>, selected: seq<Row<K, V, M>>, k: K)
  {
    TopVersion(Group(selected, k)) == if k in latest then Some(latest[k]) else None
  }

  ghost predicate HoldsTops<K(!new), V, M>(latest: map<K, Row<K, V, M>>, selected: seq<Row<K, V, M>>)
  {
    forall k :: HoldsTop(latest, selected, k)
  }

  lemma HoldsTopsStep<K(!new), V, M>(latest: map<K, Row<K, V, M>>, selected: seq<Row<K, V, M>>, row: Row<K, V, M>)
    requires HoldsTops(latest, selected)
    ensures var newer := row.key !in latest || row.version > latest[row.key].version;
            HoldsTops(if newer then latest[row.key := row] else latest, selected + [row])
  {
    var newer := row.key !in latest || row.version > latest[row.key].version;
    var latest' := if newer then latest[row.key := row] else latest;
    var selected' := selected + [row];
    assert HoldsTop(latest, selected, row.key);
    forall k ensures HoldsTop(latest', selected', k) {
      assert HoldsTop(latest, selected, k);
      TopVersionAppend(selected, row, k);
    }
  }

  lemma HoldsTopsDone<K(!new), V, M>(latest: map<K, Row<K, V, M>>, selected: seq<Row<K, V, M>>)
    requires HoldsTops(latest, selected)
    ensures latest == TopPerGroup(selected)
  {
    var view := TopPerGroup(selected);
    forall k ensures k in latest <==> k in view
             ensures k in latest ==> latest[k] == view[k] {
      assert HoldsTop(latest, selected, k);
      TopPerGroupAt(selected, k);
    }
    assert latest.Keys == view.Keys;
  }

  /** The loop of `list_by_company_as_of`: keep, per key, the row with the highest version. */
  method LatestPerGroup<K(==,!new), V, M>(selected: seq<Row<K, V, M>>) returns (latest: map<K, Row<K, V, M>>)
    ensures latest == TopPerGroup(selected)
  {
    latest := map[];
    for n := 0 to |selected|
      invariant HoldsTops(latest, selected[..n])
    {
      var row := selected[n];
      HoldsTopsStep(latest, selected[..n], row);
      assert selected[..n + 1] == selected[..n] + [row];
      if row.key !in latest || row.version > latest[row.key].version {
        latest := latest[row.key := row];
      }
    }
    assert selected[..|selected|] == selected;
    HoldsTopsDone(latest, selected);
  }

  // ---------------------------------------------------------------- updates

  /** Insert a row as the next version of its group and flip the flag of the row it supersedes. */
  function Insert<K(==), V, M>(rows: seq<Row<K, V, M>>, existing: Option<Row<K, V, M>>,
                               k: K, company: int, values: V, availableAt: int, meta: M): seq<Row<K, V, M>>
    requires existing.Some? ==> existing.value.id < |rows|
  {
    var version := if existing.Some? then existing.value.version + 1 else 1;
    var supersedes := if existing.Some? then Some(existing.value.id) else None;
    var row := Row(|rows|, k, company, values, version, true, supersedes, availableAt, meta);
    var added := rows + [row];
    if existing.Some? then added[existing.value.id := added[existing.value.id].(isLatest := false)] else added
  }

  /** An in-place rewrite that keeps everything but `availableAt` and `meta`. */
  predicate Rewrites<K(==), V(==), M>(r: Row<K, V, M>, r': Row<K, V, M>)
  {
    && r'.id == r.id && r'.key == r.key && r'.company == r.company && r'.values == r.values
    && r'.version == r.version && r'.isLatest == r.isLatest && r'.supersedes == r.supersedes
  }

  // -------------------------------------------------------------- invariant

  /** Versions are 1..n, each version links to the one before, only the last is flagged latest. */
  ghost predicate Chain<K, V, M>(g: seq<Row<K, V, M>>)
  {
    forall j {:trigger g[j]} {:trigger Linked(g, j)} | 0 <= j < |g| :: Linked(g, j)
  }

  ghost predicate Linked<K, V, M>(g: seq<Row<K, V, M>>, j: nat)
    requires j < |g|
  {
    && g[j].version == j + 1
    && g[j].isLatest == (j == |g| - 1)
    && (j == 0 ==> g[j].supersedes == None)
    && (j > 0 ==> g[j].supersedes == Some(g[j - 1].id))
  }

  ghost predicate Chained<K(!new), V, M>(rows: seq<Row<K, V, M>>)
  {
    && (forall i | 0 <= i < |rows| :: rows[i].id == i)
    && (forall k :: Chain(Group(rows, k)))
  }

  // ------------------------------------------------------- groups and rows

  lemma {:induction false} GroupMembers<K, V, M>(rows: seq<Row<K, V, M>>, k: K)
    ensures forall r | r in Group(rows, k) :: r in rows && r.key == k
    ensures forall r | r in rows && r.key == k :: r in Group(rows, k)
  {
    if rows != [] {
      GroupMembers(rows[..|rows| - 1], k);
      assert rows == rows[..|rows| - 1] + [rows[|rows| - 1]];
    }
  }

  lemma GroupAppend<K, V, M>(rows: seq<Row<K, V, M>>, r: Row<K, V, M>, k: K)
    ensures Group(rows + [r], k) == if r.key == k then Group(rows, k) + [r] else Group(rows, k)
  {
    assert (rows + [r])[..|rows|] == rows;
  }

  /** Where row `i` sits in its own group. */
  lemma {:induction false} GroupAt<K, V, M>(rows: seq<Row<K, V, M>>, i: nat)
    requires i < |rows|
    ensures var p := |Group(rows[..i], rows[i].key)|;
            p < |Group(rows, rows[i].key)| && Group(rows, rows[i].key)[p] == rows[i]
  {
    if i == |rows| - 1 {
    } else {
      GroupAt(rows[..|rows| - 1], i);
      assert rows[..|rows| - 1][..i] == rows[..i];
    }
  }

  lemma AppendThenUpdateLast<T>(s: seq<T>, y: T, x: T)
    ensures (s + [y])[|s| := x] == s + [x]
  {
  }

  lemma AppendThenUpdate<T>(s: seq<T>, i: nat, x: T, y: T)
    requires i < |s|
    ensures (s + [y])[i := x] == s[i := x] + [y]
  {
  }

  lemma {:induction false} GroupUpdate<K, V, M>(rows: seq<Row<K, V, M>>, i: nat, r: Row<K, V, M>, k: K)
    requires i < |rows| && r.key == rows[i].key
    ensures Group(rows[i := r], k) ==
            if r.key != k then Group(rows, k)
            else (GroupAt(rows, i); Group(rows, k)[|Group(rows[..i], k)| := r])
  {
    var n := |rows| - 1;
    var init, last := rows[..n], rows[n];
    assert rows == init + [last];
    GroupAppend(init, last, k);
    if i == n {
      assert rows[i := r] == init + [r];
      GroupAppend(init, r, k);
      AppendThenUpdateLast(Group(init, k), last, r);
    } else {
      GroupUpdate(init, i, r, k);
      assert rows[i := r] == init[i := r] + [last];
      GroupAppend(init[i := r], last, k);
      assert init[..i] == rows[..i];
      GroupAt(rows, i);
      GroupAt(init, i);
      if r.key == k {
        AppendThenUpdate(Group(init, k), |Group(rows[..i], k)|, r, last);
      }
    }
  }

  lemma {:induction false} GroupFilter<K, V, M>(rows: seq<Row<K, V, M>>, k: K, p: Row<K, V, M> -> bool)
    ensures Group(Filter(rows, p), k) == Filter(Group(rows, k), p)
  {
    if rows != [] {
      var init, last := rows[..|rows| - 1], rows[|rows| - 1];
      GroupFilter(init, k, p);
      if p(last) {
        GroupAppend(Filter(init, p), last, k);
      }
      if last.key == k {
        FilterAppend(Group(init, k), last, p);
      }
    }
  }

  ghost function Last<T>(s: seq<T>): Option<T>
  {
    if s == [] then None else Some(s[|s| - 1])
  }

  lemma LatestOfChain<K, V, M>(g: seq<Row<K, V, M>>)
    requires Chain(g)
    ensures OneOrNone(Filter(g, IsLatest())) == Ok(Last(g))
  {
    if g != [] {
      var init, last := g[..|g| - 1], g[|g| - 1];
      forall j | 0 <= j < |init| ensures !IsLatest()(init[j]) {
        assert Linked(g, j);
      }
      FilterNone(init, IsLatest());
      assert Linked(g, |g| - 1);
      assert Filter(g, IsLatest()) == [] + [last];
    }
  }

  /** In a well-formed table the row flagged latest is the last of its group, so `get_latest` never fails. */
  lemma LatestIsLast<K(!new), V, M>(rows: seq<Row<K, V, M>>, k: K)
    requires Chained(rows)
    ensures GetLatest(rows, k) == Ok(Last(Group(rows, k)))
    ensures var existing := Last(Group(rows, k));
            existing.Some? ==> existing.value.id < |rows| && rows[existing.value.id] == existing.value
  {
    var g := Group(rows, k);
    assert Chain(g);
    LatestOfChain(g);
    if g != [] {
      GroupMembers(rows, k);
      assert g[|g| - 1] in g;
    }
  }

  lemma LastPosition<K(!new), V, M>(rows: seq<Row<K, V, M>>, i: nat)
    requires Chained(rows) && i < |rows|
    ensures rows[i].version == |Group(rows[..i], rows[i].key)| + 1 <= |Group(rows, rows[i].key)|
  {
    GroupAt(rows, i);
    assert Chain(Group(rows, rows[i].key));
  }

  /** `g1` is `g` with its last row no longer latest, followed by its successor `row`. */
  ghost predicate Grown<K, V, M>(g: seq<Row<K, V, M>>, g1: seq<Row<K, V, M>>, row: Row<K, V, M>)
  {
    && |g1| == |g| + 1
    && g1[|g|] == row
    && (forall j | 0 <= j < |g| :: g1[j] == if j == |g| - 1 then g[j].(isLatest := false) else g[j])
    && row.version == |g| + 1
    && row.isLatest
    && (g == [] ==> row.supersedes == None)
    && (g != [] ==> row.supersedes == Some(g[|g| - 1].id))
  }

  /** The row `Insert` adds for group `k`. */
  ghost function NewRow<K, V, M>(rows: seq<Row<K, V, M>>, k: K, company: int, values: V,
                                 availableAt: int, meta: M): Row<K, V, M>
  {
    var last := Last(Group(rows, k));
    Row(|rows|, k, company, values,
        if last.Some? then last.value.version + 1 else 1, true,
        if last.Some? then Some(last.value.id) else None,
        availableAt, meta)
  }

  /** `Insert` flips the superseded row in place and appends the new one. */
  lemma InsertShape<K(!new), V, M>(rows: seq<Row<K, V, M>>, k: K, company: int, values: V,
                                                      availableAt: int, meta: M)
    requires Chained(rows)
    ensures var last := Last(Group(rows, k));
            (last.Some? ==> last.value.id < |rows|) &&
            var row := NewRow(rows, k, company, values, availableAt, meta);
            Insert(rows, last, k, company, values, availableAt, meta) ==
            (if last.Some? then rows[last.value.id := last.value.(isLatest := false)] else rows) + [row]
  {
    LatestIsLast(rows, k);
    var last := Last(Group(rows, k));
    if last.Some? {
      AppendThenUpdate(rows, last.value.id, last.value.(isLatest := false),
        NewRow(rows, k, company, values, availableAt, meta));
    }
  }

  /** Flipping the latest row touches only the end of its own group. */
  lemma FlipGroup<K(!new), V, M>(rows: seq<Row<K, V, M>>, k: K, k': K)
    requires Chained(rows) && Group(rows, k) != []
    ensures var g := Group(rows, k);
            var last := g[|g| - 1];
            last.id < |rows| &&
            Group(rows[last.id := last.(isLatest := false)], k') ==
            if k' == k then g[|g| - 1 := last.(isLatest := false)] else Group(rows, k')
  {
    LatestIsLast(rows, k);
    var last := Last(Group(rows, k)).value;
    GroupMembers(rows, k);
    GroupUpdate(rows, last.id, last.(isLatest := false), k');
    LastPosition(rows, last.id);
    assert Chain(Group(rows, k));
  }

  lemma FlippedGrows<K, V, M>(g: seq<Row<K, V, M>>, row: Row<K, V, M>)
    requires Chain(g) && g != []
    requires row.version == g[|g| - 1].version + 1 && row.isLatest && row.supersedes == Some(g[|g| - 1].id)
    ensures Grown(g, g[|g| - 1 := g[|g| - 1].(isLatest := false)] + [row], row)
  {
    assert Linked(g, |g| - 1);
  }

  lemma InsertIds<K(!new), V, M>(rows: seq<Row<K, V, M>>, k: K, company: int, values: V, availableAt: int, meta: M)
    requires Chained(rows)
    ensures var last := Last(Group(rows, k));
            (last.Some? ==> last.value.id < |rows|) &&
            var rows' := Insert(rows, last, k, company, values, availableAt, meta);
            |rows'| == |rows| + 1 && (forall i | 0 <= i < |rows'| :: rows'[i].id == i)
  {
    LatestIsLast(rows, k);
    InsertShape(rows, k, company, values, availableAt, meta);
  }

  /** Inserting over the latest row extends its group and leaves every other group alone. */
  lemma InsertGroup<K(!new), V, M>(rows: seq<Row<K, V, M>>, k: K, company: int, values: V,
                                                      availableAt: int, meta: M, k': K)
    requires Chained(rows)
    ensures var last := Last(Group(rows, k));
            (last.Some? ==> last.value.id < |rows|) &&
            var rows' := Insert(rows, last, k, company, values, availableAt, meta);
            |rows'| == |rows| + 1 && (forall i | 0 <= i < |rows'| :: rows'[i].id == i) &&
            if k' == k then Grown(Group(rows, k), Group(rows', k), NewRow(rows, k, company, values, availableAt, meta))
            else Group(rows', k') == Group(rows, k')
  {
    InsertShape(rows, k, company, values, availableAt, meta);
    LatestIsLast(rows, k);
    InsertIds(rows, k, company, values, availableAt, meta);
    var g := Group(rows, k);
    var row := NewRow(rows, k, company, values, availableAt, meta);
    assert Chain(g);
    if g != [] {
      var last := g[|g| - 1];
      FlipGroup(rows, k, k');
      GroupAppend(rows[last.id := last.(isLatest := false)], row, k');
      FlippedGrows(g, row);
    } else {
      GroupAppend(rows, row, k');
    }
  }
}
