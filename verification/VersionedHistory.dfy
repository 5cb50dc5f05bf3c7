/**
 * What the versioned table means: which row a point-in-time query selects, what each kind of write
 * does to a group's history, and how the past relates to the present.
 */
module VersionedHistory {
  import opened Basics
  import opened VersionedTable

  // ------------------------------------------------- writes keep the chain

  lemma GrownChain<K, V, M>(g: seq<Row<K, V, M>>, g1: seq<Row<K, V, M>>, row: Row<K, V, M>)
    requires Chain(g) && Grown(g, g1, row)
    ensures Chain(g1)
  {
    forall j | 0 <= j < |g1| ensures Linked(g1, j) {
      assert 0 < j ==> g1[j - 1].id == g[j - 1].id;
      if j < |g| {
        assert Linked(g, j);
        assert g1[j].supersedes == g[j].supersedes;
      }
    }
  }

  lemma InsertKeepsChained<K(!new), V, M>(rows: seq<Row<K, V, M>>, k: K, company: int, values: V,
                                                             availableAt: int, meta: M)
    requires Chained(rows)
    ensures var last := Last(Group(rows, k));
            (last.Some? ==> last.value.id < |rows|) &&
            Chained(Insert(rows, last, k, company, values, availableAt, meta))
  {
    LatestIsLast(rows, k);
    var rows' := Insert(rows, Last(Group(rows, k)), k, company, values, availableAt, meta);
    InsertGroup(rows, k, company, values, availableAt, meta, k);
    forall k' ensures Chain(Group(rows', k')) {
      assert Chain(Group(rows, k'));
      InsertGroup(rows, k, company, values, availableAt, meta, k');
      if k' == k {
        GrownChain(Group(rows, k), Group(rows', k), NewRow(rows, k, company, values, availableAt, meta));
      }
    }
  }

  lemma RewriteGroup<K(!new), V, M>(rows: seq<Row<K, V, M>>, i: nat, r: Row<K, V, M>, k: K)
    requires Chained(rows) && i < |rows| && Rewrites(rows[i], r)
    ensures var g := Group(rows, k);
            (r.key == k ==> 1 <= r.version <= |g| && g[r.version - 1] == rows[i]) &&
            Group(rows[i := r], k) == if r.key == k then g[r.version - 1 := r] else g
  {
    GroupUpdate(rows, i, r, k);
    GroupAt(rows, i);
    LastPosition(rows, i);
  }

  lemma RewriteChain<K, V, M>(g: seq<Row<K, V, M>>, j: nat, r: Row<K, V, M>)
    requires Chain(g) && j < |g| && Rewrites(g[j], r)
    ensures Chain(g[j := r])
  {
    var g1 := g[j := r];
    forall m | 0 <= m < |g1| ensures Linked(g1, m) {
      assert Linked(g, m);
      assert 0 < m ==> g1[m - 1].id == g[m - 1].id;
    }
  }

  lemma RewriteKeepsChained<K(!new), V, M>(rows: seq<Row<K, V, M>>, i: nat, r: Row<K, V, M>)
    requires Chained(rows) && i < |rows| && Rewrites(rows[i], r)
    ensures Chained(rows[i := r])
  {
    var rows' := rows[i := r];
    forall k ensures Chain(Group(rows', k)) {
      RewriteGroup(rows, i, r, k);
      assert Chain(Group(rows, k));
      if r.key == k {
        RewriteChain(Group(rows, k), r.version - 1, r);
      }
    }
  }

  // ---------------------------------------------------- history of values

  function ValuesOf<K, V, M>(g: seq<Row<K, V, M>>): (vs: seq<V>)
    ensures |vs| == |g|
  {
    Map(g, (r: Row<K, V, M>) => r.values)
  }

  /** `s` without the elements that repeat their predecessor. */
  function Destutter<V(==)>(s: seq<V>): (d: seq<V>)
    ensures s == [] <==> d == []
    ensures s != [] ==> d[|d| - 1] == s[|s| - 1]
    ensures forall i | 0 < i < |d| :: d[i - 1] != d[i]
  {
    if |s| <= 1 then s else
      var rest := Destutter(s[..|s| - 1]);
      if s[|s| - 1] == s[|s| - 2] then rest else rest + [s[|s| - 1]]
  }

  lemma DestutterAppend<V>(s: seq<V>, v: V)
    ensures Destutter(s + [v]) ==
            if s != [] && s[|s| - 1] == v then Destutter(s) else Destutter(s) + [v]
  {
    assert (s + [v])[..|s|] == s;
  }

  /** Repeating the value a history ends with adds nothing to the destuttered input; any other value is added. */
  lemma ReportStep<K, V, M>(g: seq<Row<K, V, M>>, inputs: seq<V>, v: V)
    requires ValuesOf(g) == Destutter(inputs)
    ensures Destutter(inputs + [v]) ==
            if g != [] && g[|g| - 1].values == v then ValuesOf(g) else ValuesOf(g) + [v]
  {
    DestutterAppend(inputs, v);
    if g != [] {
      assert ValuesOf(g)[|g| - 1] == g[|g| - 1].values;
    }
  }

  lemma GrownValues<K, V, M>(g: seq<Row<K, V, M>>, g1: seq<Row<K, V, M>>, row: Row<K, V, M>)
    requires Grown(g, g1, row)
    ensures ValuesOf(g1) == ValuesOf(g) + [row.values]
  {
  }

  /** Re-ingesting `values`: a group's history becomes the destuttered input including them. */
  lemma InsertExtendsHistory<K(!new), V, M>(
    rows: seq<Row<K, V, M>>, k: K, company: int, values: V, availableAt: int, meta: M, inputs: seq<V>)
    requires Chained(rows)
    requires ValuesOf(Group(rows, k)) == Destutter(inputs)
    ensures var last := Last(Group(rows, k));
            (last.Some? ==> last.value.id < |rows|) &&
            var rows' := if last.Some? && last.value.values == values then rows
                         else Insert(rows, last, k, company, values, availableAt, meta);
            ValuesOf(Group(rows', k)) == Destutter(inputs + [values])
  {
    LatestIsLast(rows, k);
    var g, last := Group(rows, k), Last(Group(rows, k));
    ReportStep(g, inputs, values);
    InsertGroup(rows, k, company, values, availableAt, meta, k);
    if last.None? || last.value.values != values {
      GrownValues(g, Group(Insert(rows, last, k, company, values, availableAt, meta), k),
                  NewRow(rows, k, company, values, availableAt, meta));
    }
  }

  lemma ValuesUpdate<K, V, M>(g: seq<Row<K, V, M>>, j: nat, r: Row<K, V, M>)
    requires j < |g| && r.values == g[j].values
    ensures ValuesOf(g[j := r]) == ValuesOf(g)
  {
  }

  /** An in-place rewrite changes no reported value anywhere. */
  lemma RewriteKeepsValues<K(!new), V, M>(rows: seq<Row<K, V, M>>, i: nat, r: Row<K, V, M>, k: K)
    requires Chained(rows) && i < |rows| && Rewrites(rows[i], r)
    ensures ValuesOf(Group(rows[i := r], k)) == ValuesOf(Group(rows, k))
  {
    RewriteGroup(rows, i, r, k);
    if r.key == k {
      ValuesUpdate(Group(rows, k), r.version - 1, r);
    }
  }

  // -------------------------------------------- which row a query selects

  /** Position of the last row of the group that `p` lets through, or -1. */
  ghost function TopAt<K, V, M>(g: seq<Row<K, V, M>>, p: Row<K, V, M> -> bool): (j: int)
    ensures -1 <= j < |g|
    ensures j >= 0 ==> p(g[j])
    ensures forall i | j < i < |g| :: !p(g[i])
  {
    if g == [] then -1
    else if p(g[|g| - 1]) then |g| - 1
    else TopAt(g[..|g| - 1], p)
  }

  lemma {:induction false} TopIsLastVisible<K, V, M>(g: seq<Row<K, V, M>>, p: Row<K, V, M> -> bool)
    requires forall j | 0 <= j < |g| :: g[j].version == j + 1
    ensures TopVersion(Filter(g, p)) == Pick(g, p)
  {
    if g != [] {
      var init, last := g[..|g| - 1], g[|g| - 1];
      TopIsLastVisible(init, p);
      if p(last) {
        var f := Filter(init, p);
        assert (f + [last])[..|f|] == f;
      }
    }
  }

  ghost function Pick<K, V, M>(g: seq<Row<K, V, M>>, p: Row<K, V, M> -> bool): Option<Row<K, V, M>>
  {
    if TopAt(g, p) < 0 then None else Some(g[TopAt(g, p)])
  }

  /** On a well-formed table a point-in-time query answers with the last visible row of the group. */
  lemma KnownIsLastVisible<K(!new), V, M>(rows: seq<Row<K, V, M>>, k: K, company: Option<int>, t: int)
    requires Chained(rows)
    ensures KnownAt(rows, k, company, t) == Pick(Group(rows, k), VisibleAt(company, t))
    ensures Chain(Group(rows, k))
  {
    assert Chain(Group(rows, k));
    GroupFilter(rows, k, VisibleAt(company, t));
    TopIsLastVisible(Group(rows, k), VisibleAt(company, t));
  }

  /** The same row with the same reported values; provenance and the latest flag may differ. */
  ghost predicate SameFact<K, V, M>(a: Option<Row<K, V, M>>, b: Option<Row<K, V, M>>)
  {
    match (a, b)
    case (None, None) => true
    case (Some(x), Some(y)) =>
      x.id == y.id && x.key == y.key && x.version == y.version && x.values == y.values
    case _ => false
  }

  lemma GrownPick<K, V, M>(g: seq<Row<K, V, M>>, g1: seq<Row<K, V, M>>, row: Row<K, V, M>, seen: Option<int>, t: int)
    requires Chain(g) && Grown(g, g1, row)
    ensures var p := VisibleAt(seen, t);
            SameFact(Pick(g, p), Pick(g1, p)) <==> !VisibleAt(seen, t)(row)
  {
    var p: Row<K, V, M> -> bool := VisibleAt(seen, t);
    assert forall j | 0 <= j < |g| :: p(g1[j]) == p(g[j]);
    assert TopAt(g1, p) == if p(row) then |g| else TopAt(g, p);
  }

  /** Exactly which insertions a point-in-time query at `t` notices: those visible at `t`. */
  lemma InsertNoticedIff<K(!new), V, M>(
    rows: seq<Row<K, V, M>>, k: K, company: int, values: V, availableAt: int, meta: M,
    k': K, seen: Option<int>, t: int)
    requires Chained(rows)
    ensures var last := Last(Group(rows, k));
            (last.Some? ==> last.value.id < |rows|) &&
            var rows' := Insert(rows, last, k, company, values, availableAt, meta);
            SameFact(KnownAt(rows, k', seen, t), KnownAt(rows', k', seen, t))
            <==> !(k' == k && availableAt <= t && (seen == None || seen == Some(company)))
  {
    LatestIsLast(rows, k);
    InsertKeepsChained(rows, k, company, values, availableAt, meta);
    if k' == k {
      InsertNoticedInGroup(rows, k, company, values, availableAt, meta, seen, t);
    } else {
      var rows' := Insert(rows, Last(Group(rows, k)), k, company, values, availableAt, meta);
      KnownIsLastVisible(rows, k', seen, t);
      KnownIsLastVisible(rows', k', seen, t);
      InsertGroup(rows, k, company, values, availableAt, meta, k');
    }
  }

  lemma InsertNoticedInGroup<K(!new), V, M>(
    rows: seq<Row<K, V, M>>, k: K, company: int, values: V, availableAt: int, meta: M, seen: Option<int>, t: int)
    requires Chained(rows)
    ensures var last := Last(Group(rows, k));
            (last.Some? ==> last.value.id < |rows|) &&
            var rows' := Insert(rows, last, k, company, values, availableAt, meta);
            SameFact(KnownAt(rows, k, seen, t), KnownAt(rows', k, seen, t))
            <==> !(availableAt <= t && (seen == None || seen == Some(company)))
  {
    LatestIsLast(rows, k);
    InsertKeepsChained(rows, k, company, values, availableAt, meta);
    var rows' := Insert(rows, Last(Group(rows, k)), k, company, values, availableAt, meta);
    KnownIsLastVisible(rows, k, seen, t);
    KnownIsLastVisible(rows', k, seen, t);
    InsertGroup(rows, k, company, values, availableAt, meta, k);
    GrownPick(Group(rows, k), Group(rows', k), NewRow(rows, k, company, values, availableAt, meta), seen, t);
  }

  /** Changing one row moves the last visible position exactly when its own visibility decides it. */
  lemma RewritePick<K, V, M>(g: seq<Row<K, V, M>>, j: nat, r: Row<K, V, M>, p: Row<K, V, M> -> bool)
    requires Chain(g) && j < |g| && Rewrites(g[j], r)
    ensures var before := Pick(g, p);
            SameFact(before, Pick(g[j := r], p))
            <==> !(p(g[j]) != p(r) && (before.None? || before.value.version <= j + 1))
  {
    var g1 := g[j := r];
    var before, after := TopAt(g, p), TopAt(g1, p);
    assert forall m | 0 <= m < |g| && m != j :: g1[m] == g[m];
    assert g1[j] == r;
    assert before > j ==> after == before;
    assert after > j ==> after == before;
    assert before >= 0 ==> g[before].version == before + 1;
    assert after >= 0 ==> g1[after].version == after + 1;
  }

  /**
   * Exactly which in-place rewrites a query at `t` notices: those that move a row across `t`
   * while no row of a higher version is visible at `t`.
   */
  lemma RewriteNoticedIff<K(!new), V, M>(
    rows: seq<Row<K, V, M>>, i: nat, r: Row<K, V, M>, k: K, seen: Option<int>, t: int)
    requires Chained(rows) && i < |rows| && Rewrites(rows[i], r)
    ensures var p := VisibleAt(seen, t);
            var before := KnownAt(rows, k, seen, t);
            SameFact(before, KnownAt(rows[i := r], k, seen, t))
            <==> !(r.key == k && p(rows[i]) != p(r) && (before.None? || before.value.version <= r.version))
  {
    RewriteKeepsChained(rows, i, r);
    var rows' := rows[i := r];
    KnownIsLastVisible(rows, k, seen, t);
    KnownIsLastVisible(rows', k, seen, t);
    RewriteGroup(rows, i, r, k);
    if r.key == k {
      RewritePick(Group(rows, k), r.version - 1, r, VisibleAt(seen, t));
    }
  }

  // ------------------------------------------------------ views over time

  lemma CompanyPick<K, V, M>(g: seq<Row<K, V, M>>, company: int, t: int)
    requires Chain(g)
    ensures var known := Pick(g, VisibleAt(None, t));
            Pick(g, VisibleAt(Some(company), t)) == known <==> known.None? || known.value.company == company
  {
    var any: Row<K, V, M> -> bool := VisibleAt(None, t);
    var own: Row<K, V, M> -> bool := VisibleAt(Some(company), t);
    assert forall j | 0 <= j < |g| :: own(g[j]) ==> any(g[j]);
  }

  /** The row a view holds for a group is what `get_as_of` answers, exactly when that row is the company's own. */
  lemma ViewRefinesGetAsOf<K(!new), V, M>(rows: seq<Row<K, V, M>>, k: K, company: int, t: int)
    requires Chained(rows)
    ensures var view := ViewAsOf(rows, company, t);
            var known := KnownAt(rows, k, None, t);
            (if k in view then Some(view[k]) else None) == known
            <==> known.None? || known.value.company == company
  {
    TopPerGroupAt(Filter(rows, VisibleAt(Some(company), t)), k);
    KnownIsLastVisible(rows, k, None, t);
    KnownIsLastVisible(rows, k, Some(company), t);
    CompanyPick(Group(rows, k), company, t);
  }

  /** Knowledge only grows: a later query sees the group at the same or a higher version. */
  lemma KnownGrows<K(!new), V, M>(rows: seq<Row<K, V, M>>, k: K, seen: Option<int>, t: int, u: int)
    requires Chained(rows) && t <= u
    ensures var early, late := KnownAt(rows, k, seen, t), KnownAt(rows, k, seen, u);
            early.Some? ==> late.Some? && early.value.version <= late.value.version
  {
    KnownIsLastVisible(rows, k, seen, t);
    KnownIsLastVisible(rows, k, seen, u);
  }

  /** Once `t` has passed every `availableAt`, the query answers with the row flagged latest. */
  lemma KnownCatchesUp<K(!new), V, M>(rows: seq<Row<K, V, M>>, k: K, t: int)
    requires Chained(rows)
    requires forall r | r in rows :: r.availableAt <= t
    ensures Ok(KnownAt(rows, k, None, t)) == GetLatest(rows, k)
  {
    LatestIsLast(rows, k);
    KnownIsLastVisible(rows, k, None, t);
    GroupMembers(rows, k);
  }

  /** From then on a company view holds the row flagged latest, exactly when that row is the company's own. */
  lemma ViewCatchesUp<K(!new), V, M>(rows: seq<Row<K, V, M>>, k: K, company: int, t: int)
    requires Chained(rows)
    requires forall r | r in rows :: r.availableAt <= t
    ensures var view := ViewAsOf(rows, company, t);
            var latest := GetLatest(rows, k);
            && latest.Ok?
            && ((if k in view then Some(view[k]) else None) == latest.value
                <==> latest.value.None? || latest.value.value.company == company)
  {
    KnownCatchesUp(rows, k, t);
    ViewRefinesGetAsOf(rows, k, company, t);
  }

  /**
   * A query that wants the latest flag as well as availability by `t`, and whatever else `p` asks,
   * finds a row of the group exactly when what was known at `t` is still the last version and
   * satisfies `p`; once revised, the fact is missing as of `t`.
   */
  lemma FlagHidesIff<K(!new), V, M>(rows: seq<Row<K, V, M>>, k: K, p: Row<K, V, M> -> bool, t: int)
    requires Chained(rows)
    ensures (exists r | r in rows :: r.key == k && p(r) && r.isLatest && r.availableAt <= t)
       <==> var known := KnownAt(rows, k, None, t); known.Some? && known == Last(Group(rows, k)) && p(known.value)
  {
    var g := Group(rows, k);
    KnownIsLastVisible(rows, k, None, t);
    GroupMembers(rows, k);
    if r :| r in rows && r.key == k && p(r) && r.isLatest && r.availableAt <= t {
      var j :| 0 <= j < |g| && g[j] == r;
      assert Linked(g, j);
    }
    if KnownAt(rows, k, None, t).Some? && KnownAt(rows, k, None, t) == Last(g) {
      assert g[|g| - 1] in g && Linked(g, |g| - 1);
    }
  }

  /** A view does not depend on the order in which the database returns the selected rows. */
  lemma ViewIgnoresRowOrder<K(!new), V, M>(a: seq<Row<K, V, M>>, b: seq<Row<K, V, M>>, table: seq<Row<K, V, M>>)
    requires Chained(table)
    requires forall r | r in a :: r in table
    requires forall r :: r in a <==> r in b
    ensures TopPerGroup(a) == TopPerGroup(b)
  {
    forall k ensures TopVersion(Group(a, k)) == TopVersion(Group(b, k)) {
      var x, y := TopVersion(Group(a, k)), TopVersion(Group(b, k));
      GroupMembers(a, k);
      GroupMembers(b, k);
      if x.Some? && y.Some? {
        SameVersionSameRow(table, x.value, y.value);
      }
    }
    forall k ensures k in TopPerGroup(a) <==> k in TopPerGroup(b)
             ensures k in TopPerGroup(a) ==> TopPerGroup(a)[k] == TopPerGroup(b)[k] {
      TopPerGroupAt(a, k);
      TopPerGroupAt(b, k);
    }
    assert TopPerGroup(a).Keys == TopPerGroup(b).Keys;
  }

  /** The unique constraint on (group, version). */
  lemma SameVersionSameRow<K(!new), V, M>(rows: seq<Row<K, V, M>>, a: Row<K, V, M>, b: Row<K, V, M>)
    requires Chained(rows) && a in rows && b in rows
    requires a.key == b.key && a.version == b.version
    ensures a == b
  {
    var i :| 0 <= i < |rows| && rows[i] == a;
    var j :| 0 <= j < |rows| && rows[j] == b;
    LastPosition(rows, i);
    LastPosition(rows, j);
    GroupAt(rows, i);
    GroupAt(rows, j);
  }

  // --------------------------------------------------------- time travel

  /** `g` grew out of `g0` by versions that became available only after `t`. */
  ghost predicate GrewAfter<K, V, M>(g0: seq<Row<K, V, M>>, g: seq<Row<K, V, M>>, t: int)
  {
    && |g0| <= |g|
    && (forall j | 0 <= j < |g0| :: g0[j].availableAt <= t && g[j] == g0[j].(isLatest := g[j].isLatest))
    && (forall j | |g0| <= j < |g| :: g[j].availableAt > t)
  }

  lemma GrewPick<K, V, M>(g0: seq<Row<K, V, M>>, g: seq<Row<K, V, M>>, t: int)
    requires Chain(g0) && GrewAfter(g0, g, t)
    ensures var past, present := Last(g0), Pick(g, VisibleAt(None, t));
            past.Some? == present.Some? && (past.Some? ==> present.value.(isLatest := true) == past.value)
  {
    var p: Row<K, V, M> -> bool := VisibleAt(None, t);
    assert forall j | |g0| <= j < |g| :: !p(g[j]);
    assert g0 != [] ==> p(g[|g0| - 1]);
    assert TopAt(g, p) == |g0| - 1;
    assert g0 != [] ==> Linked(g0, |g0| - 1);
  }

  /** Asking the grown table about `t` gives the row that was latest before it grew. */
  lemma TimeTravelGroup<K(!new), V, M>(rows0: seq<Row<K, V, M>>, rows: seq<Row<K, V, M>>, k: K, t: int)
    requires Chained(rows0) && Chained(rows)
    requires GrewAfter(Group(rows0, k), Group(rows, k), t)
    ensures var past, present := Last(Group(rows0, k)), KnownAt(rows, k, None, t);
            past.Some? == present.Some? && (past.Some? ==> present.value.(isLatest := true) == past.value)
  {
    KnownIsLastVisible(rows, k, None, t);
    assert Chain(Group(rows0, k));
    GrewPick(Group(rows0, k), Group(rows, k), t);
  }

  /** A later insertion keeps the past: growth after `t` is transitive under inserts available after `t`. */
  lemma InsertGrowsAfter<K(!new), V, M>(
    rows0: seq<Row<K, V, M>>, rows: seq<Row<K, V, M>>, k: K, company: int, values: V, availableAt: int, meta: M,
    k': K, t: int)
    requires Chained(rows) && availableAt > t
    requires GrewAfter(Group(rows0, k'), Group(rows, k'), t)
    ensures var last := Last(Group(rows, k));
            (last.Some? ==> last.value.id < |rows|) &&
            GrewAfter(Group(rows0, k'), Group(Insert(rows, last, k, company, values, availableAt, meta), k'), t)
  {
    LatestIsLast(rows, k);
    InsertGroup(rows, k, company, values, availableAt, meta, k');
  }

  // ------------------------------------------------------- what a write does

  /**
   * `after` is `rows` with one row more, the next version of its group: it carries what was given,
   * points to the row flagged before, and that row, alone of all the others, has lost its flag.
   */
  ghost predicate Inserted<K, V, M>(rows: seq<Row<K, V, M>>, after: seq<Row<K, V, M>>,
                                    k: K, company: int, values: V, availableAt: int, meta: M)
  {
    && |after| == |rows| + 1
    && IsNext(rows, after[|rows|], k)
    && after[|rows|].company == company && after[|rows|].values == values
    && after[|rows|].availableAt == availableAt && after[|rows|].meta == meta
    && forall i | 0 <= i < |rows| ::
         after[i] == if rows[i].key == k && rows[i].isLatest then rows[i].(isLatest := false) else rows[i]
  }

  /** The row is flagged latest and numbered and linked as the next of the group. */
  ghost predicate IsNext<K, V, M>(rows: seq<Row<K, V, M>>, n: Row<K, V, M>, k: K)
  {
    && n.id == |rows| && n.key == k && n.isLatest
    && (forall r | r in rows && r.key == k :: r.version < n.version)
    && ((forall r | r in rows :: r.key != k) ==> n.version == 1 && n.supersedes == None)
    && (forall r | r in rows && r.key == k && r.isLatest :: n.version == r.version + 1 && n.supersedes == Some(r.id))
  }

  lemma FlaggedIsLast<K(!new), V, M>(rows: seq<Row<K, V, M>>, k: K, r: Row<K, V, M>)
    requires Chained(rows) && r in rows && r.key == k
    ensures r.isLatest <==> Last(Group(rows, k)) == Some(r)
    ensures Group(rows, k) != [] && r.version <= |Group(rows, k)|
  {
    var g := Group(rows, k);
    GroupMembers(rows, k);
    assert Chain(g);
    var j :| 0 <= j < |g| && g[j] == r;
    assert Linked(g, j) && Linked(g, |g| - 1);
  }

  lemma NewRowIsNext<K(!new), V, M>(rows: seq<Row<K, V, M>>, k: K, company: int, values: V, availableAt: int, meta: M)
    requires Chained(rows)
    ensures IsNext(rows, NewRow(rows, k, company, values, availableAt, meta), k)
  {
    var g, n := Group(rows, k), NewRow(rows, k, company, values, availableAt, meta);
    assert Chain(g);
    GroupMembers(rows, k);
    if g != [] {
      assert Linked(g, |g| - 1) && g[|g| - 1] in g;
    }
    forall r | r in rows && r.key == k
      ensures r.version < n.version && (r.isLatest ==> n.version == r.version + 1 && n.supersedes == Some(r.id)) {
      FlaggedIsLast(rows, k, r);
    }
  }

  lemma FlipIsInPlace<K(!new), V, M>(rows: seq<Row<K, V, M>>, k: K, i: nat)
    requires Chained(rows) && i < |rows|
    ensures var last := Last(Group(rows, k));
            && (last.Some? ==> last.value.id < |rows|)
            && (if last.Some? then rows[last.value.id := last.value.(isLatest := false)] else rows)[i]
               == if rows[i].key == k && rows[i].isLatest then rows[i].(isLatest := false) else rows[i]
  {
    LatestIsLast(rows, k);
    LastIsFlagged(rows, k, i);
  }

  lemma InsertMeans<K(!new), V, M>(rows: seq<Row<K, V, M>>, k: K, company: int, values: V, availableAt: int, meta: M)
    requires Chained(rows)
    ensures var last := Last(Group(rows, k));
            (last.Some? ==> last.value.id < |rows|) &&
            Inserted(rows, Insert(rows, last, k, company, values, availableAt, meta), k, company, values, availableAt,
              meta)
  {
    var last := Last(Group(rows, k));
    LatestIsLast(rows, k);
    InsertShape(rows, k, company, values, availableAt, meta);
    NewRowIsNext(rows, k, company, values, availableAt, meta);
    var kept := if last.Some? then rows[last.value.id := last.value.(isLatest := false)] else rows;
    forall i | 0 <= i < |rows|
      ensures kept[i] == if rows[i].key == k && rows[i].isLatest then rows[i].(isLatest := false) else rows[i] {
      FlipIsInPlace(rows, k, i);
    }
    IsInserted(rows, kept, NewRow(rows, k, company, values, availableAt, meta), k);
  }

  lemma IsInserted<K, V, M>(rows: seq<Row<K, V, M>>, kept: seq<Row<K, V, M>>, n: Row<K, V, M>, k: K)
    requires |kept| == |rows| && IsNext(rows, n, k)
    requires forall i | 0 <= i < |rows| ::
               kept[i] == if rows[i].key == k && rows[i].isLatest then rows[i].(isLatest := false) else rows[i]
    ensures Inserted(rows, kept + [n], k, n.company, n.values, n.availableAt, n.meta)
  {
    var after := kept + [n];
    forall i | 0 <= i < |rows|
      ensures after[i] == if rows[i].key == k && rows[i].isLatest then rows[i].(isLatest := false) else rows[i] {
      assert after[i] == kept[i];
    }
  }

  lemma LastIsFlagged<K(!new), V, M>(rows: seq<Row<K, V, M>>, k: K, i: nat)
    requires Chained(rows) && i < |rows|
    ensures var last := Last(Group(rows, k));
            (rows[i].key == k && rows[i].isLatest) <==> (last.Some? && i == last.value.id)
  {
    LatestIsLast(rows, k);
    GroupMembers(rows, k);
    assert rows[i] in rows;
    if rows[i].key == k {
      FlaggedIsLast(rows, k, rows[i]);
    }
    if Last(Group(rows, k)).Some? {
      assert Group(rows, k)[|Group(rows, k)| - 1] in Group(rows, k);
    }
  }

  // ---------------------------------------------------- what a query answers

  /** The row is of this fact, of the company if one is asked for, and available by `t`. */
  ghost predicate Seen<K, V, M>(r: Row<K, V, M>, k: K, company: Option<int>, t: int)
  {
    r.key == k && r.availableAt <= t && (company.Some? ==> r.company == company.value)
  }

  /** `get_as_of`: nothing when no such row is there, else one of the highest version. */
  lemma KnownMeans<K, V, M>(rows: seq<Row<K, V, M>>, k: K, company: Option<int>, t: int)
    ensures var known := KnownAt(rows, k, company, t);
            && (known.None? <==> forall r | r in rows :: !Seen(r, k, company, t))
            && (known.Some? ==>
                  && known.value in rows && Seen(known.value, k, company, t)
                  && forall r | r in rows && Seen(r, k, company, t) :: r.version <= known.value.version)
  {
    var selected := Filter(rows, VisibleAt(company, t));
    FilterMembers(rows, VisibleAt(company, t));
    GroupMembers(selected, k);
    if Group(selected, k) != [] {
      assert Group(selected, k)[0] in Group(selected, k);
    }
  }

  /** A company view holds, for every fact with such a row of the company and no other, one of the highest version. */
  lemma ViewMeans<K, V, M>(rows: seq<Row<K, V, M>>, company: int, t: int, k: K)
    ensures var view := ViewAsOf(rows, company, t);
            && (k in view <==> exists r | r in rows :: Seen(r, k, Some(company), t))
            && (k in view ==>
                  && view[k] in rows && Seen(view[k], k, Some(company), t)
                  && forall r | r in rows && Seen(r, k, Some(company), t) :: r.version <= view[k].version)
  {
    TopPerGroupAt(Filter(rows, VisibleAt(Some(company), t)), k);
    KnownMeans(rows, k, Some(company), t);
  }
}
