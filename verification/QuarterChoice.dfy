/** Which of several facts of one period the selection keeps, and which periods are among the four. */
module QuarterChoice {
  import opened Basics
  import opened Sorting
  import opened QuarterFacts

  // --------------------------------------------------------- the entry kept

  /** The dictionary after the loop over the facts that `p` lets through. */
  function Kept(facts: seq<Fact>, p: Fact -> bool, newer: (Fact, Fact) -> bool): seq<Fact>
  {
    LatestPerPeriod(Filter(facts, p), newer)
  }

  function EntryFor(latest: seq<Fact>, period: int): Option<Fact>
  {
    var i := IndexOf(latest, period);
    if i < |latest| then Some(latest[i]) else None
  }

  lemma {:induction false} EntryAppend(latest: seq<Fact>, f: Fact, period: int)
    ensures EntryFor(latest + [f], period) ==
            if EntryFor(latest, period).Some? then EntryFor(latest, period)
            else if f.period == period then Some(f) else None
  {
    if latest != [] {
      assert (latest + [f])[1..] == latest[1..] + [f];
      EntryAppend(latest[1..], f, period);
    }
  }

  lemma {:induction false} EntryUpdate(latest: seq<Fact>, f: Fact, period: int)
    requires IndexOf(latest, f.period) < |latest|
    ensures EntryFor(latest[IndexOf(latest, f.period) := f], period) ==
            if f.period == period then Some(f) else EntryFor(latest, period)
  {
    var i := IndexOf(latest, f.period);
    if i != 0 {
      assert latest[i := f][1..] == latest[1..][i - 1 := f];
      EntryUpdate(latest[1..], f, period);
    }
  }

  lemma EntryPut(latest: seq<Fact>, f: Fact, newer: (Fact, Fact) -> bool, period: int)
    ensures var e := EntryFor(latest, period);
            EntryFor(Put(latest, f, newer), period) ==
            if f.period == period && (e.None? || newer(f, e.value)) then Some(f) else e
  {
    var i := IndexOf(latest, f.period);
    if i == |latest| {
      EntryAppend(latest, f, period);
    } else if newer(f, latest[i]) {
      EntryUpdate(latest, f, period);
    }
  }

  lemma KeptStep(facts: seq<Fact>, f: Fact, p: Fact -> bool, newer: (Fact, Fact) -> bool, period: int)
    ensures var e := EntryFor(Kept(facts, p, newer), period);
            EntryFor(Kept(facts + [f], p, newer), period) ==
            if p(f) && f.period == period && (e.None? || newer(f, e.value)) then Some(f) else e
  {
    FilterAppend(facts, f, p);
    var passed := Filter(facts, p);
    assert (passed + [f])[..|passed|] == passed;
    EntryPut(Kept(facts, p, newer), f, newer, period);
  }

  /** A fact of the period that `p` lets through, none of those newer. */
  ghost predicate IsTop(facts: seq<Fact>, f: Fact, p: Fact -> bool, newer: (Fact, Fact) -> bool, period: int)
  {
    && f in facts && p(f) && f.period == period
    && forall g | g in facts && p(g) && g.period == period :: !newer(g, f)
  }

  lemma TopAppend(facts: seq<Fact>, f: Fact, e: Option<Fact>, p: Fact -> bool, newer: (Fact, Fact) -> bool, period: int)
    requires Orders(newer)
    requires e.Some? ==> IsTop(facts, e.value, p, newer, period)
    requires e.None? ==> forall g | g in facts :: !(p(g) && g.period == period)
    ensures var after := if p(f) && f.period == period && (e.None? || newer(f, e.value)) then Some(f) else e;
            && (after.Some? ==> IsTop(facts + [f], after.value, p, newer, period))
            && (after.None? ==> forall g | g in facts + [f] :: !(p(g) && g.period == period))
  {
  }

  lemma {:induction false} EntryIsTop(facts: seq<Fact>, p: Fact -> bool, newer: (Fact, Fact) -> bool, period: int)
    requires Orders(newer)
    ensures var e := EntryFor(Kept(facts, p, newer), period);
            && (e.Some? ==> IsTop(facts, e.value, p, newer, period))
            && (e.None? ==> forall g | g in facts :: !(p(g) && g.period == period))
  {
    if facts != [] {
      var init, f := facts[..|facts| - 1], facts[|facts| - 1];
      EntryIsTop(init, p, newer, period);
      KeptStep(init, f, p, newer, period);
      TopAppend(init, f, EntryFor(Kept(init, p, newer), period), p, newer, period);
      assert facts == init + [f];
    }
  }

  /** Among equals the first one stays. */
  lemma {:induction false} FirstTopWins(z: Fact, rest: seq<Fact>, p: Fact -> bool, newer: (Fact, Fact) -> bool,
                                        period: int)
    requires p(z) && z.period == period && forall g | g in rest && p(g) && g.period == period :: !newer(g, z)
    ensures EntryFor(Kept([z] + rest, p, newer), period) == Some(z)
  {
    if rest == [] {
      assert [z] + rest == [] + [z];
      KeptStep([], z, p, newer, period);
    } else {
      var init, f := rest[..|rest| - 1], rest[|rest| - 1];
      assert f in rest && forall g | g in init :: g in rest;
      FirstTopWins(z, init, p, newer, period);
      assert [z] + rest == ([z] + init) + [f];
      KeptStep([z] + init, f, p, newer, period);
    }
  }

  ghost predicate OrderIrrelevant(facts: seq<Fact>, p: Fact -> bool, newer: (Fact, Fact) -> bool, period: int)
  {
    forall b | multiset(b) == multiset(facts) ::
      EntryFor(Kept(b, p, newer), period) == EntryFor(Kept(facts, p, newer), period)
  }

  ghost predicate UniqueTop(facts: seq<Fact>, p: Fact -> bool, newer: (Fact, Fact) -> bool, period: int)
  {
    forall x, y | IsTop(facts, x, p, newer, period) && IsTop(facts, y, p, newer, period) :: x == y
  }

  lemma SameEntry(a: seq<Fact>, b: seq<Fact>, p: Fact -> bool, newer: (Fact, Fact) -> bool, period: int)
    requires Orders(newer) && multiset(a) == multiset(b) && UniqueTop(a, p, newer, period)
    ensures EntryFor(Kept(b, p, newer), period) == EntryFor(Kept(a, p, newer), period)
  {
    EntryIsTop(a, p, newer, period);
    EntryIsTop(b, p, newer, period);
    SameMembers(a, b);
    var e, f := EntryFor(Kept(b, p, newer), period), EntryFor(Kept(a, p, newer), period);
    if e.Some? && f.Some? {
      assert IsTop(a, e.value, p, newer, period);
    }
  }

  /** Which fact is kept is independent of the order of the rows exactly when no two facts tie for the top. */
  lemma ChoiceIgnoresOrderIff(facts: seq<Fact>, p: Fact -> bool, newer: (Fact, Fact) -> bool, period: int)
    requires Orders(newer)
    ensures OrderIrrelevant(facts, p, newer, period) <==> UniqueTop(facts, p, newer, period)
  {
    if UniqueTop(facts, p, newer, period) {
      forall b | multiset(b) == multiset(facts)
        ensures EntryFor(Kept(b, p, newer), period) == EntryFor(Kept(facts, p, newer), period) {
        SameEntry(facts, b, p, newer, period);
      }
    } else {
      var x, y :| IsTop(facts, x, p, newer, period) && IsTop(facts, y, p, newer, period) && x != y;
      var z := if EntryFor(Kept(facts, p, newer), period) == Some(x) then y else x;
      var b := MovedFirst(facts, z);
      FirstTopWins(z, b[1..], p, newer, period);
      assert b == [z] + b[1..];
      assert EntryFor(Kept(b, p, newer), period) != EntryFor(Kept(facts, p, newer), period);
    }
  }

  lemma SameMembers(a: seq<Fact>, b: seq<Fact>)
    requires multiset(a) == multiset(b)
    ensures forall f :: f in a <==> f in b
  {
    forall f ensures f in a <==> f in b {
      assert f in multiset(a) <==> f in multiset(b);
    }
  }

  lemma MovedFirst(facts: seq<Fact>, z: Fact) returns (b: seq<Fact>)
    requires z in facts
    ensures b != [] && b[0] == z && multiset(b) == multiset(facts)
    ensures forall g | g in b[1..] :: g in facts
  {
    var i :| 0 <= i < |facts| && facts[i] == z;
    assert facts == facts[..i] + [z] + facts[i + 1..];
    b := [z] + facts[..i] + facts[i + 1..];
    assert b[1..] == facts[..i] + facts[i + 1..];
  }

  // ------------------------------------------------------ among the four

  ghost predicate DistinctEnds(latest: seq<Fact>)
  {
    forall i, j | 0 <= i < j < |latest| :: latest[i].periodEnd != latest[j].periodEnd
  }

  /** The period ends after `end`. */
  function LaterEnds(latest: seq<Fact>, end: int): set<int>
  {
    set f | f in latest && f.periodEnd > end :: f.periodEnd
  }

  function EndsOn(end: int): Fact -> bool { (f: Fact) => f.periodEnd == end }

  lemma SortKeepsEndsApart(latest: seq<Fact>)
    requires DistinctEnds(latest)
    ensures DistinctEnds(SortBy(latest, NewestFirst()))
  {
    var ordered := SortBy(latest, NewestFirst());
    forall i, j | 0 <= i < j < |ordered| ensures ordered[i].periodEnd != ordered[j].periodEnd {
      var p := EndsOn(ordered[i].periodEnd);
      FilterSort(latest, NewestFirst(), p);
      AtMostOne(latest, p);
      if ordered[i].periodEnd == ordered[j].periodEnd {
        TwoMatches(ordered, p, i, j);
        assert false;
      }
    }
  }

  lemma {:induction false} EndsOfPrefix(ordered: seq<Fact>, n: nat)
    requires n <= |ordered| && DistinctEnds(ordered)
    ensures |set i | 0 <= i < n :: ordered[i].periodEnd| == n
  {
    var ends := set i | 0 <= i < n :: ordered[i].periodEnd;
    if n == 0 {
      assert ends == {};
    } else {
      EndsOfPrefix(ordered, n - 1);
      var before := set i | 0 <= i < n - 1 :: ordered[i].periodEnd;
      assert ordered[n - 1].periodEnd !in before;
      assert ends == before + {ordered[n - 1].periodEnd};
    }
  }

  /** Newest first, no two ending together. */
  ghost predicate Descends(ordered: seq<Fact>)
  {
    forall i, j | 0 <= i < j < |ordered| :: ordered[i].periodEnd > ordered[j].periodEnd
  }

  lemma SortedDescends(latest: seq<Fact>)
    requires DistinctEnds(latest)
    ensures Descends(SortBy(latest, NewestFirst()))
  {
    var ordered := SortBy(latest, NewestFirst());
    SortSorts(latest, NewestFirst());
    SortKeepsEndsApart(latest);
    forall i, j | 0 <= i < j < |ordered| ensures ordered[i].periodEnd > ordered[j].periodEnd {
      assert NewestFirst()(ordered[i]) <= NewestFirst()(ordered[j]);
      assert ordered[i].periodEnd != ordered[j].periodEnd;
    }
  }

  /** In such an order as many ends are later as facts stand before. */
  lemma LaterInOrder(ordered: seq<Fact>, j: nat)
    requires j < |ordered| && Descends(ordered)
    ensures |LaterEnds(ordered, ordered[j].periodEnd)| == j
  {
    var before := set i | 0 <= i < j :: ordered[i].periodEnd;
    forall e ensures e in LaterEnds(ordered, ordered[j].periodEnd) <==> e in before {
      if e in LaterEnds(ordered, ordered[j].periodEnd) {
        var g :| g in ordered && g.periodEnd > ordered[j].periodEnd && g.periodEnd == e;
        var i :| 0 <= i < |ordered| && ordered[i] == g;
        assert i < j;
      }
      if e in before {
        var i :| 0 <= i < j && ordered[i].periodEnd == e;
        assert ordered[i] in ordered;
      }
    }
    assert LaterEnds(ordered, ordered[j].periodEnd) == before;
    EndsOfPrefix(ordered, j);
  }

  lemma SameLaterEnds(a: seq<Fact>, b: seq<Fact>, end: int)
    requires forall f :: f in a <==> f in b
    ensures LaterEnds(a, end) == LaterEnds(b, end)
  {
  }

  lemma AmongFirstFour(ordered: seq<Fact>, j: nat)
    requires j < |ordered| && Descends(ordered)
    ensures ordered[j] in (if |ordered| <= 4 then ordered else ordered[..4]) <==> j < 4
  {
    if |ordered| > 4 {
      if j < 4 {
        assert ordered[..4][j] == ordered[j];
      } else {
        assert forall i | 0 <= i < 4 :: ordered[..4][i] == ordered[i] && ordered[i].periodEnd > ordered[j].periodEnd;
      }
    }
  }

  /** A kept fact is among the four newest exactly when fewer than four kept ones end later. */
  lemma AmongTopFourIff(latest: seq<Fact>, f: Fact)
    requires f in latest && DistinctEnds(latest)
    ensures f in TopFour(latest) <==> |LaterEnds(latest, f.periodEnd)| < 4
  {
    var ordered := SortBy(latest, NewestFirst());
    SortMembers(latest, NewestFirst());
    SortedDescends(latest);
    assert f in ordered;
    var j :| 0 <= j < |ordered| && ordered[j] == f;
    SameLaterEnds(latest, ordered, f.periodEnd);
    LaterInOrder(ordered, j);
    AmongFirstFour(ordered, j);
  }
}
