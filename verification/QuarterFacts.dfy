/**
 * Selecting the four most recent reported quarters: the dictionary loop and the sort shared by
 * `historical_pe_band.py` and `valuation.py`.
 */
module QuarterFacts {
  import opened Basics
  import opened Sorting

  /** A `FinancialResult` joined with its `FinancialPeriod`. */
  datatype Fact = Fact(
    id: int, company: int, period: int, periodEnd: int, quarter: string,
    scope: string, basis: string, verified: bool, isLatest: bool, version: int, availableAt: int,
    epsDiluted: Option<real>, epsBasic: Option<real>, sourceDocument: Option<int>)

  function AvailableBy(t: int): Fact -> bool { (f: Fact) => f.availableAt <= t }

  function ByVersion(): (Fact, Fact) -> bool { (a: Fact, b: Fact) => a.version > b.version }

  /** `(version, available_at)` compared as tuples. */
  function ByVersionThenAvailability(): (Fact, Fact) -> bool
  {
    (a: Fact, b: Fact) => a.version > b.version || (a.version == b.version && a.availableAt > b.availableAt)
  }

  /** Position of the entry for `period` in an insertion-ordered dictionary, or its size. */
  function IndexOf(latest: seq<Fact>, period: int): (i: nat)
    ensures i <= |latest|
    ensures i < |latest| ==> latest[i].period == period
    ensures forall j | 0 <= j < i :: latest[j].period != period
  {
    if latest == [] then 0
    else if latest[0].period == period then 0
    else 1 + IndexOf(latest[1..], period)
  }

  /** One pass of the loop body: a new key goes last, a newer fact replaces the old one in place. */
  function Put(latest: seq<Fact>, f: Fact, newer: (Fact, Fact) -> bool): seq<Fact>
  {
    var i := IndexOf(latest, f.period);
    if i == |latest| then latest + [f]
    else if newer(f, latest[i]) then latest[i := f]
    else latest
  }

  function LatestPerPeriod(facts: seq<Fact>, newer: (Fact, Fact) -> bool): seq<Fact>
  {
    if facts == [] then [] else Put(LatestPerPeriod(facts[..|facts| - 1], newer), facts[|facts| - 1], newer)
  }

  method SelectLatest(facts: seq<Fact>, newer: (Fact, Fact) -> bool) returns (latest: seq<Fact>)
    ensures latest == LatestPerPeriod(facts, newer)
  {
    latest := [];
    for n := 0 to |facts|
      invariant latest == LatestPerPeriod(facts[..n], newer)
    {
      var f := facts[n];
      assert facts[..n + 1][..n] == facts[..n];
      var i := IndexOf(latest, f.period);
      if i == |latest| {
        latest := latest + [f];
      } else if newer(f, latest[i]) {
        latest := latest[i := f];
      }
    }
    assert facts[..|facts|] == facts;
  }

  ghost predicate OnePerPeriod(latest: seq<Fact>)
  {
    forall i, j | 0 <= i < j < |latest| :: latest[i].period != latest[j].period
  }

  /** Neither fact is newer than itself or something newer, and not being newer carries over. */
  ghost predicate Orders(newer: (Fact, Fact) -> bool)
  {
    && (forall a, b :: newer(a, b) ==> !newer(b, a))
    && (forall a, b, c :: !newer(a, b) && !newer(b, c) ==> !newer(a, c))
  }

  lemma BothOrder()
    ensures Orders(ByVersion()) && Orders(ByVersionThenAvailability())
  {
  }

  /** The entry for the period of `f` is one that `f` is not newer than. */
  ghost predicate Covers(latest: seq<Fact>, f: Fact, newer: (Fact, Fact) -> bool)
  {
    var i := IndexOf(latest, f.period);
    i < |latest| && !newer(f, latest[i])
  }

  lemma IndexUnique(latest: seq<Fact>, i: nat)
    requires OnePerPeriod(latest) && i < |latest|
    ensures IndexOf(latest, latest[i].period) == i
  {
  }

  lemma PutCovers(latest: seq<Fact>, f: Fact, newer: (Fact, Fact) -> bool, g: Fact)
    requires Orders(newer) && OnePerPeriod(latest)
    ensures OnePerPeriod(Put(latest, f, newer))
    ensures Covers(Put(latest, f, newer), f, newer)
    ensures Covers(latest, g, newer) ==> Covers(Put(latest, f, newer), g, newer)
  {
    var after := Put(latest, f, newer);
    var i := IndexOf(latest, f.period);
    assert forall j | 0 <= j < |latest| :: after[j].period == latest[j].period;
    IndexUnique(after, i);
    if Covers(latest, g, newer) {
      IndexUnique(after, IndexOf(latest, g.period));
    }
  }

  lemma {:induction false} LatestAreFacts(facts: seq<Fact>, newer: (Fact, Fact) -> bool)
    ensures forall i | 0 <= i < |LatestPerPeriod(facts, newer)| :: LatestPerPeriod(facts, newer)[i] in facts
  {
    if facts != [] {
      LatestAreFacts(facts[..|facts| - 1], newer);
      assert forall f | f in facts[..|facts| - 1] :: f in facts;
    }
  }

  lemma {:induction false} LatestCovers(facts: seq<Fact>, newer: (Fact, Fact) -> bool)
    requires Orders(newer)
    ensures OnePerPeriod(LatestPerPeriod(facts, newer))
    ensures forall n | 0 <= n < |facts| :: Covers(LatestPerPeriod(facts, newer), facts[n], newer)
  {
    if facts != [] {
      var init, f := facts[..|facts| - 1], facts[|facts| - 1];
      LatestCovers(init, newer);
      var before, latest := LatestPerPeriod(init, newer), LatestPerPeriod(facts, newer);
      PutCovers(before, f, newer, f);
      forall n | 0 <= n < |facts| ensures Covers(latest, facts[n], newer) {
        if n < |init| {
          assert Covers(before, init[n], newer);
          PutCovers(before, f, newer, init[n]);
        }
      }
    }
  }

  /** The fact is one of `facts`, and none of them for its period is newer. */
  ghost predicate IsLatestOf(facts: seq<Fact>, f: Fact, newer: (Fact, Fact) -> bool)
  {
    f in facts && forall g | g in facts && g.period == f.period :: !newer(g, f)
  }

  lemma EntryIsLatest(facts: seq<Fact>, newer: (Fact, Fact) -> bool, f: Fact)
    requires Orders(newer) && f in LatestPerPeriod(facts, newer)
    ensures IsLatestOf(facts, f, newer)
  {
    var latest := LatestPerPeriod(facts, newer);
    LatestCovers(facts, newer);
    LatestAreFacts(facts, newer);
    var i :| 0 <= i < |latest| && latest[i] == f;
    IndexUnique(latest, i);
    forall g | g in facts && g.period == f.period ensures !newer(g, f) {
      var n :| 0 <= n < |facts| && facts[n] == g;
      assert Covers(latest, facts[n], newer);
    }
  }

  lemma PeriodHasEntry(facts: seq<Fact>, newer: (Fact, Fact) -> bool, g: Fact) returns (f: Fact)
    requires Orders(newer) && g in facts
    ensures f in LatestPerPeriod(facts, newer) && f.period == g.period
  {
    LatestCovers(facts, newer);
    var n :| 0 <= n < |facts| && facts[n] == g;
    assert Covers(LatestPerPeriod(facts, newer), facts[n], newer);
    f := LatestPerPeriod(facts, newer)[IndexOf(LatestPerPeriod(facts, newer), g.period)];
  }

  /** The dictionary holds exactly one fact of every period there is, and it is a latest one. */
  lemma LatestIsHighest(facts: seq<Fact>, newer: (Fact, Fact) -> bool)
    requires Orders(newer)
    ensures var latest := LatestPerPeriod(facts, newer);
            && OnePerPeriod(latest)
            && (forall f | f in latest :: IsLatestOf(facts, f, newer))
            && (forall g | g in facts :: exists f | f in latest :: f.period == g.period)
  {
    LatestCovers(facts, newer);
    forall f | f in LatestPerPeriod(facts, newer) ensures IsLatestOf(facts, f, newer) {
      EntryIsLatest(facts, newer, f);
    }
    forall g | g in facts ensures exists f | f in LatestPerPeriod(facts, newer) :: f.period == g.period {
      var f := PeriodHasEntry(facts, newer, g);
    }
  }

  /** Facts of distinct periods are all kept, in order. */
  lemma {:induction false} DistinctAreKept(facts: seq<Fact>, newer: (Fact, Fact) -> bool)
    requires OnePerPeriod(facts)
    ensures LatestPerPeriod(facts, newer) == facts
  {
    if facts != [] {
      var init, f := facts[..|facts| - 1], facts[|facts| - 1];
      DistinctAreKept(init, newer);
      assert facts == init + [f];
      assert forall j | 0 <= j < |init| :: init[j] == facts[j];
    }
  }

  function NewestFirst(): Fact -> real { (f: Fact) => -(f.periodEnd as real) }

  /** `sorted(latest.values(), key=period_end, reverse=True)[:4]`; both sorts keep ties in order. */
  function TopFour(latest: seq<Fact>): (quarters: seq<Fact>)
    ensures |quarters| <= 4
    ensures |quarters| == 4 <==> |latest| >= 4
  {
    var ordered := SortBy(latest, NewestFirst());
    if |ordered| <= 4 then ordered else ordered[..4]
  }

  lemma TopFourDescends(latest: seq<Fact>)
    ensures var q := TopFour(latest);
            forall i, j | 0 <= i < j < |q| :: q[i].periodEnd >= q[j].periodEnd
    ensures forall f | f in TopFour(latest) :: f in latest
  {
    SortSorts(latest, NewestFirst());
    SortMembers(latest, NewestFirst());
    var ordered, q := SortBy(latest, NewestFirst()), TopFour(latest);
    forall i, j | 0 <= i < j < |q| ensures q[i].periodEnd >= q[j].periodEnd {
      assert NewestFirst()(ordered[i]) <= NewestFirst()(ordered[j]);
    }
  }

  /** What is left over ends no later than any of the four. */
  lemma TopFourIsMostRecent(latest: seq<Fact>, f: Fact)
    requires f in latest && f !in TopFour(latest)
    ensures forall i | 0 <= i < |TopFour(latest)| :: f.periodEnd <= TopFour(latest)[i].periodEnd
  {
    SortSorts(latest, NewestFirst());
    SortMembers(latest, NewestFirst());
    var ordered, top := SortBy(latest, NewestFirst()), TopFour(latest);
    var rest := ordered[|top|..];
    assert ordered == top + rest;
    var j :| 0 <= j < |rest| && rest[j] == f;
    forall i | 0 <= i < |top| ensures f.periodEnd <= top[i].periodEnd {
      assert NewestFirst()(ordered[i]) <= NewestFirst()(ordered[|top| + j]);
    }
  }

  function OfPeriod(period: int): Fact -> bool { (f: Fact) => f.period == period }

  lemma SortKeepsPeriodsApart(latest: seq<Fact>)
    requires OnePerPeriod(latest)
    ensures OnePerPeriod(SortBy(latest, NewestFirst()))
  {
    var ordered := SortBy(latest, NewestFirst());
    forall i, j | 0 <= i < j < |ordered| ensures ordered[i].period != ordered[j].period {
      var p := OfPeriod(ordered[i].period);
      FilterSort(latest, NewestFirst(), p);
      AtMostOne(latest, p);
      if ordered[i].period == ordered[j].period {
        TwoMatches(ordered, p, i, j);
        assert false;
      }
    }
  }

  lemma TopFourApart(latest: seq<Fact>)
    requires OnePerPeriod(latest)
    ensures OnePerPeriod(TopFour(latest))
  {
    SortKeepsPeriodsApart(latest);
  }

  lemma SortedAreTopFour(latest: seq<Fact>)
    requires |latest| == 4 && forall i, j | 0 <= i < j < 4 :: latest[i].periodEnd >= latest[j].periodEnd
    ensures TopFour(latest) == latest
  {
    assert SortedBy(latest, NewestFirst());
    SortIsIdentityOnSorted(latest, NewestFirst());
  }

  /**
   * Four quarters of different periods, newest first, each a latest fact of its period, and no other
   * period ends later than any of them.
   */
  ghost predicate FourLatestQuarters(facts: seq<Fact>, quarters: seq<Fact>, newer: (Fact, Fact) -> bool)
  {
    && |quarters| == 4
    && OnePerPeriod(quarters)
    && (forall i, j | 0 <= i < j < 4 :: quarters[i].periodEnd >= quarters[j].periodEnd)
    && (forall q | q in quarters :: IsLatestOf(facts, q, newer))
    && (forall g | g in facts && (forall q | q in quarters :: q.period != g.period) ::
          EndsBy(facts, g.period, quarters[3].periodEnd, newer))
  }

  /** By the latest fact of the period, it ends no later than `end`. */
  ghost predicate EndsBy(facts: seq<Fact>, period: int, end: int, newer: (Fact, Fact) -> bool)
  {
    exists f | IsLatestOf(facts, f, newer) :: f.period == period && f.periodEnd <= end
  }

  lemma LeftOverEndsBy(facts: seq<Fact>, newer: (Fact, Fact) -> bool, g: Fact)
    requires Orders(newer) && g in facts && |TopFour(LatestPerPeriod(facts, newer))| == 4
    requires forall q | q in TopFour(LatestPerPeriod(facts, newer)) :: q.period != g.period
    ensures EndsBy(facts, g.period, TopFour(LatestPerPeriod(facts, newer))[3].periodEnd, newer)
  {
    var f := PeriodHasEntry(facts, newer, g);
    EntryIsLatest(facts, newer, f);
    TopFourIsMostRecent(LatestPerPeriod(facts, newer), f);
  }

  /** Dictionary and sort together: the selection finds them exactly when there are four periods. */
  lemma SelectionMeans(facts: seq<Fact>, newer: (Fact, Fact) -> bool)
    requires Orders(newer)
    ensures var latest := LatestPerPeriod(facts, newer);
            |TopFour(latest)| == 4 ==> FourLatestQuarters(facts, TopFour(latest), newer)
  {
    var latest := LatestPerPeriod(facts, newer);
    var quarters := TopFour(latest);
    LatestCovers(facts, newer);
    TopFourDescends(latest);
    TopFourApart(latest);
    if |quarters| == 4 {
      forall q | q in quarters ensures IsLatestOf(facts, q, newer) {
        EntryIsLatest(facts, newer, q);
      }
      forall g | g in facts && (forall q | q in quarters :: q.period != g.period)
        ensures EndsBy(facts, g.period, quarters[3].periodEnd, newer) {
        LeftOverEndsBy(facts, newer, g);
      }
    }
  }

  /** A period at least one fact has. */
  function Periods(facts: seq<Fact>): set<int>
  {
    set f | f in facts :: f.period
  }

  lemma {:induction false} PeriodsOfDistinct(latest: seq<Fact>)
    requires OnePerPeriod(latest)
    ensures |Periods(latest)| == |latest|
  {
    if latest == [] {
      assert Periods(latest) == {};
    } else {
      var init, f := latest[..|latest| - 1], latest[|latest| - 1];
      PeriodsOfDistinct(init);
      assert latest == init + [f];
      assert f.period !in Periods(init);
      assert Periods(latest) == Periods(init) + {f.period};
    }
  }

  /** Four quarters are found exactly when facts of four periods are there. */
  lemma FourFoundIff(facts: seq<Fact>, newer: (Fact, Fact) -> bool)
    requires Orders(newer)
    ensures |TopFour(LatestPerPeriod(facts, newer))| == 4 <==> |Periods(facts)| >= 4
  {
    LatestCovers(facts, newer);
    PeriodsOfDistinct(LatestPerPeriod(facts, newer));
    SamePeriods(facts, newer);
  }

  lemma SamePeriods(facts: seq<Fact>, newer: (Fact, Fact) -> bool)
    requires Orders(newer)
    ensures Periods(LatestPerPeriod(facts, newer)) == Periods(facts)
  {
    var latest := LatestPerPeriod(facts, newer);
    LatestAreFacts(facts, newer);
    forall p ensures p in Periods(latest) <==> p in Periods(facts) {
      if p in Periods(latest) {
        var f :| f in latest && f.period == p;
        assert f in facts;
      }
      if p in Periods(facts) {
        var g :| g in facts && g.period == p;
        var f := PeriodHasEntry(facts, newer, g);
      }
    }
  }
}
