/** What the PE evidence may depend on: nothing from the future, no order of actions, no share split. */
module PeEvidence {
  import opened Basics
  import opened Sorting
  import opened Rounding
  import opened Clock
  import opened QuarterFacts
  import opened QuarterChoice
  import opened PeBand
  import CorporateActions

  // ----------------------------------------------------------------- queries

  function PricedBy(company: int, day: int): Price -> bool
  {
    (p: Price) => p.company == company && p.date <= day
  }

  function TradingDate(): Price -> real { (p: Price) => p.date as real }

  function PricesUpTo(prices: seq<Price>, company: int, day: int): seq<Price>
  {
    SortBy(Filter(prices, PricedBy(company, day)), TradingDate())
  }

  function VerifiedQuarter(company: int): Fact -> bool
  {
    (f: Fact) => f.company == company && f.verified && f.basis == "QUARTER"
  }

  function ShareAction(company: int, asOf: int): Action -> bool
  {
    (a: Action) =>
      a.company == company && a.isLatest && a.actionType in {"split", "bonus"} && a.availableAt <= asOf
  }

  /** The evidence `generate_for_company` collects for a company as of an instant. */
  function Evidence(prices: seq<Price>, facts: seq<Fact>, actions: seq<Action>, parse: NumberParser,
                    company: int, asOf: int): seq<Outcome>
  {
    Outcomes(PricesUpTo(prices, company, DateOf(asOf)), Filter(facts, VerifiedQuarter(company)),
             Filter(actions, ShareAction(company, asOf)), parse)
  }

  // ------------------------------------------------------ nothing from later

  function PublicBy(t: int): Action -> bool { (a: Action) => a.availableAt <= t }

  lemma {:induction false} CompoundIgnoresTheFuture(actions: seq<Action>, periodEnd: int, date: int,
                                                    parse: NumberParser)
    ensures Compound(Filter(actions, PublicBy(EndOfDay(date))), Applies(periodEnd, date), parse)
            == Compound(actions, Applies(periodEnd, date), parse)
  {
    if actions != [] {
      var init, last := actions[..|actions| - 1], actions[|actions| - 1];
      var p := PublicBy(EndOfDay(date));
      CompoundIgnoresTheFuture(init, periodEnd, date, parse);
      if p(last) {
        CompoundAppend(Filter(init, p), last, Applies(periodEnd, date), parse);
      }
    }
  }

  lemma {:induction false} TtmIgnoresTheFuture(quarters: seq<Fact>, a: seq<Action>, b: seq<Action>, date: int,
                                               parse: NumberParser)
    requires Filter(a, PublicBy(EndOfDay(date))) == Filter(b, PublicBy(EndOfDay(date)))
    ensures TtmEps(quarters, a, date, parse) == TtmEps(quarters, b, date, parse)
  {
    if quarters != [] {
      var f := quarters[|quarters| - 1];
      TtmIgnoresTheFuture(quarters[..|quarters| - 1], a, b, date, parse);
      CompoundIgnoresTheFuture(a, f.periodEnd, date, parse);
      CompoundIgnoresTheFuture(b, f.periodEnd, date, parse);
    }
  }

  /** The outcome of a trading day depends only on the facts and actions public by the end of that day. */
  lemma DayIgnoresTheFuture(price: Price, facts: seq<Fact>, facts': seq<Fact>,
                            actions: seq<Action>, actions': seq<Action>, parse: NumberParser)
    requires var t := EndOfDay(price.date);
             Filter(facts, AvailableBy(t)) == Filter(facts', AvailableBy(t))
    requires var t := EndOfDay(price.date);
             Filter(actions, PublicBy(t)) == Filter(actions', PublicBy(t))
    ensures DayOutcome(price, facts, actions, parse) == DayOutcome(price, facts', actions', parse)
  {
    TtmIgnoresTheFuture(QuartersOn(facts, price.date), actions, actions', price.date, parse);
  }

  function Before(day: int): Outcome -> bool { (o: Outcome) => o.date < day }

  function TradedBefore(day: int): Price -> bool { (p: Price) => p.date < day }

  lemma OutcomesBefore(prices: seq<Price>, facts: seq<Fact>, actions: seq<Action>, parse: NumberParser, day: int)
    ensures Filter(Outcomes(prices, facts, actions, parse), Before(day))
            == Outcomes(Filter(prices, TradedBefore(day)), facts, actions, parse)
  {
    FilterMap(prices, Day(facts, actions, parse), TradedBefore(day), Before(day));
  }

  lemma OutcomesAgree(prices: seq<Price>, facts: seq<Fact>, a: seq<Action>, b: seq<Action>, parse: NumberParser)
    requires forall i | 0 <= i < |prices| ::
               Filter(a, PublicBy(EndOfDay(prices[i].date))) == Filter(b, PublicBy(EndOfDay(prices[i].date)))
    ensures Outcomes(prices, facts, a, parse) == Outcomes(prices, facts, b, parse)
  {
    forall i | 0 <= i < |prices|
      ensures Day(facts, a, parse)(prices[i]) == Day(facts, b, parse)(prices[i]) {
      DayIgnoresTheFuture(prices[i], facts, facts, a, b, parse);
    }
  }

  lemma PricesBefore(prices: seq<Price>, company: int, day: int, upTo: int)
    requires day <= upTo + 1
    ensures Filter(PricesUpTo(prices, company, upTo), TradedBefore(day)) == PricesUpTo(prices, company, day - 1)
  {
    FilterSort(Filter(prices, PricedBy(company, upTo)), TradingDate(), TradedBefore(day));
    FilterFilter(prices, PricedBy(company, upTo), TradedBefore(day), PricedBy(company, day - 1));
  }

  lemma ActionsPublicBy(actions: seq<Action>, company: int, asOf: int, t: int)
    requires t <= asOf
    ensures Filter(Filter(actions, ShareAction(company, asOf)), PublicBy(t)) == Filter(actions, ShareAction(company, t))
  {
    FilterFilter(actions, ShareAction(company, asOf), PublicBy(t), ShareAction(company, t));
  }

  /**
   * Prefix stability: moving `as_of` forward leaves the evidence of every trading date strictly
   * before the earlier `as_of` day exactly as it was.
   */
  lemma PrefixStability(prices: seq<Price>, facts: seq<Fact>, actions: seq<Action>, parse: NumberParser,
                        company: int, asOf: int, later: int)
    requires asOf <= later
    ensures Filter(Evidence(prices, facts, actions, parse, company, asOf), Before(DateOf(asOf)))
         == Filter(Evidence(prices, facts, actions, parse, company, later), Before(DateOf(asOf)))
  {
    var day := DateOf(asOf);
    var own := Filter(facts, VerifiedQuarter(company));
    var a, b := Filter(actions, ShareAction(company, asOf)), Filter(actions, ShareAction(company, later));
    OutcomesBefore(PricesUpTo(prices, company, day), own, a, parse, day);
    OutcomesBefore(PricesUpTo(prices, company, DateOf(later)), own, b, parse, day);
    PricesBefore(prices, company, day, day);
    PricesBefore(prices, company, day, DateOf(later));
    var kept := PricesUpTo(prices, company, day - 1);
    SortMembers(Filter(prices, PricedBy(company, day - 1)), TradingDate());
    FilterMembers(prices, PricedBy(company, day - 1));
    forall i | 0 <= i < |kept|
      ensures Filter(a, PublicBy(EndOfDay(kept[i].date))) == Filter(b, PublicBy(EndOfDay(kept[i].date)))
    {
      assert kept[i] in kept;
      EndOfDayBefore(kept[i].date, asOf);
      ActionsPublicBy(actions, company, asOf, EndOfDay(kept[i].date));
      ActionsPublicBy(actions, company, later, EndOfDay(kept[i].date));
    }
    OutcomesAgree(kept, own, a, b, parse);
  }

  // ------------------------------------------------ the day of `as_of` itself

  function Selected(facts: seq<Fact>, t: int): seq<Fact>
  {
    Kept(facts, AvailableBy(t), ByVersion())
  }

  lemma SelectedStep(facts: seq<Fact>, f: Fact, t: int, period: int)
    ensures var e := EntryFor(Selected(facts, t), period);
            EntryFor(Selected(facts + [f], t), period) ==
            if Contends(f, t, period) && (e.None? || f.version > e.value.version) then Some(f) else e
  {
    KeptStep(facts, f, AvailableBy(t), ByVersion(), period);
  }

  /** Selections at two instants agree on a period unless the later one picked something newer than the earlier. */
  lemma {:induction false} SelectionsCompared(facts: seq<Fact>, period: int, t: int, u: int)
    requires t <= u
    ensures var early, late := EntryFor(Selected(facts, t), period), EntryFor(Selected(facts, u), period);
            && (early.Some? ==> early.value.availableAt <= t && late.Some? && early.value.version <= late.value.version)
            && (late.Some? && late.value.availableAt <= t ==> early == late)
  {
    if facts != [] {
      var init, f := facts[..|facts| - 1], facts[|facts| - 1];
      SelectionsCompared(init, period, t, u);
      assert facts == init + [f];
      SelectedStep(init, f, t, period);
      SelectedStep(init, f, u, period);
    }
  }

  predicate Contends(f: Fact, t: int, period: int)
  {
    f.availableAt <= t && f.period == period
  }

  /** Row `m` contends, none that contends has a higher version, and none before it the same. */
  ghost predicate FirstHighest(facts: seq<Fact>, m: nat, t: int, period: int)
  {
    && m < |facts| && Contends(facts[m], t, period)
    && forall j | 0 <= j < |facts| && Contends(facts[j], t, period) ::
         facts[j].version < facts[m].version || (facts[j].version == facts[m].version && m <= j)
  }

  lemma StillHighest(facts: seq<Fact>, f: Fact, m: nat, t: int, period: int)
    requires FirstHighest(facts, m, t, period) && (Contends(f, t, period) ==> f.version <= facts[m].version)
    ensures FirstHighest(facts + [f], m, t, period)
  {
  }

  lemma NewHighest(facts: seq<Fact>, f: Fact, t: int, period: int, e: Option<Fact>)
    requires Contends(f, t, period) && (e.Some? ==> f.version > e.value.version)
    requires e.None? ==> forall j | 0 <= j < |facts| :: !Contends(facts[j], t, period)
    requires e.Some? ==> exists m: nat :: FirstHighest(facts, m, t, period) && facts[m] == e.value
    ensures FirstHighest(facts + [f], |facts|, t, period)
  {
  }

  lemma StillNone(facts: seq<Fact>, f: Fact, t: int, period: int)
    requires !Contends(f, t, period) && forall j | 0 <= j < |facts| :: !Contends(facts[j], t, period)
    ensures forall j | 0 <= j < |facts + [f]| :: !Contends((facts + [f])[j], t, period)
  {
  }

  /** The fact selected for a period is the first of the highest version. */
  lemma {:induction false} EntryIsFirstHighest(facts: seq<Fact>, t: int, period: int) returns (m: nat)
    ensures var e := EntryFor(Selected(facts, t), period);
            && (e.Some? ==> FirstHighest(facts, m, t, period) && facts[m] == e.value)
            && (e.None? ==> forall j | 0 <= j < |facts| :: !Contends(facts[j], t, period))
  {
    m := 0;
    if facts != [] {
      var init, f := facts[..|facts| - 1], facts[|facts| - 1];
      m := EntryIsFirstHighest(init, t, period);
      var e := EntryFor(Selected(init, t), period);
      SelectedStep(init, f, t, period);
      assert facts == init + [f];
      if Contends(f, t, period) && (e.None? || f.version > e.value.version) {
        NewHighest(init, f, t, period, e);
        m := |init|;
      } else if e.Some? {
        StillHighest(init, f, m, t, period);
      } else {
        StillNone(init, f, t, period);
      }
    }
  }

  /**
   * Row `i` became available on the day of `as_of` but after it, and beats whatever was available for
   * the period at `as_of`.
   */
  ghost predicate Overtakes(facts: seq<Fact>, i: nat, period: int, asOf: int)
  {
    && i < |facts| && facts[i].period == period && asOf < facts[i].availableAt <= EndOfDay(DateOf(asOf))
    && forall j | 0 <= j < |facts| && Contends(facts[j], asOf, period) ::
         facts[j].version < facts[i].version || (facts[j].version == facts[i].version && i < j)
  }

  /**
   * "Never looks ahead" fails on the day of `as_of`: prices of that day use facts up to its last
   * microsecond.  For a period another result is used than the one known at `as_of` exactly when some
   * row of the table overtakes those available by then.
   */
  lemma LooksAheadIff(facts: seq<Fact>, period: int, asOf: int)
    ensures EntryFor(Selected(facts, EndOfDay(DateOf(asOf))), period) != EntryFor(Selected(facts, asOf), period)
       <==> exists i :: Overtakes(facts, i, period, asOf)
  {
    var end := EndOfDay(DateOf(asOf));
    EndOfDayBefore(DateOf(asOf), asOf);
    SelectionsCompared(facts, period, asOf, end);
    var m := EntryIsFirstHighest(facts, end, period);
    var used := EntryFor(Selected(facts, end), period);
    if used.Some? && used.value.availableAt > asOf {
      assert Overtakes(facts, m, period, asOf);
    }
    if i: nat :| Overtakes(facts, i, period, asOf) {
      assert Contends(facts[i], end, period);
    }
  }

  /** A period has one end, and no other period has it. */
  ghost predicate EndsIdentifyPeriods(facts: seq<Fact>)
  {
    forall f, g | f in facts && g in facts :: f.period == g.period <==> f.periodEnd == g.periodEnd
  }

  /** The period ends after `end` that some fact available by `t` has. */
  function LaterEndsBy(facts: seq<Fact>, t: int, end: int): set<int>
  {
    set f | f in facts && f.availableAt <= t && f.periodEnd > end :: f.periodEnd
  }

  lemma SelectedEndsApart(facts: seq<Fact>, t: int)
    requires EndsIdentifyPeriods(facts)
    ensures DistinctEnds(Selected(facts, t))
  {
    var latest := Selected(facts, t);
    BothOrder();
    LatestCovers(Filter(facts, AvailableBy(t)), ByVersion());
    forall i, j | 0 <= i < j < |latest| ensures latest[i].periodEnd != latest[j].periodEnd {
      SelectedIsAvailable(facts, t, latest[i]);
      SelectedIsAvailable(facts, t, latest[j]);
    }
  }

  lemma SelectedIsAvailable(facts: seq<Fact>, t: int, f: Fact)
    requires f in Selected(facts, t)
    ensures f in facts && f.availableAt <= t
  {
    LatestAreFacts(Filter(facts, AvailableBy(t)), ByVersion());
    FilterMembers(facts, AvailableBy(t));
  }

  lemma SelectedEnds(facts: seq<Fact>, t: int, end: int)
    requires EndsIdentifyPeriods(facts)
    ensures LaterEnds(Selected(facts, t), end) == LaterEndsBy(facts, t, end)
  {
    var latest := Selected(facts, t);
    forall e ensures e in LaterEnds(latest, end) <==> e in LaterEndsBy(facts, t, end) {
      if e in LaterEnds(latest, end) {
        var f :| f in latest && f.periodEnd > end && f.periodEnd == e;
        SelectedIsAvailable(facts, t, f);
      }
      if e in LaterEndsBy(facts, t, end) {
        var g :| g in facts && g.availableAt <= t && g.periodEnd > end && g.periodEnd == e;
        EndIsSelected(facts, t, g);
      }
    }
  }

  lemma EndIsSelected(facts: seq<Fact>, t: int, g: Fact)
    requires EndsIdentifyPeriods(facts) && g in facts && g.availableAt <= t
    ensures exists f | f in Selected(facts, t) :: f.periodEnd == g.periodEnd
  {
    BothOrder();
    FilterMembers(facts, AvailableBy(t));
    var f := PeriodHasEntry(Filter(facts, AvailableBy(t)), ByVersion(), g);
    SelectedIsAvailable(facts, t, f);
  }

  lemma EntryMembers(latest: seq<Fact>, f: Fact)
    requires OnePerPeriod(latest)
    ensures f in latest <==> EntryFor(latest, f.period) == Some(f)
  {
    if f in latest {
      var i :| 0 <= i < |latest| && latest[i] == f;
      IndexUnique(latest, i);
    }
  }

  /** The selected fact of a period is used that day exactly when fewer than four available ends are later. */
  lemma UsedIff(facts: seq<Fact>, t: int, f: Fact)
    requires EndsIdentifyPeriods(facts)
    ensures f in TopFour(Selected(facts, t))
       <==> EntryFor(Selected(facts, t), f.period) == Some(f) && |LaterEndsBy(facts, t, f.periodEnd)| < 4
  {
    var latest := Selected(facts, t);
    BothOrder();
    LatestCovers(Filter(facts, AvailableBy(t)), ByVersion());
    SelectedEndsApart(facts, t);
    SelectedEnds(facts, t, f.periodEnd);
    EntryMembers(latest, f);
    TopFourDescends(latest);
    if f in latest {
      AmongTopFourIff(latest, f);
    }
  }

  /** Among the results a price of the day of `as_of` uses is one not yet available at `as_of`. */
  ghost predicate LooksAhead(facts: seq<Fact>, asOf: int)
  {
    exists q | q in QuartersOn(facts, DateOf(asOf)) :: q.availableAt > asOf
  }

  /**
   * Prices of the day of `as_of` look ahead exactly when some row overtakes those available for its
   * period at `as_of` and fewer than four periods available that day end later than its own.
   */
  lemma DayLooksAheadIff(facts: seq<Fact>, asOf: int)
    requires EndsIdentifyPeriods(facts)
    ensures LooksAhead(facts, asOf) <==>
            exists i: nat | i < |facts| ::
              && Overtakes(facts, i, facts[i].period, asOf)
              && |LaterEndsBy(facts, EndOfDay(DateOf(asOf)), facts[i].periodEnd)| < 4
  {
    var end := EndOfDay(DateOf(asOf));
    if LooksAhead(facts, asOf) {
      var q :| q in QuartersOn(facts, DateOf(asOf)) && q.availableAt > asOf;
      UsedIff(facts, end, q);
      var m := EntryIsFirstHighest(facts, end, q.period);
      EndOfDayBefore(DateOf(asOf), asOf);
      assert Overtakes(facts, m, facts[m].period, asOf);
    }
    if i: nat :| i < |facts| && Overtakes(facts, i, facts[i].period, asOf)
                 && |LaterEndsBy(facts, end, facts[i].periodEnd)| < 4 {
      OvertakenIsLater(facts, i, asOf);
      var used := EntryFor(Selected(facts, end), facts[i].period).value;
      UsedIff(facts, end, used);
    }
  }

  lemma OvertakenIsLater(facts: seq<Fact>, i: nat, asOf: int)
    requires EndsIdentifyPeriods(facts) && i < |facts| && Overtakes(facts, i, facts[i].period, asOf)
    ensures var used := EntryFor(Selected(facts, EndOfDay(DateOf(asOf))), facts[i].period);
            && used.Some? && used.value.availableAt > asOf
            && used.value.period == facts[i].period && used.value.periodEnd == facts[i].periodEnd
  {
    var end := EndOfDay(DateOf(asOf));
    EndOfDayBefore(DateOf(asOf), asOf);
    LooksAheadIff(facts, facts[i].period, asOf);
    SelectionsCompared(facts, facts[i].period, asOf, end);
    var m := EntryIsFirstHighest(facts, end, facts[i].period);
    assert Contends(facts[i], end, facts[i].period);
    assert facts[m] in facts && facts[i] in facts;
  }

  /** On any earlier day everything used was available before `as_of`. */
  lemma EarlierDaysNeverLookAhead(facts: seq<Fact>, period: int, day: int, asOf: int)
    requires day < DateOf(asOf)
    ensures var used := EntryFor(Selected(facts, EndOfDay(day)), period);
            used.Some? ==> used.value.availableAt < asOf
  {
    EndOfDayBefore(day, asOf);
    SelectionsCompared(facts, period, EndOfDay(day), EndOfDay(day));
  }

  function Filed(period: int, end: int, at: int): Fact
  {
    Fact(period, 1, period, end, "Q4", "STANDALONE", "QUARTER", true, true, 1, at, Some(1.0), None, None)
  }

  lemma {:induction false} PositiveQuartersAdd(quarters: seq<Fact>, date: int, parse: NumberParser)
    requires forall i | 0 <= i < |quarters| :: ReportedEps(quarters[i]).Some? && ReportedEps(quarters[i]).value > 0.0
    ensures TtmEps(quarters, [], date, parse).Some?
  {
    if quarters != [] {
      PositiveQuartersAdd(quarters[..|quarters| - 1], date, parse);
    }
  }

  /** Four positive quarters of distinct periods, newest first and filed by the day's end, are observed. */
  lemma FourAreObserved(price: Price, facts: seq<Fact>, parse: NumberParser)
    requires |facts| == 4 && OnePerPeriod(facts)
    requires forall i | 0 <= i < 4 ::
               && facts[i].availableAt <= EndOfDay(price.date)
               && ReportedEps(facts[i]).Some? && ReportedEps(facts[i]).value > 0.0
    requires forall i, j | 0 <= i < j < 4 :: facts[i].periodEnd >= facts[j].periodEnd
    ensures var o := DayOutcome(price, facts, [], parse);
            o.Observed? && o.resultIds == Map(facts, FactId())
  {
    FilterAll(facts, AvailableBy(EndOfDay(price.date)));
    DistinctAreKept(facts, ByVersion());
    SortedAreTopFour(facts);
    PositiveQuartersAdd(facts, price.date, parse);
  }

  lemma OnePrice(price: Price, facts: seq<Fact>, parse: NumberParser, asOf: int)
    requires price.company == 1 && price.date == DateOf(asOf)
    requires forall i | 0 <= i < |facts| :: VerifiedQuarter(1)(facts[i])
    ensures Evidence([price], facts, [], parse, 1, asOf) == [DayOutcome(price, facts, [], parse)]
  {
    FilterAll(facts, VerifiedQuarter(1));
    OnlyPrice(price, DateOf(asOf));
    assert Outcomes([price], facts, [], parse) == [DayOutcome(price, facts, [], parse)];
  }

  lemma OnlyPrice(price: Price, day: int)
    requires price.company == 1 && price.date == day
    ensures PricesUpTo([price], 1, day) == [price]
  {
    FilterAll([price], PricedBy(1, day));
    SortIsIdentityOnSorted([price], TradingDate());
  }

  /** Four quarters, the newest filed at `at`. */
  function FourQuarters(at: int): seq<Fact>
  {
    [Filed(1, -30, at), Filed(2, -120, 0), Filed(3, -210, 0), Filed(4, -300, 0)]
  }

  lemma FourQuartersObserved(price: Price, at: int, parse: NumberParser)
    requires price.date == 0 && at <= EndOfDay(0)
    ensures var o := DayOutcome(price, FourQuarters(at), [], parse);
            o.Observed? && |o.resultIds| == 4 && o.resultIds[0] == 1
  {
    var facts := FourQuarters(at);
    assert OnePerPeriod(facts);
    assert forall i | 0 <= i < 4 :: VerifiedQuarter(1)(facts[i]);
    FourAreObserved(price, facts, parse);
    assert Map(facts, FactId())[0] == FactId()(facts[0]);
  }

  /** An observation of a morning `as_of` that uses a result filed in the evening of that day. */
  lemma LooksAheadWitness(parse: NumberParser) returns (prices: seq<Price>, facts: seq<Fact>, asOf: int, late: Fact)
    ensures late in facts && late.availableAt > asOf
    ensures var evidence := Evidence(prices, facts, [], parse, 1, asOf);
            |evidence| == 1 && evidence[0].Observed? && late.id in evidence[0].resultIds
  {
    asOf := 36_000_000_000;
    var evening := 64_800_000_000;
    var price := Price(9, 1, 0, 100.0);
    prices, facts, late := [price], FourQuarters(evening), Filed(1, -30, evening);
    assert facts[0] == late;
    OnePrice(price, facts, parse, asOf);
    FourQuartersObserved(price, evening, parse);
  }

  // ------------------------------------------------ the order of stored results

  /**
   * The query behind the evidence has no `order by`, and its dictionary is keyed by period alone
   * although a period can have results of several scopes and sources.  Which result is used is
   * independent of the order of the rows exactly when no two available results tie for the highest
   * version.
   */
  lemma SelectionIgnoresOrderIff(facts: seq<Fact>, t: int, period: int)
    ensures OrderIrrelevant(facts, AvailableBy(t), ByVersion(), period)
       <==> UniqueTop(facts, AvailableBy(t), ByVersion(), period)
  {
    BothOrder();
    ChoiceIgnoresOrderIff(facts, AvailableBy(t), ByVersion(), period);
  }

  /** One period filed on both scopes, each at its first version: the order of the rows decides. */
  lemma SelectionOrderWitness() returns (facts: seq<Fact>)
    ensures !OrderIrrelevant(facts, AvailableBy(0), ByVersion(), 1)
    ensures forall i, j | 0 <= i < j < |facts| ::
              facts[i].scope != facts[j].scope && facts[i].version == facts[j].version == 1
  {
    var alone := Filed(1, -30, 0);
    var group := alone.(id := 2, scope := "CONSOLIDATED");
    facts := [alone, group];
    assert alone.scope != group.scope by {
      assert alone.scope[0] != group.scope[0];
    }
    assert IsTop(facts, alone, AvailableBy(0), ByVersion(), 1) && IsTop(facts, group, AvailableBy(0), ByVersion(), 1);
    SelectionIgnoresOrderIff(facts, 0, 1);
  }

  // -------------------------------------------------- splits and their order

  lemma TimesCommutes(o: Option<real>, f: Option<real>, g: Option<real>)
    ensures Times(Times(o, f), g) == Times(Times(o, g), f)
  {
    if o.Some? && f.Some? && g.Some? {
      var x, y, z := o.value, f.value, g.value;
      assert (x * y) * z == (x * z) * y;
      assert Product(Product(x, y), z) == Product(Product(x, z), y);
    }
  }

  lemma {:induction false} CompoundMoveLast(a: seq<Action>, x: Action, b: seq<Action>, applies: Action -> bool,
                                            parse: NumberParser)
    ensures Compound(a + [x] + b, applies, parse) == Compound(a + b + [x], applies, parse)
  {
    if b == [] {
      assert a + [x] + b == a + b + [x];
    } else {
      var init, y := b[..|b| - 1], b[|b| - 1];
      CompoundMoveLast(a, x, init, applies, parse);
      assert a + [x] + b == (a + [x] + init) + [y];
      assert a + b == (a + init) + [y];
      CompoundAppend(a + [x] + init, y, applies, parse);
      CompoundAppend(a + init, x, applies, parse);
      CompoundAppend(a + init, y, applies, parse);
      CompoundAppend(a + b, x, applies, parse);
      TimesCommutes(Compound(a + init, applies, parse), RatioFactor(x.ratio, parse), RatioFactor(y.ratio, parse));
    }
  }

  lemma {:induction false} CompoundIgnoresOrder(a: seq<Action>, b: seq<Action>, applies: Action -> bool,
                                                parse: NumberParser)
    requires multiset(a) == multiset(b)
    ensures Compound(a, applies, parse) == Compound(b, applies, parse)
    decreases |a|
  {
    assert |a| == |multiset(a)| == |b|;
    if a != [] {
      var init, x := a[..|a| - 1], a[|a| - 1];
      assert a == init + [x];
      assert x in multiset(b);
      var i :| 0 <= i < |b| && b[i] == x;
      assert b == b[..i] + [x] + b[i + 1..];
      var rest := b[..i] + b[i + 1..];
      assert multiset(rest) == multiset(b) - multiset{x} == multiset(init);
      CompoundIgnoresOrder(init, rest, applies, parse);
      CompoundMoveLast(b[..i], x, b[i + 1..], applies, parse);
      CompoundAppend(init, x, applies, parse);
      CompoundAppend(rest, x, applies, parse);
    }
  }

  lemma {:induction false} TtmIgnoresOrder(quarters: seq<Fact>, a: seq<Action>, b: seq<Action>, date: int,
                                           parse: NumberParser)
    requires multiset(a) == multiset(b)
    ensures TtmEps(quarters, a, date, parse) == TtmEps(quarters, b, date, parse)
  {
    if quarters != [] {
      TtmIgnoresOrder(quarters[..|quarters| - 1], a, b, date, parse);
      CompoundIgnoresOrder(a, b, Applies(quarters[|quarters| - 1].periodEnd, date), parse);
    }
  }

  /** The order in which the database returns the actions does not matter. */
  lemma DayIgnoresActionOrder(price: Price, facts: seq<Fact>, a: seq<Action>, b: seq<Action>, parse: NumberParser)
    requires multiset(a) == multiset(b)
    ensures DayOutcome(price, facts, a, parse) == DayOutcome(price, facts, b, parse)
  {
    TtmIgnoresOrder(QuartersOn(facts, price.date), a, b, price.date, parse);
  }

  /** The price-earnings ratio before rounding. */
  function ExactPe(price: Price, facts: seq<Fact>, actions: seq<Action>, parse: NumberParser): (pe: Option<real>)
    ensures var o := DayOutcome(price, facts, actions, parse);
            (o.Observed? <==> pe.Some?) && (pe.Some? ==> o.pe == QuantizeHalfEven(pe.value, 10000.0))
  {
    var quarters := QuartersOn(facts, price.date);
    if |quarters| != 4 then None else
      var ttm := TtmEps(quarters, actions, price.date, parse);
      if ttm.None? then None else Some(price.close / ttm.value)
  }

  lemma DivSum(x: real, y: real, k: real)
    requires k > 0.0
    ensures x / k + y / k == (x + y) / k
  {
  }

  lemma DivCancel(x: real, y: real, k: real)
    requires y > 0.0 && k > 0.0
    ensures y / k > 0.0 && (x / k) / (y / k) == x / y
  {
    var q := x / y;
    assert x == q * y;
    assert x / k == q * (y / k);
  }

  function Added(a: Option<real>, b: Option<real>): Option<real>
  {
    if a.Some? && b.Some? then Some(a.value + b.value) else None
  }

  lemma AddedScales(a: Option<real>, b: Option<real>, a': Option<real>, b': Option<real>, k: real)
    requires k > 0.0 && ScaledBy(a, a', k) && ScaledBy(b, b', k)
    ensures ScaledBy(Added(a, b), Added(a', b'), k)
  {
    if a.Some? && b.Some? {
      DivSum(a.value, b.value, k);
    }
  }

  lemma TtmIsAdded(quarters: seq<Fact>, actions: seq<Action>, date: int, parse: NumberParser)
    requires quarters != []
    ensures TtmEps(quarters, actions, date, parse)
         == Added(TtmEps(quarters[..|quarters| - 1], actions, date, parse),
                  AdjustedEps(quarters[|quarters| - 1], actions, date, parse))
  {
  }

  lemma {:induction false} SplitAdjustsTtm(quarters: seq<Fact>, actions: seq<Action>, split: Action, k: real,
                                           date: int, parse: NumberParser)
    requires RatioFactor(split.ratio, parse) == Some(k)
    requires forall f | f in quarters :: f.periodEnd < split.eventDate
    requires split.eventDate <= date && DateOf(split.availableAt) <= date
    ensures k > 0.0
    ensures ScaledBy(TtmEps(quarters, actions, date, parse), TtmEps(quarters, actions + [split], date, parse), k)
  {
    if quarters != [] {
      var init, f := quarters[..|quarters| - 1], quarters[|quarters| - 1];
      assert f in quarters && forall g | g in init :: g in quarters;
      SplitAdjustsTtm(init, actions, split, k, date, parse);
      ActionAdjusts(f, actions, split, date, parse);
      TtmIsAdded(quarters, actions, date, parse);
      TtmIsAdded(quarters, actions + [split], date, parse);
      AddedScales(TtmEps(init, actions, date, parse), AdjustedEps(f, actions, date, parse),
                  TtmEps(init, actions + [split], date, parse), AdjustedEps(f, actions + [split], date, parse), k);
    }
  }

  /**
   * Split invariance: a split public by the trading day, effective after the quarters' ends and no
   * later than that day, together with the price falling by the same factor, leaves the PE unchanged.
   */
  lemma SplitInvariance(price: Price, facts: seq<Fact>, actions: seq<Action>, split: Action, k: real,
                        parse: NumberParser)
    requires RatioFactor(split.ratio, parse) == Some(k)
    requires forall f | f in QuartersOn(facts, price.date) :: f.periodEnd < split.eventDate
    requires split.eventDate <= price.date && DateOf(split.availableAt) <= price.date
    ensures k > 0.0
    ensures ExactPe(price.(close := price.close / k), facts, actions + [split], parse)
         == ExactPe(price, facts, actions, parse)
  {
    var quarters := QuartersOn(facts, price.date);
    SplitAdjustsTtm(quarters, actions, split, k, price.date, parse);
    var ttm := TtmEps(quarters, actions, price.date, parse);
    if |quarters| == 4 && ttm.Some? {
      DivCancel(price.close, ttm.value, k);
    }
  }

  // ------------------------------------------------ asking again, afterwards

  /** A stored corporate action as the PE band reads it. */
  function ActionOf(): CorporateActions.ActionRow -> Action
  {
    (r: CorporateActions.ActionRow) =>
      Action(r.company, r.key.actionType, r.key.eventDate, r.isLatest, r.availableAt, r.values.ratio)
  }

  lemma StoredShareActions(rows: seq<CorporateActions.ActionRow>, company: int, asOf: int)
    ensures Filter(Map(rows, ActionOf()), ShareAction(company, asOf))
         == Map(CorporateActions.ShareActionsAsOf(rows, company, asOf), ActionOf())
  {
    FilterMap(rows, ActionOf(), CorporateActions.Current(CorporateActions.SplitOrBonus(company), asOf),
      ShareAction(company, asOf));
  }

  /**
   * Over the versioned store, evidence for a past instant comes out the same in any later state in
   * which no split or bonus it uses has been revised.
   */
  lemma EvidenceReplays(prices: seq<Price>, facts: seq<Fact>, parse: NumberParser, company: int,
                        steps: seq<CorporateActions.Step>, asOf: int)
    requires CorporateActions.ClockRunsForward(steps)
    requires forall r | r in CorporateActions.ShareActionsAsOf(
                              CorporateActions.Run(CorporateActions.UpTo(steps, asOf)), company, asOf) ::
               !CorporateActions.Revised(steps, asOf, r)
    ensures Evidence(prices, facts, Map(CorporateActions.Run(steps), ActionOf()), parse, company, asOf)
         == Evidence(prices, facts, Map(CorporateActions.Run(CorporateActions.UpTo(steps, asOf)), ActionOf()), parse,
           company, asOf)
  {
    CorporateActions.ShareActionsReplayIff(steps, company, asOf);
    StoredShareActions(CorporateActions.Run(steps), company, asOf);
    StoredShareActions(CorporateActions.Run(CorporateActions.UpTo(steps, asOf)), company, asOf);
  }

  // ------------------------------------------------------- what is looked at

  /** The prices are the company's own up to the day, each once, oldest first. */
  lemma PricesAre(prices: seq<Price>, company: int, day: int)
    ensures var used := PricesUpTo(prices, company, day);
            && (forall p :: p in used <==> p in prices && p.company == company && p.date <= day)
            && (forall i, j | 0 <= i < j < |used| :: used[i].date <= used[j].date)
            && (forall p :: multiset(used)[p] == if p.company == company && p.date <= day then multiset(prices)[p]
               else 0)
  {
    var kept, used := Filter(prices, PricedBy(company, day)), PricesUpTo(prices, company, day);
    SortSorts(kept, TradingDate());
    SortMembers(kept, TradingDate());
    FilterMembers(prices, PricedBy(company, day));
    forall i, j | 0 <= i < j < |used| ensures used[i].date <= used[j].date {
      assert TradingDate()(used[i]) <= TradingDate()(used[j]);
    }
    forall p ensures multiset(used)[p] == if p.company == company && p.date <= day then multiset(prices)[p] else 0 {
      FilterCounts(prices, PricedBy(company, day), p);
    }
  }

  /**
   * One outcome per price of the company up to the day of `as_of`, in order of trading day, from the
   * company's verified single-quarter results and its current splits and bonuses known at `as_of`.
   */
  lemma EvidenceMeans(prices: seq<Price>, facts: seq<Fact>, actions: seq<Action>, parse: NumberParser,
                      company: int, asOf: int)
    ensures var used := PricesUpTo(prices, company, DateOf(asOf));
            var own, acts := Filter(facts, VerifiedQuarter(company)), Filter(actions, ShareAction(company, asOf));
            && (forall f :: f in own <==> f in facts && f.company == company && f.verified && f.basis == "QUARTER")
            && (forall a :: a in acts <==> a in actions && a.company == company && a.isLatest && a.availableAt <= asOf
                                           && (a.actionType == "split" || a.actionType == "bonus"))
            && var evidence := Evidence(prices, facts, actions, parse, company, asOf);
               && |evidence| == |used|
               && forall i | 0 <= i < |used| :: evidence[i] == DayOutcome(used[i], own, acts, parse)
  {
    FilterMembers(facts, VerifiedQuarter(company));
    FilterMembers(actions, ShareAction(company, asOf));
  }

  /**
   * The stored actions read are the company's flagged splits and bonuses known at `as_of`, with their
   * own dates and ratios.
   */
  lemma StoredShareActionsAre(rows: seq<CorporateActions.ActionRow>, company: int, asOf: int, a: Action)
    ensures a in Filter(Map(rows, ActionOf()), ShareAction(company, asOf)) <==>
            exists r | r in rows ::
              && r.company == company && (r.key.actionType == "split" || r.key.actionType == "bonus")
              && r.isLatest && r.availableAt <= asOf
              && a.company == r.company && a.actionType == r.key.actionType && a.eventDate == r.key.eventDate
              && a.isLatest && a.availableAt == r.availableAt && a.ratio == r.values.ratio
  {
    FilterMapMembers(rows, ActionOf(), ShareAction(company, asOf), a);
  }
}
