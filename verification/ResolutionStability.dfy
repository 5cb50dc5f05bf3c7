/** Resolving holdings again gives the same company, as long as an ISIN keeps its listing. */
module ResolutionStability {
  import opened Basics
  import opened Text
  import opened Instruments

  /** The (symbol, exchange) an ISIN trades under. */
  type Listing = string -> (string, string)

  ghost predicate Respects(h: Holding, home: Listing)
  {
    h.isin.Some? ==> home(h.isin.value) == (Upper(h.symbol), Upper(h.exchange))
  }

  ghost predicate Homed(rows: seq<Instrument>, home: Listing)
  {
    forall i | 0 <= i < |rows| && rows[i].isin.Some? :: home(rows[i].isin.value) == (rows[i].symbol, rows[i].exchange)
  }

  /** Every instrument belongs to a company of the table. */
  ghost predicate Assigned(st: State)
  {
    forall i | 0 <= i < |st.instruments| ::
      st.instruments[i].companyId.Some? && st.instruments[i].companyId.value < |st.companies|
  }

  ghost predicate Stable(st: State, home: Listing)
  {
    WellFormed(st) && Homed(st.instruments, home) && Assigned(st)
  }

  /** One row per ISIN follows from one row per listing. */
  lemma HomedIsUnique(st: State, home: Listing)
    requires Stable(st, home)
    ensures UniqueIsins(st.instruments)
  {
    var rows := st.instruments;
    forall i, j | 0 <= i < j < |rows| && rows[i].isin.Some? ensures rows[i].isin != rows[j].isin {
    }
  }

  /** Rows keep their identity and their company; only the activity stamp may move. */
  ghost predicate SameInstrument(a: Instrument, b: Instrument)
  {
    b == a.(isActive := b.isActive, lastSeen := b.lastSeen)
  }

  ghost predicate Extends(st: State, later: State)
  {
    && |st.instruments| <= |later.instruments|
    && st.companies <= later.companies
    && forall i | 0 <= i < |st.instruments| :: SameInstrument(st.instruments[i], later.instruments[i])
  }

  /** The row listed under the holding's symbol and exchange. */
  ghost predicate ListedAs(st: State, h: Holding, i: nat)
  {
    i < |st.instruments| && HasSymbol(h.symbol, h.exchange)(st.instruments[i])
  }

  lemma ListedFound(st: State, h: Holding, i: nat)
    requires WellFormed(st) && ListedAs(st, h, i)
    ensures FindSymbol(st.instruments, h.symbol, h.exchange) == Ok(Some(st.instruments[i]))
  {
    SymbolLookup(st.instruments, h.symbol, h.exchange);
    var found := FindSymbol(st.instruments, h.symbol, h.exchange).value;
    assert found.Some?;
    var r := found.value;
    assert st.instruments[r.id] == r;
    if r.id < i {
    } else if i < r.id {
    }
  }

  /** An ISIN already in the table leads to the row of its listing. */
  lemma IsinFound(st: State, h: Holding, home: Listing)
    requires Stable(st, home) && Respects(h, home) && h.isin.Some?
    ensures var found := FindIsin(st.instruments, h.isin.value);
            && found.Ok?
            && (found.value.Some? ==> ListedAs(st, h, found.value.value.id)
                                      && st.instruments[found.value.value.id] == found.value.value
                                      && found.value.value.isin == h.isin)
            && (found.value.None? ==> forall i | 0 <= i < |st.instruments| :: st.instruments[i].isin != h.isin)
  {
    HomedIsUnique(st, home);
    IsinLookup(st.instruments, h.isin.value);
  }

  /** A holding whose listing is already known changes nothing but the stamp, and resolves to that row's company. */
  lemma KnownListing(st: State, h: Holding, home: Listing, now: int, i: nat)
    requires Stable(st, home) && Respects(h, home) && ListedAs(st, h, i)
    ensures var (after, result) := Resolve(st, h, now);
            && Stable(after, home) && Extends(st, after)
            && |after.instruments| == |st.instruments| && after.companies == st.companies
            && (result.Ok? ==> result.value.companyId == st.instruments[i].companyId)
            && (result.Ok? <==> Acceptable(st, h, i))
  {
    ListedFound(st, h, i);
    if h.isin.Some? {
      IsinFound(st, h, home);
      assert st.instruments[i].isin == h.isin ==> FindIsin(st.instruments, h.isin.value).value.Some?;
    }
  }

  /** The schema is checked only when the listed row is found by ISIN. */
  ghost predicate Acceptable(st: State, h: Holding, i: nat)
    requires i < |st.instruments|
  {
    InstrumentOk(h) || h.isin.None? || st.instruments[i].isin != h.isin
  }

  /** A new listing is added with its company. */
  lemma NewListing(st: State, h: Holding, companyId: nat, home: Listing, now: int)
    requires Stable(st, home) && Respects(h, home)
    requires FindSymbol(st.instruments, h.symbol, h.exchange) == Ok(None)
    requires companyId < |st.companies|
    ensures var after := st.(instruments := UpsertInstrument(st.instruments, h, Some(companyId), now));
            && Stable(after, home) && Extends(st, after)
            && ListedAs(after, h, |st.instruments|)
            && |after.instruments| == |st.instruments| + 1
            && after.instruments[|st.instruments|].companyId == Some(companyId)
  {
    SymbolLookup(st.instruments, h.symbol, h.exchange);
    UpsertKeepsTable(st.instruments, h, Some(companyId), now);
  }

  lemma StubKeeps(st: State, h: Holding, home: Listing)
    requires Stable(st, home)
    requires forall i | 0 <= i < |st.companies| ::
               st.companies[i].symbol != Upper(h.symbol) && (h.isin == None || st.companies[i].isin != h.isin)
    ensures var after := st.(companies := st.companies + [StubCompany(st.companies, h)]);
            Stable(after, home) && Extends(st, after)
  {
  }

  /**
   * Resolving any holding keeps the tables sound and every earlier row in place; if it succeeds the
   * holding's listing has a row, and the answer is that row's company.
   */
  lemma ResolveOnce(st: State, h: Holding, home: Listing, now: int)
    requires Stable(st, home) && Respects(h, home)
    ensures var (after, result) := Resolve(st, h, now);
            && Stable(after, home) && Extends(st, after)
            && (result.Ok? ==> exists i: nat ::
                  ListedAs(after, h, i) && Acceptable(after, h, i)
                    && result.value.companyId == after.instruments[i].companyId)
  {
    var (after, result) := Resolve(st, h, now);
    SymbolLookup(st.instruments, h.symbol, h.exchange);
    var bySymbol := FindSymbol(st.instruments, h.symbol, h.exchange);
    if bySymbol.value.Some? {
      var i := bySymbol.value.value.id;
      KnownListing(st, h, home, now, i);
      assert SameInstrument(st.instruments[i], after.instruments[i]);
      assert ListedAs(after, h, i);
    } else {
      ResolveNew(st, h, home, now);
    }
  }

  /** The row a new listing is linked with, unless the schema refuses it. */
  ghost predicate LinkedNew(st: State, after: State, result: Result<Resolved, string>, h: Holding, home: Listing)
  {
    && Stable(after, home) && Extends(st, after)
    && (result.Ok? ==> InstrumentOk(h) && ListedAs(after, h, |st.instruments|)
                       && result.value.companyId == after.instruments[|st.instruments|].companyId)
  }

  lemma LinkNew(st: State, h: Holding, companyId: nat, via: Path, home: Listing, now: int)
    requires Stable(st, home) && Respects(h, home)
    requires FindSymbol(st.instruments, h.symbol, h.exchange) == Ok(None)
    requires companyId < |st.companies|
    ensures var (after, result) := Link(st, h, companyId, via, now);
            LinkedNew(st, after, result, h, home)
  {
    NewListing(st, h, companyId, home, now);
  }

  lemma ResolveNew(st: State, h: Holding, home: Listing, now: int)
    requires Stable(st, home) && Respects(h, home)
    requires FindSymbol(st.instruments, h.symbol, h.exchange) == Ok(None)
    ensures var (after, result) := Resolve(st, h, now);
            LinkedNew(st, after, result, h, home)
  {
    SymbolLookup(st.instruments, h.symbol, h.exchange);
    CompanyLookups(st.companies, h.symbol, if h.isin.Some? then h.isin.value else "");
    if h.isin.Some? {
      IsinFound(st, h, home);
    }
    var byIsin := if h.isin.Some? then FindCompanyIsin(st.companies, h.isin.value).value else None;
    var company := FindCompany(st.companies, h.symbol).value;
    if byIsin.Some? {
      LinkNew(st, h, byIsin.value.id, ByIsin, home, now);
    } else if company.Some? {
      LinkNew(st, h, company.value.id, BySymbolExchange, home, now);
    } else {
      StubKeeps(st, h, home);
      var stub := StubCompany(st.companies, h);
      LinkNew(st.(companies := st.companies + [stub]), h, stub.id, CreatedNew, home, now);
    }
  }

  // -------------------------------------------------------------- whole runs

  datatype Arrival = Arrival(holding: Holding, now: int)

  ghost predicate AllRespect(arrivals: seq<Arrival>, home: Listing)
  {
    forall n | 0 <= n < |arrivals| :: Respects(arrivals[n].holding, home)
  }

  ghost function RunFrom(st: State, arrivals: seq<Arrival>, home: Listing): (after: State)
    requires Stable(st, home) && AllRespect(arrivals, home)
    ensures Stable(after, home) && Extends(st, after)
    decreases |arrivals|
  {
    if arrivals == [] then st else
      var last := arrivals[|arrivals| - 1];
      var before := RunFrom(st, arrivals[..|arrivals| - 1], home);
      ResolveOnce(before, last.holding, home, last.now);
      Resolve(before, last.holding, last.now).0
  }

  /**
   * Stable resolution: a holding that resolved once resolves to the same company after any further
   * stream of holdings, and adds no instrument and no company.
   */
  lemma ResolutionIsStable(st: State, first: seq<Arrival>, h: Holding, now: int, rest: seq<Arrival>, later: int,
                           home: Listing)
    requires Stable(st, home) && AllRespect(first, home) && Respects(h, home) && AllRespect(rest, home)
    ensures var (resolved, answer) := Resolve(RunFrom(st, first, home), h, now);
            && Stable(resolved, home)
            && (answer.Ok? ==>
                  var end := RunFrom(resolved, rest, home);
                  var (again, second) := Resolve(end, h, later);
                  && second.Ok? && second.value.companyId == answer.value.companyId
                  && |again.instruments| == |end.instruments| && again.companies == end.companies)
  {
    ResolveOnce(RunFrom(st, first, home), h, home, now);
    var (resolved, answer) := Resolve(RunFrom(st, first, home), h, now);
    if answer.Ok? {
      var i: nat :| ListedAs(resolved, h, i) && Acceptable(resolved, h, i)
        && answer.value.companyId == resolved.instruments[i].companyId;
      var end := RunFrom(resolved, rest, home);
      assert SameInstrument(resolved.instruments[i], end.instruments[i]);
      assert ListedAs(end, h, i);
      KnownListing(end, h, home, later, i);
    }
  }

  // ------------------------------------------------- an ISIN that changes listing

  /** Some row carries the holding's ISIN under another listing. */
  ghost predicate Relisted(rows: seq<Instrument>, h: Holding)
  {
    h.isin.Some? && exists i | 0 <= i < |rows| :: rows[i].isin == h.isin && !HasSymbol(h.symbol, h.exchange)(rows[i])
  }

  lemma UpsertIsin(rows: seq<Instrument>, h: Holding, companyId: Option<nat>, now: int) returns (j: nat)
    requires InstrumentTable(rows)
    ensures var after := UpsertInstrument(rows, h, companyId, now);
            && j < |after| <= |rows| + 1 && |rows| <= |after|
            && HasSymbol(h.symbol, h.exchange)(after[j])
            && (h.isin.Some? ==> after[j].isin == h.isin)
            && (h.isin.None? && j < |rows| ==> after[j].isin == rows[j].isin)
            && (h.isin.None? && j == |rows| ==> after[j].isin == None)
            && (forall i | 0 <= i < |rows| && i != j :: after[i] == rows[i])
            && (j < |rows| ==> |after| == |rows| && HasSymbol(h.symbol, h.exchange)(rows[j]))
            && (j >= |rows| ==> j == |rows| && |after| == |rows| + 1
                                && forall i | 0 <= i < |rows| :: !HasSymbol(h.symbol, h.exchange)(rows[i]))
  {
    SymbolLookup(rows, h.symbol, h.exchange);
    UpperTwice(h.symbol);
    var found := FindSymbol(rows, h.symbol, h.exchange).value;
    j := if found.Some? then found.value.id else |rows|;
  }

  /**
   * Without the premise on listings: resolving keeps at most one row per ISIN exactly when the
   * holding is malformed or its ISIN is not already held by another listing.
   */
  lemma IsinStaysUniqueIff(st: State, h: Holding, now: int)
    requires WellFormed(st) && UniqueIsins(st.instruments)
    ensures UniqueIsins(Resolve(st, h, now).0.instruments) <==> !(InstrumentOk(h) && Relisted(st.instruments, h))
  {
    var rows := st.instruments;
    SymbolLookup(rows, h.symbol, h.exchange);
    CompanyLookups(st.companies, h.symbol, if h.isin.Some? then h.isin.value else "");
    if h.isin.Some? {
      IsinLookup(rows, h.isin.value);
    }
    forall c: Option<nat> ensures UniqueIsins(UpsertInstrument(rows, h, c, now)) <==> !Relisted(rows, h) {
      UpsertUnique(rows, h, c, now);
    }
  }

  lemma UpsertUnique(rows: seq<Instrument>, h: Holding, companyId: Option<nat>, now: int)
    requires InstrumentTable(rows) && UniqueIsins(rows)
    ensures UniqueIsins(UpsertInstrument(rows, h, companyId, now)) <==> !Relisted(rows, h)
  {
    var after := UpsertInstrument(rows, h, companyId, now);
    var j := UpsertIsin(rows, h, companyId, now);
    if Relisted(rows, h) {
      var i :| 0 <= i < |rows| && rows[i].isin == h.isin && !HasSymbol(h.symbol, h.exchange)(rows[i]);
      assert after[i] == rows[i] && i != j;
      assert after[i].isin == after[j].isin;
    } else {
      forall i | 0 <= i < |rows| && i != j && h.isin.Some? ensures rows[i].isin != h.isin {
        assert !HasSymbol(h.symbol, h.exchange)(rows[i]);
      }
      forall a, b | 0 <= a < b < |after| ensures after[a].isin == None || after[a].isin != after[b].isin {
        assert a != j ==> after[a] == rows[a];
        assert b != j ==> after[b] == rows[b];
      }
    }
  }

  // -------------------------------------------------------- ambiguous ISINs

  /** How many rows carry the ISIN. */
  function Carriers(rows: seq<Instrument>, isin: string): nat
  {
    |Filter(rows, HasIsin(isin))|
  }

  /** While two rows carry an ISIN, every holding with it fails and changes nothing. */
  lemma AmbiguousIsinFails(st: State, h: Holding, now: int)
    requires h.isin.Some? && Carriers(st.instruments, h.isin.value) >= 2
    requires WellFormed(st)
    ensures Resolve(st, h, now) == (st, Err("MultipleResultsFound"))
  {
  }

  /**
   * Two rows carry the ISIN, one of them the holding's own, and the holding brings another ISIN, known
   * from one row, that replaces it there.
   */
  ghost predicate Cures(st: State, h: Holding, isin: string)
  {
    && InstrumentOk(h) && h.isin.Some? && h.isin.value != isin
    && Carriers(st.instruments, h.isin.value) == 1
    && Carriers(st.instruments, isin) == 2
    && exists i | 0 <= i < |st.instruments| ::
         HasSymbol(h.symbol, h.exchange)(st.instruments[i]) && st.instruments[i].isin == Some(isin)
  }

  /** The row listed under the holding's symbol and exchange, if there is one. */
  function ListingOf(rows: seq<Instrument>, h: Holding): Option<Instrument>
  {
    var found := FindSymbol(rows, h.symbol, h.exchange);
    if found.Ok? then found.value else None
  }

  lemma CarriersAfterUpsert(rows: seq<Instrument>, h: Holding, companyId: Option<nat>, now: int, isin: string)
    requires InstrumentTable(rows)
    ensures var found := ListingOf(rows, h);
            var kept := if h.isin.Some? then h.isin else if found.Some? then found.value.isin else None;
            Carriers(UpsertInstrument(rows, h, companyId, now), isin) ==
            Carriers(rows, isin) - (if found.Some? && found.value.isin == Some(isin) then 1 else 0)
                                 + (if kept == Some(isin) then 1 else 0)
  {
    SymbolLookup(rows, h.symbol, h.exchange);
    var found, after := FindSymbol(rows, h.symbol, h.exchange).value, UpsertInstrument(rows, h, companyId, now);
    if found.Some? {
      FilterUpdateSize(rows, found.value.id, after[found.value.id], HasIsin(isin));
    } else {
      FilterAppend(rows, after[|rows|], HasIsin(isin));
    }
  }

  /** The listing found for a holding is the only row with its symbol and exchange. */
  lemma CuresAt(st: State, h: Holding, isin: string)
    requires WellFormed(st)
    ensures var found := ListingOf(st.instruments, h);
            (found.Some? && found.value.isin == Some(isin)) <==>
            exists i | 0 <= i < |st.instruments| :: HasSymbol(h.symbol, h.exchange)(st.instruments[i])
              && st.instruments[i].isin == Some(isin)
  {
    SymbolLookup(st.instruments, h.symbol, h.exchange);
    forall i | 0 <= i < |st.instruments| && HasSymbol(h.symbol, h.exchange)(st.instruments[i])
      ensures FindSymbol(st.instruments, h.symbol, h.exchange) == Ok(Some(st.instruments[i])) {
      ListedFound(st, h, i);
    }
  }

  /** A resolution leaves an ISIN ambiguous exactly when it does not cure it. */
  lemma StaysAmbiguousIff(st: State, h: Holding, now: int, isin: string)
    requires WellFormed(st) && Carriers(st.instruments, isin) >= 2
    ensures Carriers(Resolve(st, h, now).0.instruments, isin) >= 2 <==> !Cures(st, h, isin)
  {
    CuresAt(st, h, isin);
    SymbolLookup(st.instruments, h.symbol, h.exchange);
    if ListingOf(st.instruments, h).Some? {
      ListedTouches(st, h, now);
      CarriersAfterUpsert(st.instruments, h, None, now, isin);
    } else {
      NewKeepsCarriers(st, h, now, isin);
    }
  }

  /** A holding whose listing is known rewrites that row exactly when it is accepted and its ISIN known from one row. */
  lemma ListedTouches(st: State, h: Holding, now: int)
    requires WellFormed(st) && ListingOf(st.instruments, h).Some?
    ensures Resolve(st, h, now).0.instruments ==
            if InstrumentOk(h) && h.isin.Some? && Carriers(st.instruments, h.isin.value) == 1
            then UpsertInstrument(st.instruments, h, None, now) else st.instruments
  {
  }

  lemma NewKeepsCarriers(st: State, h: Holding, now: int, isin: string)
    requires WellFormed(st) && FindSymbol(st.instruments, h.symbol, h.exchange) == Ok(None)
    ensures Carriers(Resolve(st, h, now).0.instruments, isin) >= Carriers(st.instruments, isin)
  {
    var after := Resolve(st, h, now).0.instruments;
    NewTouches(st, h, now);
    if after != st.instruments {
      var c :| after == UpsertInstrument(st.instruments, h, c, now);
      CarriersAfterUpsert(st.instruments, h, c, now, isin);
    }
  }

  /** A holding whose listing is not known changes nothing or adds a row for it. */
  lemma NewTouches(st: State, h: Holding, now: int)
    requires WellFormed(st) && FindSymbol(st.instruments, h.symbol, h.exchange) == Ok(None)
    ensures var after := Resolve(st, h, now).0.instruments;
            after == st.instruments || exists c :: after == UpsertInstrument(st.instruments, h, c, now)
  {
    CompanyLookups(st.companies, h.symbol, if h.isin.Some? then h.isin.value else "");
  }

  ghost function RunAny(st: State, arrivals: seq<Arrival>): (after: State)
    requires WellFormed(st)
    ensures WellFormed(after)
  {
    if arrivals == [] then st else
      var last := arrivals[|arrivals| - 1];
      var before := RunAny(st, arrivals[..|arrivals| - 1]);
      ResolveKeepsWellFormed(before, last.holding, last.now);
      Resolve(before, last.holding, last.now).0
  }

  /** No arrival meets a state in which it would cure the ISIN. */
  ghost predicate NeverCured(st: State, arrivals: seq<Arrival>, isin: string)
    requires WellFormed(st)
  {
    arrivals != [] ==>
      var init := arrivals[..|arrivals| - 1];
      NeverCured(st, init, isin) && !Cures(RunAny(st, init), arrivals[|arrivals| - 1].holding, isin)
  }

  /** The ISIN is ambiguous now and was so all along. */
  ghost predicate AlwaysAmbiguous(st: State, arrivals: seq<Arrival>, isin: string)
    requires WellFormed(st)
  {
    && Carriers(RunAny(st, arrivals).instruments, isin) >= 2
    && (arrivals != [] ==> AlwaysAmbiguous(st, arrivals[..|arrivals| - 1], isin))
  }

  /** Over any stream of holdings an ambiguous ISIN stays ambiguous throughout exactly when none of them cures it. */
  lemma {:induction false} AmbiguityLastsIff(st: State, arrivals: seq<Arrival>, isin: string)
    requires WellFormed(st) && Carriers(st.instruments, isin) >= 2
    ensures AlwaysAmbiguous(st, arrivals, isin) <==> NeverCured(st, arrivals, isin)
  {
    if arrivals != [] {
      var init, last := arrivals[..|arrivals| - 1], arrivals[|arrivals| - 1];
      AmbiguityLastsIff(st, init, isin);
      if AlwaysAmbiguous(st, init, isin) {
        StaysAmbiguousIff(RunAny(st, init), last.holding, last.now, isin);
      }
    }
  }

  /** No well-formed arrival meets a state in which its ISIN is held under another listing. */
  ghost predicate NeverRelisted(st: State, arrivals: seq<Arrival>)
    requires WellFormed(st)
  {
    arrivals != [] ==>
      var init, last := arrivals[..|arrivals| - 1], arrivals[|arrivals| - 1];
      NeverRelisted(st, init) && !(InstrumentOk(last.holding) && Relisted(RunAny(st, init).instruments, last.holding))
  }

  ghost predicate AlwaysUnique(st: State, arrivals: seq<Arrival>)
    requires WellFormed(st)
  {
    && UniqueIsins(RunAny(st, arrivals).instruments)
    && (arrivals != [] ==> AlwaysUnique(st, arrivals[..|arrivals| - 1]))
  }

  /** Over any stream of holdings ISINs stay unique throughout exactly when no arrival is relisted. */
  lemma {:induction false} UniqueThroughoutIff(st: State, arrivals: seq<Arrival>)
    requires WellFormed(st) && UniqueIsins(st.instruments)
    ensures AlwaysUnique(st, arrivals) <==> NeverRelisted(st, arrivals)
  {
    if arrivals != [] {
      var init, last := arrivals[..|arrivals| - 1], arrivals[|arrivals| - 1];
      UniqueThroughoutIff(st, init);
      if AlwaysUnique(st, init) {
        IsinStaysUniqueIff(RunAny(st, init), last.holding, last.now);
      }
    }
  }

  /** Two holdings of one ISIN under two symbols: the third holding with it fails. */
  lemma AmbiguousIsinWitness() returns (arrivals: seq<Arrival>, third: Holding)
    ensures InstrumentOk(third)
    ensures var st := RunAny(State([], []), arrivals);
            Resolve(st, third, 3) == (st, Err("MultipleResultsFound"))
  {
    var isin := Some("INE263A01024");
    third := Holding("A", "NSE", isin, "EQ");
    var other := third.(symbol := "B");
    arrivals := [Arrival(third, 1), Arrival(other, 2)];
    assert Upper(third.symbol)[0] != Upper(other.symbol)[0];
    SecondListing(third, other);
    var st := RunAny(State([], []), arrivals);
    AmbiguousIsinFails(st, third, 3);
  }

  lemma SecondListing(h: Holding, other: Holding)
    requires InstrumentOk(h) && CompanyOk(h) && InstrumentOk(other) && h.isin.Some? && other.isin == h.isin
    requires Upper(h.symbol) != Upper(other.symbol)
    ensures Carriers(RunAny(State([], []), [Arrival(h, 1), Arrival(other, 2)]).instruments, h.isin.value) == 2
  {
    var empty, p := State([], []), HasIsin(h.isin.value);
    var one := Resolve(empty, h, 1).0;
    ResolveKeepsWellFormed(empty, h, 1);
    FirstListing(h);
    var two := Resolve(one, other, 2).0;
    assert FindSymbol(one.instruments, other.symbol, other.exchange) == Ok(None);
    CarriersAfterUpsert(one.instruments, other, None, 2, h.isin.value);
    var arrivals := [Arrival(h, 1), Arrival(other, 2)];
    assert arrivals[..1] == [Arrival(h, 1)] && [Arrival(h, 1)][..0] == [];
    assert RunAny(empty, arrivals[..1]) == one;
    assert RunAny(empty, arrivals) == two;
  }

  lemma FirstListing(h: Holding)
    requires InstrumentOk(h) && CompanyOk(h) && h.isin.Some?
    ensures var st := Resolve(State([], []), h, 1).0;
            && |st.instruments| == 1 && st.instruments[0].symbol == Upper(h.symbol) && st.instruments[0].isin == h.isin
            && FindIsin(st.instruments, h.isin.value) == Ok(Some(st.instruments[0]))
            && Carriers(st.instruments, h.isin.value) == 1
  {
    var st := Resolve(State([], []), h, 1).0;
    assert st.instruments[..0] == [];
    assert Filter(st.instruments, HasIsin(h.isin.value)) == [st.instruments[0]];
  }
}
