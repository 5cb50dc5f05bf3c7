/** `services/instrument_resolver.py` over the instrument and company repositories. */
module Instruments {
  import opened Basics
  import opened Text

  // ------------------------------------------------------------------- rows

  datatype Company = Company(id: nat, symbol: string, isin: Option<string>, name: string, exchange: string)

  datatype Instrument = Instrument(
    id: nat, symbol: string, exchange: string, isin: Option<string>, instrumentType: string,
    companyId: Option<nat>, isActive: bool, lastSeen: int)

  /** A broker holding, its defaults filled in and an empty ISIN read as absent. */
  datatype Holding = Holding(symbol: string, exchange: string, isin: Option<string>, instrumentType: string)

  datatype Path = ByIsin | BySymbolExchange | CreatedNew

  datatype Resolved = Resolved(companyId: Option<nat>, via: Path)

  const INSTRUMENT_TYPES: set<string> := {"EQ", "ETF", "MF", "BE", "BL", "GB", "GS", "INDEX", "OTHER"}

  predicate ExchangeOk(exchange: string) { exchange == "NSE" || exchange == "BSE" }

  predicate IsinOk(isin: Option<string>) { isin.Some? ==> |isin.value| == 12 }

  /** What the `InstrumentCreate` schema accepts. */
  predicate InstrumentOk(h: Holding)
  {
    1 <= |h.symbol| <= 50 && ExchangeOk(h.exchange) && IsinOk(h.isin) && h.instrumentType in INSTRUMENT_TYPES
  }

  /** What the `CompanyCreate` schema accepts. */
  predicate CompanyOk(h: Holding)
  {
    1 <= |h.symbol| <= 30 && ExchangeOk(h.exchange) && IsinOk(h.isin)
  }

  // ---------------------------------------------------------------- lookups

  function HasIsin(isin: string): Instrument -> bool { (i: Instrument) => i.isin == Some(isin) }

  function HasSymbol(symbol: string, exchange: string): Instrument -> bool
  {
    (i: Instrument) => i.symbol == Upper(symbol) && i.exchange == Upper(exchange)
  }

  function CompanyHasIsin(isin: string): Company -> bool { (c: Company) => c.isin == Some(isin) }

  function CompanyHasSymbol(symbol: string): Company -> bool { (c: Company) => c.symbol == Upper(symbol) }

  function FindIsin(rows: seq<Instrument>, isin: string): Result<Option<Instrument>, string>
  {
    OneOrNone(Filter(rows, HasIsin(isin)))
  }

  function FindSymbol(rows: seq<Instrument>, symbol: string, exchange: string): Result<Option<Instrument>, string>
  {
    OneOrNone(Filter(rows, HasSymbol(symbol, exchange)))
  }

  function FindCompanyIsin(rows: seq<Company>, isin: string): Result<Option<Company>, string>
  {
    OneOrNone(Filter(rows, CompanyHasIsin(isin)))
  }

  function FindCompany(rows: seq<Company>, symbol: string): Result<Option<Company>, string>
  {
    OneOrNone(Filter(rows, CompanyHasSymbol(symbol)))
  }

  // -------------------------------------------------------------- invariants

  ghost predicate InstrumentTable(rows: seq<Instrument>)
  {
    && (forall i | 0 <= i < |rows| :: rows[i].id == i)
    && (forall i, j | 0 <= i < j < |rows| :: rows[i].symbol != rows[j].symbol || rows[i].exchange != rows[j].exchange)
  }

  ghost predicate CompanyTable(rows: seq<Company>)
  {
    && (forall i | 0 <= i < |rows| :: rows[i].id == i)
    && (forall i, j | 0 <= i < j < |rows| :: rows[i].symbol != rows[j].symbol)
    && (forall i, j | 0 <= i < j < |rows| :: rows[i].isin == None || rows[i].isin != rows[j].isin)
  }

  datatype State = State(instruments: seq<Instrument>, companies: seq<Company>)

  ghost predicate WellFormed(st: State)
  {
    && InstrumentTable(st.instruments)
    && CompanyTable(st.companies)
    && (forall i | 0 <= i < |st.instruments| && st.instruments[i].companyId.Some? ::
          st.instruments[i].companyId.value < |st.companies|)
  }

  ghost predicate UniqueIsins(rows: seq<Instrument>)
  {
    forall i, j | 0 <= i < j < |rows| :: rows[i].isin == None || rows[i].isin != rows[j].isin
  }

  lemma FindsWhat<T>(rows: seq<T>, p: T -> bool)
    requires |Filter(rows, p)| <= 1
    ensures var found := OneOrNone(Filter(rows, p));
            && found.Ok?
            && (found.value.Some? ==> found.value.value in rows && p(found.value.value))
            && (found.value.None? ==> forall i | 0 <= i < |rows| :: !p(rows[i]))
  {
    FilterMembers(rows, p);
    if Filter(rows, p) != [] {
      assert Filter(rows, p)[0] in Filter(rows, p);
    }
    assert forall i | 0 <= i < |rows| :: rows[i] in rows;
  }

  /** The unique constraint makes the symbol lookup unambiguous. */
  lemma SymbolLookup(rows: seq<Instrument>, symbol: string, exchange: string)
    requires InstrumentTable(rows)
    ensures var found := FindSymbol(rows, symbol, exchange);
            && found.Ok?
            && (found.value.Some? ==>
                  var r := found.value.value;
                  r.id < |rows| && rows[r.id] == r && HasSymbol(symbol, exchange)(r))
            && (found.value.None? ==> forall i | 0 <= i < |rows| :: !HasSymbol(symbol, exchange)(rows[i]))
  {
    AtMostOne(rows, HasSymbol(symbol, exchange));
    FindsWhat(rows, HasSymbol(symbol, exchange));
  }

  lemma IsinLookup(rows: seq<Instrument>, isin: string)
    requires InstrumentTable(rows) && UniqueIsins(rows)
    ensures var found := FindIsin(rows, isin);
            && found.Ok?
            && (found.value.Some? ==>
                  var r := found.value.value;
                  r.id < |rows| && rows[r.id] == r && r.isin == Some(isin))
            && (found.value.None? ==> forall i | 0 <= i < |rows| :: rows[i].isin != Some(isin))
  {
    AtMostOne(rows, HasIsin(isin));
    FindsWhat(rows, HasIsin(isin));
    if FindIsin(rows, isin).value.None? {
      assert forall i | 0 <= i < |rows| :: !HasIsin(isin)(rows[i]);
    }
  }

  lemma CompanyLookups(rows: seq<Company>, symbol: string, isin: string)
    requires CompanyTable(rows)
    ensures var found := FindCompany(rows, symbol);
            && found.Ok?
            && (found.value.Some? ==> found.value.value.id < |rows| && rows[found.value.value.id] == found.value.value)
            && (found.value.None? ==> forall i | 0 <= i < |rows| :: rows[i].symbol != Upper(symbol))
    ensures var found := FindCompanyIsin(rows, isin);
            && found.Ok?
            && (found.value.Some? ==> found.value.value.id < |rows| && rows[found.value.value.id] == found.value.value)
            && (found.value.None? ==> forall i | 0 <= i < |rows| :: rows[i].isin != Some(isin))
  {
    AtMostOne(rows, CompanyHasSymbol(symbol));
    AtMostOne(rows, CompanyHasIsin(isin));
    FindsWhat(rows, CompanyHasSymbol(symbol));
    FindsWhat(rows, CompanyHasIsin(isin));
    assert forall c: Company :: CompanyHasSymbol(symbol)(c) <==> c.symbol == Upper(symbol);
    assert forall c: Company :: CompanyHasIsin(isin)(c) <==> c.isin == Some(isin);
  }

  // ---------------------------------------------------------------- updates

  /** `InstrumentRepository.upsert` after the schema check, the lookup answering `existing`. */
  function UpsertInstrument(rows: seq<Instrument>, h: Holding, companyId: Option<nat>, now: int): seq<Instrument>
    requires forall i | 0 <= i < |rows| :: rows[i].id == i
  {
    var existing := FindSymbol(rows, h.symbol, h.exchange);
    if existing.Err? then rows
    else if existing.value.Some? then
      FilterMembers(rows, HasSymbol(h.symbol, h.exchange));
      var e := existing.value.value;
      assert e in Filter(rows, HasSymbol(h.symbol, h.exchange));
      rows[e.id := e.(isin := if h.isin.Some? then h.isin else e.isin,
                      companyId := if companyId.Some? && e.companyId.None? then companyId else e.companyId,
                      isActive := true, lastSeen := now)]
    else
      rows + [Instrument(|rows|, Upper(h.symbol), Upper(h.exchange), h.isin, h.instrumentType, companyId, true, now)]
  }

  /** The company stub of an unknown instrument. */
  function StubCompany(rows: seq<Company>, h: Holding): Company
  {
    Company(|rows|, Upper(h.symbol), h.isin, Upper(h.symbol), h.exchange)
  }

  /** Same listing; a company once assigned is never replaced and an ISIN never erased. */
  predicate KeepsIdentity(before: Instrument, after: Instrument)
  {
    && after.id == before.id && after.symbol == before.symbol && after.exchange == before.exchange
    && after.instrumentType == before.instrumentType
    && (before.companyId.Some? ==> after.companyId == before.companyId)
    && (before.isin.Some? ==> after.isin.Some?)
  }

  lemma UpsertKeepsIdentity(rows: seq<Instrument>, h: Holding, companyId: Option<nat>, now: int)
    requires InstrumentTable(rows)
    ensures var after := UpsertInstrument(rows, h, companyId, now);
            && |rows| <= |after|
            && (forall i | 0 <= i < |rows| :: KeepsIdentity(rows[i], after[i]))
            && (exists i | 0 <= i < |after| :: HasSymbol(h.symbol, h.exchange)(after[i])
                                                && (h.isin.Some? ==> after[i].isin == h.isin))
  {
    SymbolLookup(rows, h.symbol, h.exchange);
    var after, found := UpsertInstrument(rows, h, companyId, now), FindSymbol(rows, h.symbol, h.exchange).value;
    var i := if found.Some? then found.value.id else |rows|;
    assert HasSymbol(h.symbol, h.exchange)(after[i]) && (h.isin.Some? ==> after[i].isin == h.isin);
  }

  class InstrumentRepository {
    var rows: seq<Instrument>

    constructor ()
      ensures rows == []
    {
      rows := [];
    }

    /** Insert or update by symbol and exchange; the schema check comes first. */
    method Upsert(h: Holding, companyId: Option<nat>, now: int) returns (ok: bool)
      requires InstrumentTable(rows)
      modifies this
      ensures InstrumentTable(rows)
      ensures ok <==> InstrumentOk(h)
      ensures rows == if ok then UpsertInstrument(old(rows), h, companyId, now) else old(rows)
      ensures |old(rows)| <= |rows| && forall i | 0 <= i < |old(rows)| :: KeepsIdentity(old(rows)[i], rows[i])
      ensures ok ==> exists i | 0 <= i < |rows| :: HasSymbol(h.symbol, h.exchange)(rows[i])
                                                    && (h.isin.Some? ==> rows[i].isin == h.isin)
    {
      if !InstrumentOk(h) {
        return false;
      }
      ok := true;
      UpsertKeepsTable(rows, h, companyId, now);
      UpsertKeepsIdentity(rows, h, companyId, now);
      SymbolLookup(rows, h.symbol, h.exchange);
      var existing := FindSymbol(rows, h.symbol, h.exchange).value;
      if existing.Some? {
        var e := existing.value;
        if h.isin.Some? && e.isin != h.isin {
          e := e.(isin := h.isin);
        }
        if companyId.Some? && e.companyId.None? {
          e := e.(companyId := companyId);
        }
        rows := rows[e.id := e.(isActive := true, lastSeen := now)];
        return;
      }
      rows := rows + [Instrument(|rows|, Upper(h.symbol), Upper(h.exchange), h.isin, h.instrumentType, companyId,
        true, now)];
    }
  }

  class CompanyRepository {
    var rows: seq<Company>

    constructor ()
      ensures rows == []
    {
      rows := [];
    }

    /** Insert or update by symbol; a clash with another company's ISIN is refused by the table. */
    method UpsertStub(h: Holding) returns (stub: Result<Company, string>)
      requires CompanyTable(rows)
      modifies this
      ensures CompanyTable(rows)
      ensures stub.Ok? ==> stub.value.id < |rows| && rows[stub.value.id] == stub.value
      ensures !CompanyOk(h) ==> stub.Err?
      ensures stub.Err? ==> rows == old(rows)
      ensures CompanyOk(h)
              && (forall c | c in old(rows) :: c.symbol != Upper(h.symbol) && (h.isin == None || c.isin != h.isin))
              ==> stub == Ok(StubCompany(old(rows), h)) && rows == old(rows) + [StubCompany(old(rows), h)]
    {
      if !CompanyOk(h) {
        return Err("invalid company");
      }
      CompanyLookups(rows, Upper(h.symbol), "");
      UpperTwice(h.symbol);
      var existing := FindCompany(rows, Upper(h.symbol)).value;
      if existing.Some? {
        var e := existing.value.(name := Upper(h.symbol), exchange := h.exchange,
                                 isin := if h.isin.Some? then h.isin else existing.value.isin);
        assert existing.value in rows;
        if exists i | 0 <= i < |rows| && i != e.id :: h.isin.Some? && rows[i].isin == h.isin {
          return Err("duplicate isin");
        }
        CompanyRename(rows, h.symbol);
        rows := rows[e.id := e];
        return Ok(e);
      }
      if exists i | 0 <= i < |rows| :: h.isin.Some? && rows[i].isin == h.isin {
        return Err("duplicate isin");
      }
      stub := Ok(StubCompany(rows, h));
      rows := rows + [StubCompany(rows, h)];
    }
  }

  lemma CompanyRename(rows: seq<Company>, symbol: string)
    requires CompanyTable(rows)
    ensures var found := FindCompany(rows, Upper(symbol));
            found.Ok? && (found.value.Some? ==> found.value.value.symbol == Upper(symbol))
  {
    CompanyLookups(rows, Upper(symbol), "");
    UpperTwice(symbol);
    FilterMembers(rows, CompanyHasSymbol(Upper(symbol)));
    var matches := Filter(rows, CompanyHasSymbol(Upper(symbol)));
    if matches != [] {
      assert matches[0] in matches;
    }
  }

  lemma UpsertKeepsTable(rows: seq<Instrument>, h: Holding, companyId: Option<nat>, now: int)
    requires InstrumentTable(rows)
    ensures InstrumentTable(UpsertInstrument(rows, h, companyId, now))
  {
    SymbolLookup(rows, h.symbol, h.exchange);
  }

  // --------------------------------------------------------------- resolution

  /** Outcome of resolving a holding: the new state, and the identity or the error raised. */
  function Resolve(st: State, h: Holding, now: int): (State, Result<Resolved, string>)
    requires forall i | 0 <= i < |st.instruments| :: st.instruments[i].id == i
  {
    var byIsin := if h.isin.Some? then FindIsin(st.instruments, h.isin.value) else Ok(None);
    if byIsin.Err? then (st, Err(byIsin.error))
    else if byIsin.value.Some? then
      if !InstrumentOk(h) then (st, Err("ValidationError"))
      else (st.(instruments := UpsertInstrument(st.instruments, h, None, now)),
            Ok(Resolved(byIsin.value.value.companyId, ByIsin)))
    else
    var bySymbol := FindSymbol(st.instruments, h.symbol, h.exchange);
    if bySymbol.Err? then (st, Err(bySymbol.error))
    else if bySymbol.value.Some? then (st, Ok(Resolved(bySymbol.value.value.companyId, BySymbolExchange)))
    else
    var companyByIsin := if h.isin.Some? then FindCompanyIsin(st.companies, h.isin.value) else Ok(None);
    if companyByIsin.Err? then (st, Err(companyByIsin.error))
    else if companyByIsin.value.Some? then Link(st, h, companyByIsin.value.value.id, ByIsin, now)
    else
    var company := FindCompany(st.companies, h.symbol);
    if company.Err? then (st, Err(company.error))
    else if company.value.Some? then Link(st, h, company.value.value.id, BySymbolExchange, now)
    else if !CompanyOk(h) then (st, Err("ValidationError"))
    else
      var stub := StubCompany(st.companies, h);
      Link(st.(companies := st.companies + [stub]), h, stub.id, CreatedNew, now)
  }

  /** `_upsert_instrument` and the return that follows it. */
  function Link(st: State, h: Holding, companyId: nat, via: Path, now: int): (State, Result<Resolved, string>)
    requires forall i | 0 <= i < |st.instruments| :: st.instruments[i].id == i
  {
    if !InstrumentOk(h) then (st, Err("ValidationError"))
    else (st.(instruments := UpsertInstrument(st.instruments, h, Some(companyId), now)),
      Ok(Resolved(Some(companyId), via)))
  }

  lemma LinkKeepsWellFormed(st: State, h: Holding, companyId: nat, via: Path, now: int)
    requires WellFormed(st) && companyId < |st.companies|
    ensures WellFormed(Link(st, h, companyId, via, now).0)
  {
    SymbolLookup(st.instruments, h.symbol, h.exchange);
    UpsertKeepsTable(st.instruments, h, Some(companyId), now);
  }

  lemma SeenKeepsWellFormed(st: State, h: Holding, now: int)
    requires WellFormed(st)
    ensures WellFormed(st.(instruments := UpsertInstrument(st.instruments, h, None, now)))
  {
    SymbolLookup(st.instruments, h.symbol, h.exchange);
    UpsertKeepsTable(st.instruments, h, None, now);
  }

  lemma StubKeepsWellFormed(st: State, h: Holding)
    requires WellFormed(st)
    requires forall i | 0 <= i < |st.companies| ::
               st.companies[i].symbol != Upper(h.symbol) && (h.isin == None || st.companies[i].isin != h.isin)
    ensures WellFormed(st.(companies := st.companies + [StubCompany(st.companies, h)]))
  {
  }

  /** Whatever is resolved, both tables stay unique and every company reference valid. */
  lemma ResolveKeepsWellFormed(st: State, h: Holding, now: int)
    requires WellFormed(st)
    ensures WellFormed(Resolve(st, h, now).0)
  {
    SymbolLookup(st.instruments, h.symbol, h.exchange);
    SeenKeepsWellFormed(st, h, now);
    CompanyLookups(st.companies, h.symbol, if h.isin.Some? then h.isin.value else "");
    var byIsin := if h.isin.Some? then FindCompanyIsin(st.companies, h.isin.value).value else None;
    var company := FindCompany(st.companies, h.symbol).value;
    if byIsin.Some? {
      LinkKeepsWellFormed(st, h, byIsin.value.id, ByIsin, now);
    } else if company.Some? {
      LinkKeepsWellFormed(st, h, company.value.id, BySymbolExchange, now);
    } else {
      StubKeepsWellFormed(st, h);
      var stub := StubCompany(st.companies, h);
      LinkKeepsWellFormed(st.(companies := st.companies + [stub]), h, stub.id, CreatedNew, now);
    }
  }

  class InstrumentResolver {
    const instruments: InstrumentRepository
    const companies: CompanyRepository

    constructor (instruments: InstrumentRepository, companies: CompanyRepository)
      ensures this.instruments == instruments && this.companies == companies
    {
      this.instruments, this.companies := instruments, companies;
    }

    ghost function Current(): State
      reads this, instruments, companies
    {
      State(instruments.rows, companies.rows)
    }

    method ResolveHolding(h: Holding, now: int) returns (result: Result<Resolved, string>)
      requires WellFormed(Current())
      modifies instruments, companies
      ensures WellFormed(Current())
      ensures (Current(), result) == Resolve(old(Current()), h, now)
    {
      ResolveKeepsWellFormed(Current(), h, now);
      if h.isin.Some? {
        var lookup := FindIsin(instruments.rows, h.isin.value);
        if lookup.Err? {
          return Err(lookup.error);
        }
        if lookup.value.Some? {
          var ok := instruments.Upsert(h, None, now);
          return if ok then Ok(Resolved(lookup.value.value.companyId, ByIsin)) else Err("ValidationError");
        }
      }
      SymbolLookup(instruments.rows, h.symbol, h.exchange);
      var bySymbol := FindSymbol(instruments.rows, h.symbol, h.exchange).value;
      if bySymbol.Some? {
        return Ok(Resolved(bySymbol.value.companyId, BySymbolExchange));
      }
      if h.isin.Some? {
        CompanyLookups(companies.rows, h.symbol, h.isin.value);
        var company := FindCompanyIsin(companies.rows, h.isin.value).value;
        if company.Some? {
          var ok := instruments.Upsert(h, Some(company.value.id), now);
          return if ok then Ok(Resolved(Some(company.value.id), ByIsin)) else Err("ValidationError");
        }
      }
      CompanyLookups(companies.rows, h.symbol, "");
      var company := FindCompany(companies.rows, h.symbol).value;
      if company.Some? {
        var ok := instruments.Upsert(h, Some(company.value.id), now);
        return if ok then Ok(Resolved(Some(company.value.id), BySymbolExchange)) else Err("ValidationError");
      }
      forall c | c in companies.rows ensures c.symbol != Upper(h.symbol) && (h.isin == None || c.isin != h.isin) {
        var i :| 0 <= i < |companies.rows| && companies.rows[i] == c;
      }
      var stub := companies.UpsertStub(h);
      if stub.Err? {
        return Err("ValidationError");
      }
      var ok := instruments.Upsert(h, Some(stub.value.id), now);
      return if ok then Ok(Resolved(Some(stub.value.id), CreatedNew)) else Err("ValidationError");
    }
  }

  // -------------------------------------------------- what resolving does

  /** The row of this symbol and exchange, in any letter case. */
  ghost predicate IsListing(r: Instrument, h: Holding)
  {
    r.symbol == Upper(h.symbol) && r.exchange == Upper(h.exchange)
  }

  /**
   * An upsert rewrites the listing's row, a given ISIN replacing the stored one and a company being set
   * only where there was none, or adds a row for it; either way it is active and seen now.
   */
  lemma UpsertMeans(rows: seq<Instrument>, h: Holding, companyId: Option<nat>, now: int)
    requires InstrumentTable(rows)
    ensures var after := UpsertInstrument(rows, h, companyId, now);
            if exists r | r in rows :: IsListing(r, h) then
              && |after| == |rows|
              && forall i | 0 <= i < |rows| ::
                   if IsListing(rows[i], h) then
                     && after[i]
                        == rows[i].(isin := after[i].isin, companyId := after[i].companyId, isActive := true,
                          lastSeen := now)
                     && (h.isin.Some? ==> after[i].isin == h.isin) && (h.isin.None? ==> after[i].isin == rows[i].isin)
                     && (rows[i].companyId.Some? ==> after[i].companyId == rows[i].companyId)
                     && (rows[i].companyId.None? ==> after[i].companyId == companyId)
                   else after[i] == rows[i]
            else
              after == rows + [Instrument(|rows|, Upper(h.symbol), Upper(h.exchange), h.isin, h.instrumentType,
                companyId, true, now)]
  {
    SymbolLookup(rows, h.symbol, h.exchange);
    var found := FindSymbol(rows, h.symbol, h.exchange).value;
    if found.Some? {
      assert rows[found.value.id] in rows && IsListing(rows[found.value.id], h);
    } else {
      forall r | r in rows ensures !IsListing(r, h) {
        var i :| 0 <= i < |rows| && rows[i] == r;
        assert !HasSymbol(h.symbol, h.exchange)(rows[i]);
      }
    }
  }

  /** Some instrument, some company carries the holding's ISIN. */
  ghost predicate IsinListed(st: State, h: Holding)
  {
    h.isin.Some? && exists i | 0 <= i < |st.instruments| :: st.instruments[i].isin == h.isin
  }

  ghost predicate IsinKnown(st: State, h: Holding)
  {
    h.isin.Some? && exists i | 0 <= i < |st.companies| :: st.companies[i].isin == h.isin
  }

  ghost predicate Listed(st: State, h: Holding)
  {
    exists i | 0 <= i < |st.instruments| :: IsListing(st.instruments[i], h)
  }

  ghost predicate SymbolKnown(st: State, h: Holding)
  {
    exists i | 0 <= i < |st.companies| :: st.companies[i].symbol == Upper(h.symbol)
  }

  /** By which of the lookups, in their order, a holding is resolved when no ISIN is ambiguous. */
  lemma ViaMeans(st: State, h: Holding, now: int)
    requires WellFormed(st) && UniqueIsins(st.instruments)
    ensures var (after, result) := Resolve(st, h, now);
            result.Ok? ==>
              && (result.value.via == ByIsin <==> IsinListed(st, h) || (!Listed(st, h) && IsinKnown(st, h)))
              && (result.value.via == CreatedNew <==>
                    !IsinListed(st, h) && !Listed(st, h) && !IsinKnown(st, h) && !SymbolKnown(st, h))
              && (result.value.via == CreatedNew <==> after.companies != st.companies)
              && (result.value.via == CreatedNew ==>
                    after.companies == st.companies +
                      [Company(|st.companies|, Upper(h.symbol), h.isin, Upper(h.symbol), h.exchange)])
  {
    ListedIff(st, h);
    CompanyLookups(st.companies, h.symbol, if h.isin.Some? then h.isin.value else "");
    if h.isin.Some? {
      IsinLookup(st.instruments, h.isin.value);
      FoundCompany(st.companies, CompanyHasIsin(h.isin.value));
    }
    FoundCompany(st.companies, CompanyHasSymbol(h.symbol));
  }

  lemma ListedIff(st: State, h: Holding)
    requires WellFormed(st)
    ensures FindSymbol(st.instruments, h.symbol, h.exchange).Ok?
    ensures Listed(st, h) <==> FindSymbol(st.instruments, h.symbol, h.exchange).value.Some?
  {
    SymbolLookup(st.instruments, h.symbol, h.exchange);
    var found := FindSymbol(st.instruments, h.symbol, h.exchange).value;
    if found.Some? {
      assert IsListing(st.instruments[found.value.id], h);
    } else {
      assert forall i | 0 <= i < |st.instruments| :: !HasSymbol(h.symbol, h.exchange)(st.instruments[i]);
    }
  }

  lemma FoundCompany(rows: seq<Company>, p: Company -> bool)
    requires |Filter(rows, p)| <= 1
    ensures OneOrNone(Filter(rows, p)).Ok?
    ensures OneOrNone(Filter(rows, p)).value.Some? <==> exists i | 0 <= i < |rows| :: p(rows[i])
  {
    FindsWhat(rows, p);
    var found := OneOrNone(Filter(rows, p)).value;
    if found.Some? {
      var i :| 0 <= i < |rows| && rows[i] == found.value;
    }
  }

  /**
   * What is accepted: a holding not found by ISIN or listing is resolved exactly when its symbol, exchange,
   * ISIN and type are well-formed, its symbol being shorter where a company has to be made for it.
   */
  lemma NewHoldingAcceptedIff(st: State, h: Holding, now: int)
    requires WellFormed(st) && UniqueIsins(st.instruments) && !IsinListed(st, h) && !Listed(st, h)
    ensures Resolve(st, h, now).1.Ok? <==>
            && 1 <= |h.symbol| <= (if IsinKnown(st, h) || SymbolKnown(st, h) then 50 else 30)
            && (h.exchange == "NSE" || h.exchange == "BSE")
            && (h.isin.Some? ==> |h.isin.value| == 12)
            && h.instrumentType in {"EQ", "ETF", "MF", "BE", "BL", "GB", "GS", "INDEX", "OTHER"}
  {
    ListedIff(st, h);
    CompanyLookups(st.companies, h.symbol, if h.isin.Some? then h.isin.value else "");
    if h.isin.Some? {
      IsinLookup(st.instruments, h.isin.value);
      FoundCompany(st.companies, CompanyHasIsin(h.isin.value));
    }
    FoundCompany(st.companies, CompanyHasSymbol(h.symbol));
  }
}
