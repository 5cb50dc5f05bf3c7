# Verified model of the investing agent's evidence pipeline

A Dafny model of the parts of the investing agent whose correctness is an argument over whole runs
rather than over one function: the versioned fact store and its point-in-time views, the
point-in-time PE band and valuation, the governed-policy validation with its approval lifecycle, the
first-in first-out replay of a portfolio, and the smaller state machines beside them (instrument
resolution, document amendments, theses, pattern buckets, portfolio weights).  `dafny verify dfyconfig.toml` checks the whole project.

## How it is laid out

| modules | what they hold |
|---|---|
| `Basics`, `Sorting`, `Rounding`, `Clock`, `Text` | list queries and nested loops, stable sorting, `Decimal.quantize`, the microsecond clock, letter case and order of names |
| `VersionedTable`, `VersionedHistory` | the append-only versioned table shared by corporate actions and financial results, generic in key and values |
| `CorporateActions`, `FinancialResults` | the two repositories as classes, and their runs |
| `QuarterFacts`, `QuarterChoice`, `PeBand`, `PeEvidence`, `FiscalCalendar`, `Valuation` | quarter selection, the observation loop, what it may depend on, fiscal quarters, fair values |
| `AuditRows`, `GovernedPolicy`, `PolicyEvidence`, `PolicyLifecycle`, `PersonalPolicy` | summaries, expanding folds, what a verdict forces, the approval state machine, descriptive buckets |
| `Instruments`, `ResolutionStability`, `DocumentVersions`, `DocumentHistory`, `Theses`, `Portfolio` | the supporting state machines |
| `FifoAccounts`, `FifoReplay` | first-in first-out replay of trades, splits and opening adjustments, and its profit and share accounting |

Code that changes state is a class or a method with a loop, proved against a specification function;
the theorems are lemmas about that function, mostly over runs.  A table is a `seq` of rows, a row's
`id` is its position and stands for the generated UUID, a foreign key is such a position.
`scalar_one_or_none` is `OneOrNone`, which fails on two matches, so every use of it carries a proof
that there is at most one.  Timestamps are microseconds and dates are days, both in UTC; the database
clock (`now`) is an input of each step.  Decimals are exact reals: only an explicit `quantize` rounds.

## Where the code does less than its documentation says

Each item has a lemma giving the exact condition or a concrete input.

- **"Never downgrades EXACT"** (`investing_agent/db/repositories/financial.py:316`).  A DATE_ONLY
  re-ingestion of unchanged values over an EXACT row resets it (`:179-180`):
  `PrecisionLostIff`, `PrecisionLostWitness`.
- **Queries that want the latest flag as well as availability.**  The dividend calendar as of an instant
  (`corporate_action.py:138-164`), the splits and bonuses behind the PE band
  (`historical_pe_band.py:57`) and the financial result behind a valuation (`valuation.py:56-57`) lose
  a fact known at that instant once it is revised: `CalendarRemembersIff`, `ShareActionsReplayIff`,
  `CandidateIff`, with a run each in `CalendarForgetsWitness`, `SplitForgottenWitness` and
  `RevisedResultWitness`.
- **"Never looks ahead"** (`historical_pe_band.py:46`) holds for trading days strictly before
  `as_of`; on the day of `as_of` facts filed until its last microsecond are used (`:62`):
  `EarlierDaysNeverLookAhead`, `DayLooksAheadIff`, `LooksAheadWitness`.
- **One result per period** (`historical_pe_band.py:63-69`).  The dictionary is keyed by period
  although a period can carry results of several scopes and sources, and the query is unordered; the
  choice is independent of row order exactly when no two tie for the highest version:
  `SelectionIgnoresOrderIff`, `SelectionOrderWitness`.  For the valuation's own dictionary
  (`valuation.py:75-79`) the same holds of ties on version and availability: `TtmIgnoresOrderIff`.
- **"Contiguous" quarters** (`valuation.py:85-86`) are judged by label only; four quarters more than a
  year apart can yield earnings: `TtmQuartersApart`, `ContiguityWitness`.
- **Dead gates.**  `non_positive_ttm_eps` can never be recorded (`NonPositiveTtmNeverHappens`); the two
  sample-size gates never decide a verdict when there are two valid folds (`BacktestedIff`).
- **A second listing for one ISIN** makes lookups by that ISIN fail (`instrument_resolver.py:56-59`)
  until a holding that gives one of the two rows another ISIN happens to arrive:
  `UniqueThroughoutIff`, `AmbiguousIsinFails`, `StaysAmbiguousIff`, `AmbiguityLastsIff`,
  `AmbiguousIsinWitness`.
- **"Always reconstructable" correction history** (`investing_agent/db/models.py:640-642`).  An
  accepted amendment loses nothing followed before, is met by whoever comes to the amended document
  from another one and from the latest version of the amended document, and is followed there by
  everything that followed the amending document, exactly when that latest version has no successor,
  no version of the amending document has another one, and no earlier amendment left the amended
  document behind its latest version: `AmendmentKeepsHistoryIff`, `AmendedTwiceWitness`,
  `AmendedByAmendedWitness`.  Runs of such amendments keep this: `RunsReconstruct`.  Even they leave a
  document that became an amendment with a dead end, its own original version, from which a later
  amendment of the document is not met: `RunsMeetExactly`, `DeadEndWitness`.
- **Creating a thesis** through the API without looking for a current one (`app/api/company.py:80-91`)
  leaves two current theses: `CreateKeepsIff`, `CreatedTwiceWitness`.

## Model

| member | source | states |
|---|---|---|
| `VersionedTable.LatestPerGroup` | investing_agent/db/repositories/financial.py:245-264 | the dictionary loop returns, per group, the row `order_by(version desc).limit(1)` would return, and no other keys |
| `VersionedTable.LatestIsLast` | investing_agent/db/repositories/financial.py:85-97 | on every well-formed table `get_latest` finds exactly one row or none, namely the last version of the group: it never raises |
| `VersionedTable.InsertGroup` | investing_agent/db/repositories/financial.py:113-171 | a new version extends its own group by version n+1 linked to version n, un-flags only the superseded row, and leaves every other group untouched |
| `VersionedHistory.InsertKeepsChained` | investing_agent/db/repositories/corporate_action.py:67-104 | inserting keeps versions 1..n, each linked to its predecessor, exactly the last one flagged latest |
| `VersionedHistory.InsertMeans` | investing_agent/db/repositories/financial.py:113-171 | an insertion appends a row with the given values and availability, one version above the group's highest, and clears one flag |
| `VersionedHistory.RewriteKeepsChained` | investing_agent/db/repositories/financial.py:173-180 | in-place rewrites of provenance keep the same invariant |
| `VersionedHistory.KnownIsLastVisible` | investing_agent/db/repositories/financial.py:198-220 | `get_as_of` answers with the last row of the group that was available by then |
| `VersionedHistory.KnownMeans` | investing_agent/db/repositories/financial.py:198-220 | it is of that fact, available by then and of the company if one is given, and none such has a higher version; nothing is found exactly when there is none |
| `VersionedHistory.ViewMeans` | investing_agent/db/repositories/financial.py:245-264 | the same of the company view, key by key |
| `VersionedHistory.InsertNoticedIff` | investing_agent/db/repositories/financial.py:198-220 | an insertion changes a point-in-time answer exactly when it concerns that fact and is available by that time |
| `VersionedHistory.RewriteNoticedIff` | investing_agent/db/repositories/financial.py:173-180 | an in-place rewrite changes a point-in-time answer exactly when it moves the row's availability across the time while no higher version is visible |
| `VersionedHistory.ViewRefinesGetAsOf` | investing_agent/db/repositories/financial.py:198-264 | for every group the company view holds what `get_as_of` returns, exactly when that row belongs to the company |
| `VersionedHistory.KnownGrows` | investing_agent/db/repositories/financial.py:198-220 | asking about a later time never gives a lower version |
| `VersionedHistory.ViewCatchesUp` | investing_agent/db/repositories/financial.py:222-264 | once the time has passed every availability the view holds the rows flagged latest |
| `VersionedHistory.ViewIgnoresRowOrder` | investing_agent/db/repositories/financial.py:245-264 | the view does not depend on the order in which the rows come back |
| `VersionedHistory.FlagHidesIff` | investing_agent/services/valuation.py:53-60 | a query for the flagged row available by T that also asks p finds the fact exactly when what was known at T is still its last version and satisfies p |
| `FinancialResults.CandidateIff` | investing_agent/services/valuation.py:53-60 | a group has a row for the valuation of T exactly when what was known of it at T is still its last version, verified and the company's own |
| `FinancialResults.CandidatesKeptIff` | investing_agent/services/valuation.py:53-60 | one ingestion, verification or timestamp upgrade leaves the rows the valuation of T chooses from as they are exactly when it changes, supersedes or makes none of them |
| `FinancialResults.RevisedResultWitness` | investing_agent/services/valuation.py:53-60 | a verified result known at T and revised after T, of which the query for T finds nothing |
| `Valuation.LatestFinancialReplays` | investing_agent/services/valuation.py:53-60 | over every run that touches none of those rows, the valuation of T starts from the same result and scope |
| `VersionedHistory.SameVersionSameRow` | investing_agent/db/models.py:571-576 | the unique constraint on group and version holds in every well-formed table |
| `CorporateActions.CorporateActionRepository.UpsertVersioned` | investing_agent/db/repositories/corporate_action.py:54-104 | unchanged values change nothing, changed values add a version; the returned row is the group's latest with the given values; the whole new table is stated |
| `CorporateActions.UpsertMeans` | investing_agent/db/repositories/corporate_action.py:54-104 | nothing changes exactly when the fact's latest row has these values; otherwise a version with them is appended, available from now |
| `CorporateActions.CorporateActionRepository.ListByCompanyAsOf` | investing_agent/db/repositories/corporate_action.py:118-136 | the loop computes the point-in-time view of the company |
| `CorporateActions.HistoryIsDestutteredInput` | investing_agent/db/repositories/corporate_action.py:54-104 | over every run the stored history of every fact is the ingested sequence without consecutive repetitions |
| `CorporateActions.PastIsKept` | investing_agent/db/repositories/corporate_action.py:54-104 | with a forward clock, each group at the end of a run is the group at time T plus versions available after T |
| `CorporateActions.CalendarMeans` | investing_agent/db/repositories/corporate_action.py:138-164 | the calendar holds exactly the latest dividends of the companies asked for, or of all, whose ex-date lies from the day to `days` after it, both included, and that were available by the instant, if one is given |
| `CorporateActions.CalendarInOrder` | investing_agent/db/repositories/corporate_action.py:163 | by ex-date |
| `CorporateActions.TimeTravel` | investing_agent/db/repositories/corporate_action.py:54-136 | the view as of T asked in any later state holds exactly the rows `list_by_company` returned in the state reached by the steps executed by T |
| `CorporateActions.CalendarShowsUnrevised` | investing_agent/db/repositories/corporate_action.py:138-164 | the calendar as of T shows a row exactly when it was known at T, is in the window and has not been revised since |
| `CorporateActions.CalendarRemembersIff` | investing_agent/db/repositories/corporate_action.py:138-164 | over a run, what the calendar showed at T is still shown for T exactly when no later step revised it; any companies, any window |
| `CorporateActions.CurrentReplaysIff` | investing_agent/db/repositories/corporate_action.py:138-164 | over every run, a query for the latest rows available by T still finds a row it found at T exactly when no later step reported that fact with other values, and gives the same answer exactly when none of its rows was so revised |
| `CorporateActions.CalendarForgetsWitness` | investing_agent/db/repositories/corporate_action.py:138-164 | a concrete two-step run in which a dividend drops out of the earlier calendar |
| `CorporateActions.ShareActionsReplayIff` | investing_agent/services/historical_pe_band.py:56-58 | the splits and bonuses read for T in a later state are the same exactly when no later step revised one of them |
| `CorporateActions.SplitForgottenWitness` | investing_agent/services/historical_pe_band.py:56-58 | a 1:2 split corrected to 1:5 that is gone when asked for the time before |
| `FinancialResults.FinancialResultRepository.UpsertVersioned` | investing_agent/db/repositories/financial.py:99-180 | unchanged values refresh provenance in place, changed values add a version, as `UpsertMeans` spells out; returned row, creation flag and the whole new table are stated |
| `FinancialResults.UpsertMeans` | investing_agent/db/repositories/financial.py:99-180 | when the group's latest row has these values exactly that row is rewritten: its availability and publication become the given ones or stay, its precision becomes the given one, its verification and values stay; otherwise a version is appended |
| `FinancialResults.VerificationMeans` | investing_agent/db/repositories/financial.py:282-305 | a verification changes the verification of the one row and nothing else, for every table |
| `FinancialResults.UpgradeMeans` | investing_agent/db/repositories/financial.py:307-325 | a timestamp upgrade sets availability, publication and EXACT on the one row, keeps its verification and changes nothing else |
| `FinancialResults.FinancialResultRepository.SetVerificationTrail` | investing_agent/db/repositories/financial.py:282-305 | rewrites the verification fields of the one row, fails exactly on an unknown id and then changes nothing |
| `FinancialResults.FinancialResultRepository.UpgradeTimestampPrecision` | investing_agent/db/repositories/financial.py:307-325 | sets both timestamps and EXACT on the one row, fails exactly on an unknown id and then changes nothing |
| `FinancialResults.FinancialResultRepository.ListByCompanyAsOf` | investing_agent/db/repositories/financial.py:245-264 | the loop computes the point-in-time view of the company |
| `FinancialResults.HistoryIsDestutteredInput` | investing_agent/db/repositories/financial.py:99-196 | whatever verifications and timestamp upgrades are interleaved, the reported values of every group are the ingested ones without consecutive repetitions |
| `FinancialResults.StepNoticedIff` | investing_agent/db/repositories/financial.py:99-325 | exactly which steps change what a query at T answers about a fact, over the fields of the step: what an ingestion stores as its availability, and which timestamps move across T |
| `FinancialResults.PastIsNotRewritten` | investing_agent/db/repositories/financial.py:99-325 | a run none of whose steps does so leaves the answer, row and values, standing |
| `FinancialResults.EarliestIsFirstKnown` | investing_agent/db/repositories/financial.py:231-243 | some fact of a period is known at T exactly when T has reached the earliest availability of the period |
| `FinancialResults.NothingKnownBeforeEarliest` | investing_agent/db/repositories/financial.py:231-264 | one tick before it no company view holds a row of the period |
| `FinancialResults.PrecisionLostIff` | investing_agent/db/repositories/financial.py:174-180 | a step turns an EXACT row into DATE_ONLY exactly when it re-ingests unchanged values of the latest version with DATE_ONLY |
| `FinancialResults.PrecisionLostWitness` | investing_agent/db/repositories/financial.py:307-325 | a concrete two-step run that does so, against the docstring |
| `QuarterFacts.SelectLatest` | investing_agent/services/historical_pe_band.py:63-69 | the dictionary loop over results, in insertion order |
| `QuarterFacts.LatestIsHighest` | investing_agent/services/historical_pe_band.py:63-69 | it holds exactly one fact of every period there is, and none of that period is newer; for both comparisons the code uses |
| `QuarterFacts.TopFourIsMostRecent` | investing_agent/services/historical_pe_band.py:70 | a candidate left over ends no later than any of the four kept |
| `QuarterFacts.SelectionMeans` | investing_agent/services/valuation.py:75-80 | dictionary and sort together give four different periods, newest first, each by a fact no other of its period is newer than, and every other period ends no later |
| `PeBand.RankInRange` | investing_agent/services/historical_pe_band.py:27-31 | the index is in range for every non-empty list and is the ceiling of n times p, less one |
| `PeBand.NearestRank` | investing_agent/services/historical_pe_band.py:27-31 | the percentile is one of the observations, with at least ceil(n*p) not above it and n - ceil(n*p) + 1 not below it |
| `PeBand.PercentileIgnoresOrder` | investing_agent/services/historical_pe_band.py:27-31 | it depends on the multiset of values only |
| `PeBand.PercentileMonotone` | investing_agent/services/historical_pe_band.py:27-31 | a higher rank never gives a lower percentile |
| `PeBand.RatioReads` | investing_agent/services/historical_pe_band.py:34-42 | "old:new" is read as new/old exactly when both parse to positive numbers; text without a colon is refused |
| `PeBand.UnadjustedEps` | investing_agent/services/historical_pe_band.py:77-80 | a quarter's figure before splits is the diluted EPS, or the basic one when there is none, and only a positive one counts |
| `PeBand.ActionAdjusts` | investing_agent/services/historical_pe_band.py:80-91 | one more action divides a quarter's figure by new over old when it is dated after the quarter's end and by the trading day and was public by the end of that day, makes it invalid when its ratio is then unreadable, and changes nothing otherwise |
| `PeBand.TtmIsSum` | investing_agent/services/historical_pe_band.py:74-95 | the trailing EPS is the sum of the quarters' figures and exists exactly when each of them does |
| `PeBand.QuartersUsed` | investing_agent/services/historical_pe_band.py:62-73 | four quarters are found exactly when four periods have a result filed by that day; they are different, newest first, each the highest version filed by then, and every other period ends no later |
| `PeBand.DayMeans` | investing_agent/services/historical_pe_band.py:61-99 | when a day is excluded and why, and for an observed day the ratio of close to trailing EPS within half of 0.0001, with the price and results it names |
| `PeBand.PeTieEven` | investing_agent/services/historical_pe_band.py:99 | a ratio halfway between two steps of 0.0001 goes to the even one |
| `PeBand.CompoundFactor` | investing_agent/services/historical_pe_band.py:80-87 | the innermost loop computes the product of the factors of the splits and bonuses dated after the quarter and by the trading day and public by its end, or reports the first unreadable one |
| `PeBand.AdjustedEpsValues` | investing_agent/services/historical_pe_band.py:74-91 | the quarter loop yields the figures `ActionAdjusts` and `UnadjustedEps` characterise, invalid exactly when one quarter has none; their sum is the trailing EPS |
| `PeBand.Observe` | investing_agent/services/historical_pe_band.py:61-99 | the trading-day loop splits the outcomes `DayMeans` characterises into observations and exclusions, in order |
| `PeBand.NonPositiveTtmNeverHappens` | investing_agent/services/historical_pe_band.py:95-98 | the third exclusion reason is unreachable |
| `PeEvidence.PricesAre` | investing_agent/services/historical_pe_band.py:48-50 | the prices used are the company's own up to the day, each as often as stored, in order of date |
| `PeEvidence.EvidenceMeans` | investing_agent/services/historical_pe_band.py:51-61 | there is one outcome per such price, from the company's verified quarterly results and its latest splits and bonuses available by `as_of`, and from no other |
| `PeEvidence.StoredShareActionsAre` | investing_agent/services/historical_pe_band.py:56-58 | those splits and bonuses are the stored rows with these fields |
| `PeEvidence.DayIgnoresTheFuture` | investing_agent/services/historical_pe_band.py:61-99 | a day's outcome depends only on results and actions public by the end of that day |
| `PeEvidence.PrefixStability` | investing_agent/services/historical_pe_band.py:45-99 | moving `as_of` forward leaves observations and exclusions of every day before the earlier `as_of` identical |
| `PeEvidence.LooksAheadIff` | investing_agent/services/historical_pe_band.py:46-69 | on the day of `as_of` another result is selected for a period than the one known at `as_of` exactly when the table has a row of that period that became available later that day and beats, by version and then position, all available at `as_of` |
| `PeEvidence.DayLooksAheadIff` | investing_agent/services/historical_pe_band.py:46-70 | a price of that day uses a result not yet available at `as_of` exactly when such a row exists and fewer than four available periods end later than its own, when ends identify periods |
| `PeEvidence.EarlierDaysNeverLookAhead` | investing_agent/services/historical_pe_band.py:46-69 | on every earlier day each selected result was available before `as_of` |
| `PeEvidence.LooksAheadWitness` | investing_agent/services/historical_pe_band.py:62 | a morning `as_of` whose single observation uses a result filed that evening |
| `PeEvidence.SelectionIgnoresOrderIff` | investing_agent/services/historical_pe_band.py:50-69 | the selected result of a period is the same for every order of the rows exactly when no two available results tie for its highest version |
| `PeEvidence.SelectionOrderWitness` | investing_agent/services/historical_pe_band.py:50-69 | one period filed on two scopes, each at version 1, for which the order of the rows decides |
| `PeEvidence.DayIgnoresActionOrder` | investing_agent/services/historical_pe_band.py:80-91 | a day's outcome does not depend on the order of the actions |
| `PeEvidence.EvidenceReplays` | investing_agent/services/historical_pe_band.py:45-99 | over the versioned store, evidence for a past instant comes out the same in every later state in which no split or bonus it uses was revised |
| `PeEvidence.SplitInvariance` | investing_agent/services/historical_pe_band.py:34-99 | a readable split dated after each of the four quarters and by the day, public by its end, with the close divided by the same factor, leaves the unrounded PE (and whether there is one) unchanged |
| `PeEvidence.SplitAdjustsTtm` | investing_agent/services/historical_pe_band.py:80-95 | such a split divides the trailing EPS by its factor |
| `FiscalCalendar.FiscalYearHolds` | investing_agent/services/normalization.py:58-68 | a date resolves to the fiscal year, April to March, that holds it, and to its quarter |
| `FiscalCalendar.QuarterRoundTrip` | investing_agent/services/normalization.py:58-82 | resolving the period end of any quarter gives back its fiscal year and name, whenever that end is a date |
| `FiscalCalendar.ResolvesToLeastQuarterEnd` | investing_agent/services/normalization.py:58-82 | for every date the resolved quarter ends at the first quarter end on or after it |
| `FiscalCalendar.ReportingBasisIff` | investing_agent/services/normalization.py:85-91 | a span of whole quarters is QUARTER exactly when it is one quarter, YTD exactly when it is more, leap years included |
| `FiscalCalendar.QuartersFollowDates` | investing_agent/services/normalization.py:58-68 | later dates never lie in earlier quarters |
| `Valuation.ComputeTtmEarnings` | investing_agent/services/valuation.py:63-97 | selection, contiguity check and summing loop compute the earnings that `TtmMeans` and `TtmUses` characterise |
| `Valuation.TtmMeans` | investing_agent/services/valuation.py:81-97 | earnings exist exactly when four quarters are there, their labels pass and every diluted figure is positive; they are the sum over those quarters, and name them and the newest one's document |
| `Valuation.TtmUses` | investing_agent/services/valuation.py:68-83 | the quarters are four exactly when four periods have a verified quarterly fact of company and scope available by `as_of`; each is such a fact that no other of its period beats by version and then availability, oldest first, and every other period ends no later than the oldest |
| `Valuation.TtmNeverLooksAhead` | investing_agent/services/valuation.py:68-74 | two lists of facts that agree on what was available by `as_of` give the same quarters and the same earnings |
| `Valuation.StoredFactsAre` | investing_agent/services/valuation.py:53-60 | the facts a valuation starts from are the stored rows the query selects, field by field |
| `Valuation.LatestFinancialMeans` | investing_agent/services/valuation.py:53-60 | it starts from a latest verified fact available by `as_of` that no other beats by period end and then availability, at most 180 days old, and from none exactly when all such are older |
| `Valuation.CurrentMultipleMeans` | investing_agent/services/valuation.py:109-116 | the range used is the last one in effect and available, the latest created among those, and missing exactly when there is none |
| `Valuation.CurrentPriceMeans` | investing_agent/services/valuation.py:121-125 | the price is one of the company's last trading day by `as_of` |
| `Valuation.EvaluateMeans` | investing_agent/services/valuation.py:100-138 | a valuation is produced exactly when every gate is passed, and carries the earnings, range, price and document the gates looked at |
| `Valuation.GapIsFirst` | investing_agent/services/valuation.py:104-125 | the gap reported is that of the first gate that fails |
| `Valuation.CentsTieAway` | investing_agent/services/valuation.py:44-45 | half a cent goes up, and away from zero below it |
| `Valuation.BandIsQuartiles` | investing_agent/services/historical_pe_band.py:102-111 | low, middle and high are observed ratios with at least a quarter, half and three quarters of the ratios at or below them, and three quarters, half and a quarter at or above |
| `Valuation.TtmIgnoresOrderIff` | investing_agent/services/valuation.py:75-79 | which fact of a period is used is the same for every order of the rows exactly when no two facts in scope tie for the highest version and, within it, the latest availability |
| `Valuation.Contiguity` | investing_agent/services/valuation.py:82-87 | accepted quarters are one apart modulo a year; four are truly consecutive exactly when they are accepted and span fewer than seven quarters |
| `Valuation.TtmQuartersApart` | investing_agent/services/valuation.py:82-87 | the four quarters of accepted earnings are one apart modulo a year, truly consecutive exactly when they span fewer than seven quarters |
| `Valuation.ContiguityWitness` | investing_agent/services/valuation.py:82-87 | verified facts that yield earnings across a five-quarter gap |
| `Valuation.FirstByIsFirst` | investing_agent/services/valuation.py:53-60 | `order_by(a desc, b desc).limit(1)` picks a row that is first by a and, among ties, by b |
| `Valuation.BandPassesGateIff` | investing_agent/services/valuation.py:119-120 | a band of stored ratios passes the range gate exactly when fewer ratios than the rank of P25 are zero or below |
| `Valuation.PositiveBandPassesGate` | investing_agent/services/historical_pe_band.py:102-110 | a band of observations that each round to at least 0.0001 always passes |
| `Valuation.ObservedOnGrid` | investing_agent/services/historical_pe_band.py:99 | every observed ratio is a whole number of ten-thousandths, so requantizing keeps it |
| `Valuation.ObservedBandIsInvalidOnlyIf` | investing_agent/services/valuation.py:119-120 | end to end: a valuation over a generated band is refused for its range only when enough observed ratios rounded below 0.0001 |
| `Valuation.SnapshotSound` | investing_agent/services/valuation.py:119-138 | in every snapshot low <= mid <= high for fair values and for upsides, negative ones included, each within half a cent of its exact value |
| `Valuation.ValuationBook.GenerateForCompany` | investing_agent/services/historical_pe_band.py:45-116 | exclusions and band are those of the trading days' outcomes, the band their quartiles with company, instant and rule as given; at most one band per company and instant is ever stored |
| `Valuation.ValuationBook.GenerateSnapshot` | investing_agent/services/valuation.py:100-145 | the gates in order; a stored snapshot has the field values of its valuation; a repeated run returns it and changes nothing |
| `AuditRows.MedianSplits` | investing_agent/services/governed_policy.py:94-99 | at least half of the values are not above the median and at least half not below it |
| `GovernedPolicy.CandidatesAre` | investing_agent/services/governed_policy.py:67-91 | the three shipped candidates, by what they match |
| `GovernedPolicy.SummaryMeans` | investing_agent/services/governed_policy.py:108-157 | each figure is over the included, matching rows with a twelve-month return: the medians of stock, benchmark, excess (of the kind asked for), rupee impact, drawdown and concentration exist exactly when such a row has that figure, with at least half of the rows' figures on each side; rates are shares of positive ones |
| `GovernedPolicy.TurnoverAppend` | investing_agent/services/governed_policy.py:140-144 | one more row adds the shares moved times its price when it counts and has both, and nothing otherwise |
| `GovernedPolicy.FoldMeans` | investing_agent/services/governed_policy.py:170-180 | a fold summarises exactly the rows before its year and those of it |
| `GovernedPolicy.ReasonsMean` | investing_agent/services/governed_policy.py:182-212 | each rejection reason is given exactly when its own condition on sample sizes, excess, drawdowns, dominance or complexity holds |
| `GovernedPolicy.ConcludeMeans` | investing_agent/services/governed_policy.py:213-224 | the verdict is BACKTESTED exactly without reasons, and its confidence is a hundredth of the row count capped at 0.90 |
| `GovernedPolicy.FindDominance` | investing_agent/services/governed_policy.py:195-200 | the counting dictionary finds exactly whether some symbol holds more than half of the rows |
| `GovernedPolicy.ValidateExpanding` | investing_agent/services/governed_policy.py:160-224 | folds, reasons, status and confidence as built by the loops equal the evaluation whose figures `SummaryMeans`, `FoldMeans`, `ReasonsMean` and `ConcludeMeans` pin |
| `PolicyEvidence.FoldPerLaterYear` | investing_agent/services/governed_policy.py:168-180 | there is one fold per distinct year but the first, in ascending order |
| `PolicyEvidence.TrainIsPastTrainAndValidation` | investing_agent/services/governed_policy.py:170-173 | each fold trains on the previous training and validation rows together, all of earlier years than it validates on |
| `PolicyEvidence.FoldsIgnoreLaterYears` | investing_agent/services/governed_policy.py:160-180 | the folds validated by a year depend only on rows up to that year |
| `PolicyEvidence.FoldsConserveEvidence` | investing_agent/services/governed_policy.py:108-180 | full-history size and turnover are the first year's plus the sum over the folds' validations |
| `PolicyEvidence.TwoValidFoldsForceEvidence` | investing_agent/services/governed_policy.py:182-189 | two valid folds force 15 rows in the full history and 10 outside 2020 |
| `PolicyEvidence.BacktestedIsConvincing` | investing_agent/services/governed_policy.py:160-224 | a BACKTESTED verdict forces 15 rows and 10 outside 2020, an excess above the complexity, two symbols, none above half, and confidence in [0.15, 0.90] |
| `PolicyEvidence.BacktestedIff` | investing_agent/services/governed_policy.py:182-213 | a verdict is BACKTESTED exactly when two folds have five rows on both sides, the excess outside 2020 is positive and above the complexity, no symbol has more than half of the rows, and no such fold loses more than ten points of drawdown: the other gates are redundant |
| `PolicyEvidence.PassingBeatsBenchmark` | investing_agent/services/governed_policy.py:108-213 | a BACKTESTED verdict means that of the scored rows outside 2020 at least half have an excess return, in percent, above both zero and the complexity, and there are some |
| `PolicyLifecycle.CandidatePolicyRuleRepository.CreateOrReplaceDraft` | investing_agent/db/repositories/policy.py:30-46 | writes fields and status of a new or unapproved rule and leaves the table alone for an approved one |
| `PolicyLifecycle.DraftMeans` | investing_agent/db/repositories/policy.py:30-46 | a rerun writes its rule's fields and status unless the rule is approved, keeps an earlier approval stamp, and touches no other rule |
| `PolicyLifecycle.ReviewMeans` | investing_agent/cli.py:3786-3803 | a review approves with a stamp or rejects, never approves a rejected rule, never changes fields and touches no other rule |
| `PolicyLifecycle.CandidatePolicyRuleRepository.SetStatus` | investing_agent/db/repositories/policy.py:48-53 | changes the status of one rule, stamps approvals only, never touches the fields |
| `PolicyLifecycle.CandidatePolicyRuleRepository.ReviewRule` | investing_agent/cli.py:3786-3803 | refuses unknown rules and the approval of a rejected rule, and then changes nothing |
| `PolicyLifecycle.ApprovalLasts` | investing_agent/db/repositories/policy.py:30-46 | an approval and its fields outlast any run of reruns and reviews without a rejection of that rule |
| `PolicyLifecycle.RejectedNeedsFreshBacktest` | investing_agent/cli.py:3796-3799 | a rejected rule is approved again only after a passing rerun followed by an approving review |
| `PolicyLifecycle.ApprovalSafety` | investing_agent/cli.py:3301-3326 | under any interleaving of reruns and reviews a BACKTESTED or APPROVED rule carries exactly the fields of a rerun of that rule whose evaluation had the verdict BACKTESTED, with at least 15 rows and confidence in [0.15, 0.90] |
| `PersonalPolicy.BuildPatterns` | investing_agent/services/personal_policy.py:175-219 | the loops over populations, dimensions, sorted buckets and horizons produce exactly the patterns the theorems are about |
| `PersonalPolicy.KeysAre` | investing_agent/services/personal_policy.py:183-192 | the bucket of a row in each dimension, unknown sectors and regimes included |
| `PersonalPolicy.YearBucketIff` | investing_agent/services/personal_policy.py:186 | two rows share a year's bucket exactly when they are of one year |
| `PersonalPolicy.StatsMedians` | investing_agent/services/personal_policy.py:103-136 | each median of a bucket exists exactly when a scored row has that figure and has half of the figures on each side |
| `PersonalPolicy.StatsCounts` | investing_agent/services/personal_policy.py:103-139 | sizes, sample labels, rates as shares of positive figures, and the maximum loss as the least drawdown |
| `PersonalPolicy.PatternMeans` | investing_agent/services/personal_policy.py:198-218 | a pattern has the figures and the decisions, in order, of the rows of its population in its bucket |
| `PersonalPolicy.BucketsPartition` | investing_agent/services/personal_policy.py:193-219 | counting any property bucket by bucket counts every row once |
| `PersonalPolicy.PatternsConserveRows` | investing_agent/services/personal_policy.py:193-219 | for every population, dimension and horizon the shown sizes plus the hidden symbol and sector buckets add up to the scored rows of the population; nothing else is hidden |
| `PersonalPolicy.ShownIff` | investing_agent/services/personal_policy.py:198-219 | a pattern is shown exactly when its bucket holds a row of its population, its figures are those of that bucket at its horizon, and a symbol or sector has five scored rows |
| `PersonalPolicy.NamesAre` | investing_agent/services/personal_policy.py:199-202 | the buckets come in strictly ascending order of name, one for every name that holds a row |
| `PersonalPolicy.PopulationsDifferBy2020` | investing_agent/services/personal_policy.py:193-196 | the two populations differ by exactly the scored rows of 2020 |
| `Instruments.InstrumentRepository.Upsert` | investing_agent/db/repositories/instrument.py:34-61 | one row per symbol and exchange is kept; every row keeps its listing, an assigned company is never replaced and an ISIN never erased; the whole new table is stated |
| `Instruments.UpsertMeans` | investing_agent/db/repositories/instrument.py:34-61 | an existing listing is made active and seen, takes the given ISIN if there is one and the company if it has none; otherwise one row with the given fields is appended |
| `Instruments.InstrumentResolver.ResolveHolding` | investing_agent/services/instrument_resolver.py:38-143 | the lookups in order, with their errors; new state and answer are both stated, both tables stay unique and every company reference valid, so calls can follow each other |
| `Instruments.ViaMeans` | investing_agent/services/instrument_resolver.py:53-143 | by which lookup a holding is resolved, in terms of which tables know its ISIN, listing or symbol; a company is made exactly when none does |
| `Instruments.NewHoldingAcceptedIff` | investing_agent/services/instrument_resolver.py:60-143 | a holding not found by ISIN or listing is accepted exactly when its fields are well-formed, with a shorter symbol when a company has to be made |
| `ResolutionStability.HomedIsUnique` | investing_agent/services/instrument_resolver.py:53-59 | when an ISIN keeps its listing there is at most one row per ISIN |
| `ResolutionStability.ResolveOnce` | investing_agent/services/instrument_resolver.py:38-143 | resolving keeps every earlier row with its company, keeps every row assigned to an existing company, and answers with the company of the holding's listing |
| `ResolutionStability.ResolutionIsStable` | investing_agent/services/instrument_resolver.py:38-143 | after any further stream of holdings, a holding resolved once resolves to the same company and adds no row |
| `ResolutionStability.IsinStaysUniqueIff` | investing_agent/db/repositories/instrument.py:34-61 | without that premise, one row per ISIN survives a resolution exactly when the holding is malformed or its ISIN is not held by another listing |
| `ResolutionStability.UniqueThroughoutIff` | investing_agent/db/repositories/instrument.py:34-61 | over any stream of holdings ISINs stay unique throughout exactly when no well-formed holding brings an ISIN held by another listing |
| `ResolutionStability.AmbiguousIsinFails` | investing_agent/db/repositories/instrument.py:17-21 | while two rows carry an ISIN every holding with it fails and changes nothing |
| `ResolutionStability.StaysAmbiguousIff` | investing_agent/db/repositories/instrument.py:34-61 | a resolution leaves an ISIN ambiguous unless exactly two rows carry it, the holding's own row is one of them, and the holding brings another ISIN that exactly one row carries |
| `ResolutionStability.AmbiguityLastsIff` | investing_agent/services/instrument_resolver.py:53-59 | over any stream of holdings the ISIN stays ambiguous throughout exactly when none of them does that |
| `ResolutionStability.AmbiguousIsinWitness` | investing_agent/services/instrument_resolver.py:53-59 | two holdings with one ISIN, from the empty tables, after which the third fails |
| `DocumentVersions.SourceDocumentRepository.GetOrCreate` | investing_agent/db/repositories/source_document.py:43-85 | idempotent on company, URL and hash; a new document carries what was given and starts its own chain at version 1 |
| `DocumentVersions.SourceDocumentRepository.RecordAmendment` | investing_agent/db/repositories/source_document.py:87-116 | adds version N+1 and points the prior latest version to it; refused exactly when the number is taken |
| `DocumentVersions.AmendMeans` | investing_agent/db/repositories/source_document.py:87-116 | the new version is of the amending document, numbered above every version of the amended one, and only the version numbered just below gets the pointer |
| `DocumentVersions.AmendKeepsTable` | investing_agent/db/repositories/source_document.py:87-116 | pointers stay forward, to the next version number, at most one per target, numbers unique per document |
| `DocumentHistory.ChainClimbs` | investing_agent/db/repositories/source_document.py:87-116 | following `superseded_by_id` climbs one version per step, never repeats and ends at an unsuperseded version |
| `DocumentHistory.AmendmentKeepsHistoryIff` | investing_agent/db/repositories/source_document.py:87-116 | an accepted amendment loses nothing followed before, is met from every other document that comes to the amended one and from its latest version, past which all that followed the amending document is met, exactly when the three lookups before it say so |
| `DocumentHistory.AmendmentIsMetIff` | investing_agent/db/repositories/source_document.py:87-116 | from any version of any document, the amended one's own included, an amendment of a version without successor is met exactly when that version was |
| `DocumentHistory.RunsReconstruct` | investing_agent/db/repositories/source_document.py:43-116 | over every run of ingestions and such amendments, following the chain from any other document, or from the version it was recorded on, meets every amendment ever recorded for any document on the way |
| `DocumentHistory.RunsMeetExactly` | investing_agent/db/repositories/source_document.py:43-116 | over every such run, from any version at all, a recorded amendment is met exactly from itself and from where the version it was recorded on is met |
| `DocumentHistory.DeadEndWitness` | investing_agent/db/repositories/source_document.py:43-116 | an allowed run of three documents in which the middle one's original does not meet its amendment |
| `DocumentHistory.AmendedTwiceWitness` | investing_agent/db/repositories/source_document.py:110-114 | a run that amends one document twice and loses the first amendment |
| `DocumentHistory.AmendedByAmendedWitness` | investing_agent/db/repositories/source_document.py:110-114 | a run that amends with an amended document, whose own amendment is then not met |
| `Theses.ThesisRepository.Update` | investing_agent/db/repositories/thesis.py:55-85 | appends the merged successor and changes no existing row |
| `Theses.SuccessorMeans` | investing_agent/db/repositories/thesis.py:55-85 | the successor has each changed field's new value and each other field's old one, the next version number, and points back |
| `Theses.ThesisRepository.Record` | investing_agent/services/active_theses.py:89-96 | succeeds the current thesis or starts version 1 of one, and changes no earlier row; keeps the table's invariants |
| `Theses.ActiveIsCurrent` | investing_agent/db/repositories/thesis.py:13-23 | `get_active` answers with an unsuperseded open row of the user and symbol, and finds one if there is one |
| `Theses.ActiveMeans` | investing_agent/db/repositories/thesis.py:13-23 | among several such rows it is one of the highest version; the symbol's letter case does not matter |
| `Theses.SuccessorKeeps` | investing_agent/db/repositories/thesis.py:55-85 | succeeding the current row keeps at most one current row per user and symbol |
| `Theses.CreateKeepsIff` | investing_agent/app/api/company.py:80-91 | creating keeps it exactly when no row is current or the new one is not open |
| `Theses.CreatedTwiceWitness` | investing_agent/app/api/company.py:80-91 | two creates for one user and symbol, after which both theses are current |
| `Theses.RunsKeepOneCurrent` | investing_agent/services/active_theses.py:89-96 | every run of refreshes and patches keeps one current thesis, no branches, and consecutive versions |
| `Portfolio.CalculateWeights` | investing_agent/services/portfolio_sync.py:241-247 | the loop writes every weight in place and nothing else |
| `Portfolio.WeightMeans` | investing_agent/services/portfolio_sync.py:241-247 | a weight is within half of 0.0001 of 100 times price times quantity over the total, or 0 when the total is not positive |
| `Portfolio.WeightTieEven` | investing_agent/services/portfolio_sync.py:244-245 | halfway it goes to the even step |
| `Portfolio.PnlIsGainPerShare` | investing_agent/services/portfolio_sync.py:211-213 | a holding's profit is quantity times the gain per share |
| `Portfolio.WeightsSumToHundred` | investing_agent/services/portfolio_sync.py:241-247 | with a positive total the weights sum to 100 within 0.00005 per holding |
| `Portfolio.WeightsFollowValues` | investing_agent/services/portfolio_sync.py:241-247 | a holding worth at least as much never weighs less |
| `Portfolio.WeightsArePercentages` | investing_agent/services/portfolio_sync.py:241-247 | with non-negative values every weight lies between 0 and 100 |
| `Portfolio.PnlAddsUp` | investing_agent/services/portfolio_sync.py:211-213 | the holdings' profits sum to total value minus total invested |
| `Rounding.TieBreaks` | investing_agent/services/valuation.py:44-45 | at an exact half, half-up moves away from zero on both signs and half-even to the even neighbour |
| `FifoAccounts.ProfitIsProceedsLessCost` | investing_agent/services/reconstruction/fifo.py:138-314 | for every timeline a symbol's realized profit is the proceeds of its sells less what was spent and is no longer invested, that is, the cost of the lots consumed |
| `FifoAccounts.SplitConserves` | investing_agent/services/reconstruction/fifo.py:207-241 | a split or bonus leaves the invested capital of the open lots exactly as it was |
| `FifoAccounts.SplitDirection` | investing_agent/services/reconstruction/fifo.py:221-226 | after a split each slice has its shares times new over old at its cost times old over new, and so the shares held |
| `FifoAccounts.OldestFirst` | investing_agent/services/reconstruction/fifo.py:264-280 | a sell uses up some number of the oldest slices and part of the next, leaves the rest as it was, and finds no lot for some of it only when none is left |
| `FifoAccounts.HeldIsNetAboveShortfall` | investing_agent/services/reconstruction/fifo.py:138-314 | the shares held are acquisitions less sales, converted new for old at each split, plus the deepest shortfall of the timeline |
| `FifoAccounts.OversoldIsExcess` | investing_agent/services/reconstruction/fifo.py:264-314 | a sell oversells exactly when it exceeds the shares held, by exactly that excess, which is how much it deepens the shortfall |
| `FifoAccounts.NeverOversoldIff` | investing_agent/services/reconstruction/fifo.py:264-314 | nothing is oversold exactly when at no point of the timeline more was sold than acquired, converted new for old at each split |
| `FifoAccounts.TimelineOrder` | investing_agent/services/reconstruction/fifo.py:155-167 | the merged timeline holds every entry once, in order of date, and on a day opening adjustments before corporate actions before trades |
| `FifoAccounts.SymbolsAreIndependent` | investing_agent/services/reconstruction/fifo.py:138-177 | a symbol's account depends on the entries of that symbol alone |
| `FifoReplay.SellLots` | investing_agent/services/reconstruction/fifo.py:264-280 | the loop of a sell consumes the oldest lots in place; exactly the lots that leave the queue are empty and closed on the day, no lot changes its terms, and its gain is what it books on the lots |
| `FifoReplay.AuditConserves` | investing_agent/services/reconstruction/fifo.py:221-241 | the audit record of a split shows the same invested capital before and after, that of the scaled lots, with shares going up and cost per share down by new over old |
| `FifoReplay.ScaledLotMeans` | investing_agent/services/reconstruction/fifo.py:223-226 | a split converts what a lot was opened with as well as what remains of it, and nothing else of the lot but its cost |
| `FifoReplay.FifoReplayer.ApplyCorporateAction` | investing_agent/services/reconstruction/fifo.py:207-241 | scales every open lot of the symbol in place and records it, unless nothing is held: shares after times the old ratio are shares before times the new one; no other symbol changes |
| `FifoReplay.FifoReplayer.ApplyTrade` | investing_agent/services/reconstruction/fifo.py:244-314 | a buy opens a lot with its own terms, a sell consumes the oldest and absorbs the excess; no other symbol changes and each symbol's profit stays the sum over its lots |
| `FifoReplay.FifoReplayer.Replay` | investing_agent/services/reconstruction/fifo.py:138-177 | after the loop over the timeline every symbol's lots, profit and oversells are those of its own entries |

## Left out

- Network, broker, API, command-line and agent code, database sessions, flushes and commits: plumbing around the modelled operations.
- Database columns that are never compared, selected on or combined (titles, notes, provenance blobs, feature conditions): carried in one opaque part of a row or dropped.
- Numeric column precision of the database and the 28-digit Decimal context: values are exact reals, so a figure that the database would round on storage is not modelled.
- Time zones: every instant is UTC, as the code converts it.
- `list_all_splits_and_bonuses` and the result calendar: the same filters as the modelled queries; its as-of variant groups by symbol instead of company.
- `FinancialPeriodRepository.get_or_create`, `link_company`, `list_latest_by_period`: single lookups.
- The parsing of numbers inside a split ratio: `parse` is a parameter, any partial function from text to numbers.
- `decision_dollar_impact`, `holding_age_bucket`, `concentration_bucket`: fields of a row, any value.
- `derive_market_regimes` and `ranked_impacts`: the regimes are an input and the ranking is a sort of one list.
- `PolicyProposal` rows: each rerun overwrites the proposal with its own verdict, also when an approved rule is left alone, and nothing reads it back.
- Policy reasons, dimension and population names and period labels as text: they are datatypes.
- Walk-forward outcomes and ingestion, which supply the rows, are not part of this model; of the reconstruction only the replay of lots is.
- A split ratio that is zero or negative: both parts are positive numbers, where the original divides by what it is given.
- Identifiers of a lot (ISIN, company, dedupe key) and the text of warnings.
- Unique constraints other than the modelled ones cannot be violated by the modelled operations; a failed flush is an error result and the state a caller would roll back is kept as it is.
- Rows that tie on every key of an `order_by`: the model takes the first in table order, the database may take any.
- `pnl_pct`: a percentage in one place and a fraction in another.
- PeBand.CompoundFactor: multiplication and division are exact, where the original rounds to 28 digits.
- DocumentVersions.SourceDocumentRepository.RecordAmendment: both documents exist, as the original's arguments are loaded rows.
