/** Fiscal-quarter arithmetic of `services/normalization.py` on the proleptic Gregorian calendar. */
module FiscalCalendar {
  import opened Basics

  datatype Date = Date(year: int, month: int, day: int)

  predicate IsLeap(year: int)
  {
    year % 4 == 0 && (year % 100 != 0 || year % 400 == 0)
  }

  function DaysInMonth(year: int, month: int): int
  {
    if month == 2 then (if IsLeap(year) then 29 else 28)
    else if month in {4, 6, 9, 11} then 30 else 31
  }

  /** What the `date` constructor accepts. */
  predicate IsDate(d: Date)
  {
    1 <= d.year <= 9999 && 1 <= d.month <= 12 && 1 <= d.day <= DaysInMonth(d.year, d.month)
  }

  predicate Earlier(a: Date, b: Date)
  {
    || a.year < b.year
    || (a.year == b.year && a.month < b.month)
    || (a.year == b.year && a.month == b.month && a.day < b.day)
  }

  function DaysBeforeYear(year: int): int
  {
    var y := year - 1;
    365 * y + y / 4 - y / 100 + y / 400
  }

  function DaysBeforeMonth(year: int, month: int): int
    requires 1 <= month <= 12
  {
    if month == 1 then 0 else DaysBeforeMonth(year, month - 1) + DaysInMonth(year, month - 1)
  }

  /** `date.toordinal()`: subtracting ordinals is subtracting dates. */
  function Ordinal(d: Date): int
    requires 1 <= d.month <= 12
  {
    DaysBeforeYear(d.year) + DaysBeforeMonth(d.year, d.month) + d.day
  }

  // -------------------------------------------------------- fiscal quarters

  function QuarterLabel(quarter: int): string
    requires 1 <= quarter <= 4
  {
    ["Q1", "Q2", "Q3", "Q4"][quarter - 1]
  }

  function QuarterNumber(d: Date): (q: int)
    ensures 1 <= q <= 4
  {
    ((d.month - 4) % 12) / 3 + 1
  }

  /** `resolve_fiscal_period`: April Y to March Y+1 is fiscal year Y+1. */
  function ResolveFiscalPeriod(periodEnd: Date): (int, string)
  {
    (if periodEnd.month >= 4 then periodEnd.year + 1 else periodEnd.year, QuarterLabel(QuarterNumber(periodEnd)))
  }

  function QuarterEnd(fiscalYear: int, quarter: int): Date
    requires 1 <= quarter <= 4
  {
    match quarter
    case 1 => Date(fiscalYear - 1, 6, 30)
    case 2 => Date(fiscalYear - 1, 9, 30)
    case 3 => Date(fiscalYear - 1, 12, 31)
    case _ => Date(fiscalYear, 3, 31)
  }

  /** `quarter_label_to_period_end`: reads the name's second character; `None` where the original raises. */
  function QuarterLabelToPeriodEnd(fiscalYear: int, name: string): Option<Date>
  {
    if |name| < 2 || !('1' <= name[1] <= '4') then None else
      var end := QuarterEnd(fiscalYear, name[1] as int - '0' as int);
      if IsDate(end) then Some(end) else None
  }

  /** The name of every quarter leads back to its fiscal year and name. */
  lemma QuarterRoundTrip(fiscalYear: int, quarter: int)
    requires 1 <= quarter <= 4
    ensures var end := QuarterLabelToPeriodEnd(fiscalYear, QuarterLabel(quarter));
            && (end.Some? <==> 1 <= (if quarter == 4 then fiscalYear else fiscalYear - 1) <= 9999)
            && (end.Some? ==> ResolveFiscalPeriod(end.value) == (fiscalYear, QuarterLabel(quarter)))
  {
  }

  /** Which dates a fiscal year and each of its quarters hold: fiscal year Y runs from April Y - 1 to March Y. */
  lemma FiscalYearHolds(d: Date)
    requires IsDate(d)
    ensures var (fy, name) := ResolveFiscalPeriod(d);
            && !Earlier(d, Date(fy - 1, 4, 1)) && !Earlier(Date(fy, 3, 31), d)
            && (name == "Q1" <==> d.month in {4, 5, 6}) && (name == "Q2" <==> d.month in {7, 8, 9})
            && (name == "Q3" <==> d.month in {10, 11, 12}) && (name == "Q4" <==> d.month in {1, 2, 3})
  {
    assert "Q1"[1] == '1' && "Q2"[1] == '2' && "Q3"[1] == '3' && "Q4"[1] == '4';
  }

  ghost predicate IsQuarterEnd(d: Date)
  {
    exists fy, q | 1 <= q <= 4 :: d == QuarterEnd(fy, q)
  }

  /** From any date the resolved quarter ends at the first quarter end on or after it. */
  lemma ResolvesToLeastQuarterEnd(d: Date)
    requires IsDate(d)
    ensures var (fy, name) := ResolveFiscalPeriod(d);
            var end := QuarterLabelToPeriodEnd(fy, name);
            && end.Some?
            && IsQuarterEnd(end.value)
            && !Earlier(end.value, d)
            && forall e | IsQuarterEnd(e) && !Earlier(e, d) :: !Earlier(e, end.value)
  {
    var (fy, name) := ResolveFiscalPeriod(d);
    assert QuarterLabelToPeriodEnd(fy, name) == Some(QuarterEnd(fy, QuarterNumber(d)));
  }

  // -------------------------------------------------------- reporting basis

  /** `resolve_reporting_basis`. */
  function ReportingBasis(start: Option<Date>, end: Option<Date>): string
    requires start.Some? ==> IsDate(start.value)
    requires end.Some? ==> IsDate(end.value)
  {
    if start.None? || end.None? then "QUARTER"
    else if Ordinal(end.value) - Ordinal(start.value) <= 100 then "QUARTER" else "YTD"
  }

  /** Quarters numbered consecutively: quarter `q` of fiscal year `fy` is `4 * fy + q - 1`. */
  function EndOf(index: int): Date
  {
    QuarterEnd(index / 4, index % 4 + 1)
  }

  function StartOf(index: int): Date
  {
    var fiscalYear := index / 4;
    match index % 4
    case 0 => Date(fiscalYear - 1, 4, 1)
    case 1 => Date(fiscalYear - 1, 7, 1)
    case 2 => Date(fiscalYear - 1, 10, 1)
    case _ => Date(fiscalYear, 1, 1)
  }

  lemma YearLength(year: int)
    ensures DaysBeforeYear(year + 1) == DaysBeforeYear(year) + (if IsLeap(year) then 366 else 365)
  {
    var y := year - 1;
    assert (y + 1) / 4 == y / 4 + (if year % 4 == 0 then 1 else 0);
    assert (y + 1) / 100 == y / 100 + (if year % 100 == 0 then 1 else 0);
    assert (y + 1) / 400 == y / 400 + (if year % 400 == 0 then 1 else 0);
    assert year % 400 == 0 ==> year % 100 == 0;
    assert year % 100 == 0 ==> year % 4 == 0;
  }

  lemma MonthTable(year: int)
    ensures var leap := if IsLeap(year) then 1 else 0;
            && DaysBeforeMonth(year, 3) == 59 + leap
            && DaysBeforeMonth(year, 4) == 90 + leap
            && DaysBeforeMonth(year, 6) == 151 + leap
            && DaysBeforeMonth(year, 7) == 181 + leap
            && DaysBeforeMonth(year, 9) == 243 + leap
            && DaysBeforeMonth(year, 10) == 273 + leap
            && DaysBeforeMonth(year, 12) == 334 + leap
  {
    assert DaysBeforeMonth(year, 2) == 31;
    assert DaysBeforeMonth(year, 3) == 31 + DaysInMonth(year, 2);
    assert DaysBeforeMonth(year, 5) == DaysBeforeMonth(year, 4) + 30;
    assert DaysBeforeMonth(year, 7) == DaysBeforeMonth(year, 6) + 30;
    assert DaysBeforeMonth(year, 8) == DaysBeforeMonth(year, 7) + 31;
    assert DaysBeforeMonth(year, 10) == DaysBeforeMonth(year, 9) + 30;
    assert DaysBeforeMonth(year, 11) == DaysBeforeMonth(year, 10) + 31;
  }

  /** A quarter has 90 to 92 days and the next one starts the day after it ends. */
  lemma QuarterLength(index: int)
    ensures 89 <= Ordinal(EndOf(index)) - Ordinal(StartOf(index)) <= 91
    ensures Ordinal(StartOf(index + 1)) == Ordinal(EndOf(index)) + 1
  {
    MonthTable(index / 4 - 1);
    MonthTable(index / 4);
    NextQuarter(index);
  }

  lemma NextQuarter(index: int)
    ensures Ordinal(StartOf(index + 1)) == Ordinal(EndOf(index)) + 1
  {
    var fy, q := index / 4, index % 4;
    assert index == 4 * fy + q;
    MonthTable(fy - 1);
    YearLength(fy - 1);
    assert DaysBeforeMonth(fy, 1) == 0;
    MonthTable(fy);
    if q == 3 {
      assert (index + 1) / 4 == fy + 1 && (index + 1) % 4 == 0;
    } else {
      assert (index + 1) / 4 == fy && (index + 1) % 4 == q + 1;
    }
  }

  lemma {:induction false} SpanLength(first: int, last: int)
    requires first <= last
    ensures 90 * (last - first + 1) - 1 <= Ordinal(EndOf(last)) - Ordinal(StartOf(first))
    decreases last - first
  {
    QuarterLength(last);
    if first < last {
      SpanLength(first, last - 1);
      QuarterLength(last - 1);
    }
  }

  /** A span of whole quarters is classified QUARTER exactly when it is a single quarter. */
  lemma ReportingBasisIff(first: int, last: int)
    requires first <= last && IsDate(StartOf(first)) && IsDate(EndOf(last))
    ensures ReportingBasis(Some(StartOf(first)), Some(EndOf(last))) == "QUARTER" <==> first == last
    ensures ReportingBasis(Some(StartOf(first)), Some(EndOf(last))) == "YTD" <==> first < last
  {
    SpanLength(first, last);
    QuarterLength(first);
    assert "QUARTER" != "YTD" by {
      assert |"QUARTER"| != |"YTD"|;
    }
  }

  // ------------------------------------------------ order of dates and quarters

  function QuarterIndex(d: Date): int
  {
    4 * ResolveFiscalPeriod(d).0 + QuarterNumber(d) - 1
  }

  lemma {:induction false} YearsGrow(a: int, b: int)
    requires a < b
    ensures DaysBeforeYear(a) + (if IsLeap(a) then 366 else 365) <= DaysBeforeYear(b)
    decreases b - a
  {
    YearLength(a);
    if a + 1 < b {
      YearsGrow(a + 1, b);
    }
  }

  lemma {:induction false} MonthsGrow(year: int, a: int, b: int)
    requires 1 <= a < b <= 12
    ensures DaysBeforeMonth(year, a) + DaysInMonth(year, a) <= DaysBeforeMonth(year, b)
    decreases b - a
  {
    if a + 1 < b {
      MonthsGrow(year, a, b - 1);
    }
  }

  lemma OrdinalWithinYear(d: Date)
    requires IsDate(d)
    ensures 1 <= Ordinal(d) - DaysBeforeYear(d.year) <= (if IsLeap(d.year) then 366 else 365)
  {
    MonthTable(d.year);
    if d.month < 12 {
      MonthsGrow(d.year, d.month, 12);
    }
    if d.month > 1 {
      MonthsGrow(d.year, 1, d.month);
    }
  }

  lemma OrdinalOrders(a: Date, b: Date)
    requires IsDate(a) && IsDate(b) && Earlier(a, b)
    ensures Ordinal(a) < Ordinal(b)
  {
    if a.year < b.year {
      YearsGrow(a.year, b.year);
      OrdinalWithinYear(a);
      OrdinalWithinYear(b);
    } else if a.month < b.month {
      MonthsGrow(a.year, a.month, b.month);
    }
  }

  lemma IndexByMonth(d: Date)
    requires IsDate(d)
    ensures QuarterIndex(d) == 4 * d.year + 3 + (d.month - 1) / 3
  {
    if d.month >= 4 {
      assert (d.month - 4) % 12 == d.month - 4;
    } else {
      assert (d.month - 4) % 12 == d.month + 8;
    }
  }

  /** A date that is not later lies in a quarter that is not later. */
  lemma QuartersFollowDates(a: Date, b: Date)
    requires IsDate(a) && IsDate(b) && Ordinal(a) <= Ordinal(b)
    ensures QuarterIndex(a) <= QuarterIndex(b)
  {
    if Earlier(b, a) {
      OrdinalOrders(b, a);
      assert false;
    }
    IndexByMonth(a);
    IndexByMonth(b);
  }
}
