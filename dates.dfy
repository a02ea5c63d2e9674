/** Calendar dates, their "YYYY-MM-DD" text and the Spanish month vocabulary
    shared by every statistics service. */
module Dates {
  import opened Text
  import opened Wrappers

  datatype Date = Date(year: int, month: int, day: int)

  predicate IsLeap(y: int)
  {
    (y % 4 == 0 && y % 100 != 0) || y % 400 == 0
  }

  function DaysInMonth(y: int, m: int): int
  {
    if m == 2 then (if IsLeap(y) then 29 else 28)
    else if m == 4 || m == 6 || m == 9 || m == 11 then 30
    else 31
  }

  /** A calendar date with a four-digit year, as stored in the database's
      DATE columns. */
  predicate IsCalendarDate(d: Date)
  {
    1000 <= d.year <= 9999 && 1 <= d.month <= 12 && 1 <= d.day <= DaysInMonth(d.year, d.month)
  }

  type CalDate = d: Date | IsCalendarDate(d) witness Date(2000, 1, 1)

  /** Chronological order: `a` is strictly earlier than `b`. */
  predicate Before(a: CalDate, b: CalDate)
  {
    a.year < b.year
    || (a.year == b.year && a.month < b.month)
    || (a.year == b.year && a.month == b.month && a.day < b.day)
  }

  /** `date.isoformat()` / `strftime("%Y-%m-%d")`: the complete calendar date
      in the extended format of ISO 8601 (section 5.2.1.1 of ISO 8601:2004). */
  function Iso(d: CalDate): (s: string)
    ensures |s| == 10 && s[4] == '-' && s[7] == '-'
  {
    Pad(d.year, 4) + "-" + Pad(d.month, 2) + "-" + Pad(d.day, 2)
  }

  /** Comparing two dates' "YYYY-MM-DD" strings with Python's `>`/`<`
      gives their chronological order, and equal strings mean equal dates. */
  lemma IsoOrder(a: CalDate, b: CalDate)
    ensures LexLess(Iso(a), Iso(b)) <==> Before(a, b)
    ensures Iso(a) == Iso(b) <==> a == b
  {
    var ya, yb := Pad(a.year, 4) + "-", Pad(b.year, 4) + "-";
    var ra, rb := Pad(a.month, 2) + "-" + Pad(a.day, 2), Pad(b.month, 2) + "-" + Pad(b.day, 2);
    IsoFields(a);
    IsoFields(b);
    YearFieldOrder(a, b);
    MonthDayOrder(a, b);
    IsoLess(a, b, ya, yb, ra, rb);
    IsoSame(a, b, ya, yb, ra, rb);
  }

  lemma IsoFields(d: CalDate)
    ensures Iso(d) == (Pad(d.year, 4) + "-") + (Pad(d.month, 2) + "-" + Pad(d.day, 2))
  {
  }

  /** The "YYYY-" heads of two dates compare as their years. */
  lemma YearFieldOrder(a: CalDate, b: CalDate)
    ensures LexLess(Pad(a.year, 4) + "-", Pad(b.year, 4) + "-") <==> a.year < b.year
    ensures Pad(a.year, 4) + "-" == Pad(b.year, 4) + "-" <==> a.year == b.year
  {
    assert Pow10(4) == 10000;
    PadOrder(a.year, b.year, 4);
    FieldOrder(Pad(a.year, 4), Pad(b.year, 4));
  }

  lemma IsoLess(a: CalDate, b: CalDate, ya: string, yb: string, ra: string, rb: string)
    requires |ya| == |yb| && Iso(a) == ya + ra && Iso(b) == yb + rb
    requires LexLess(ya, yb) <==> a.year < b.year
    requires ya == yb <==> a.year == b.year
    requires LexLess(ra, rb) <==> a.month < b.month || (a.month == b.month && a.day < b.day)
    ensures LexLess(Iso(a), Iso(b)) <==> Before(a, b)
  {
    LexLessConcat(ya, yb, ra, rb);
  }

  lemma IsoSame(a: CalDate, b: CalDate, ya: string, yb: string, ra: string, rb: string)
    requires |ya| == |yb| && Iso(a) == ya + ra && Iso(b) == yb + rb
    requires ya == yb <==> a.year == b.year
    requires ra == rb <==> a.month == b.month && a.day == b.day
    ensures Iso(a) == Iso(b) <==> a == b
  {
    ConcatEq(ya, yb, ra, rb);
  }

  /** The "MM-DD" tails of two dates compare as their months, then days. */
  lemma MonthDayOrder(a: CalDate, b: CalDate)
    ensures var ra, rb := Pad(a.month, 2) + "-" + Pad(a.day, 2), Pad(b.month, 2) + "-" + Pad(b.day, 2);
      && (LexLess(ra, rb) <==> a.month < b.month || (a.month == b.month && a.day < b.day))
      && (ra == rb <==> a.month == b.month && a.day == b.day)
  {
    var ma, mb := Pad(a.month, 2) + "-", Pad(b.month, 2) + "-";
    var da, db := Pad(a.day, 2), Pad(b.day, 2);
    assert Pow10(2) == 100;
    PadOrder(a.month, b.month, 2);
    PadOrder(a.day, b.day, 2);
    FieldOrder(Pad(a.month, 2), Pad(b.month, 2));
    LexLessConcat(ma, mb, da, db);
    ConcatEq(ma, mb, da, db);
  }

  /** A field followed by the separator compares as the field alone. */
  lemma FieldOrder(x: string, x': string)
    requires |x| == |x'|
    ensures LexLess(x + "-", x' + "-") <==> LexLess(x, x')
    ensures x + "-" == x' + "-" <==> x == x'
  {
    LexLessConcat(x, x', "-", "-");
    ConcatEq(x, x', "-", "-");
    LexLessIrreflexive("-");
  }

  // ---------------------------------------------------------------- day numbers

  function DaysInYear(y: int): int
  {
    if IsLeap(y) then 366 else 365
  }

  /** The days of the proleptic Gregorian calendar before 1 January of `y`. */
  function DaysBeforeYear(y: int): int
    requires y >= 1
  {
    var p := y - 1;
    p * 365 + p / 4 - p / 100 + p / 400
  }

  /** The days of year `y` before the first of month `m`, from the table of
      a common year plus the leap day after February. */
  function DaysBeforeMonth(y: int, m: int): int
    requires 1 <= m <= 12
  {
    [0, 31, 59, 90, 120, 151, 181, 212, 243, 273, 304, 334][m - 1] + (if m > 2 && IsLeap(y) then 1 else 0)
  }

  /** `date.toordinal()`: 1 January of year 1 is day 1. Subtracting dates,
      and a date minus a number of days, work on these numbers. */
  function Ordinal(d: CalDate): int
  {
    DaysBeforeYear(d.year) + DaysBeforeMonth(d.year, d.month) + d.day
  }

  lemma YearLength(y: int)
    requires y >= 1
    ensures DaysBeforeYear(y + 1) == DaysBeforeYear(y) + DaysInYear(y)
  {
    var p := y - 1;
    assert y / 4 == p / 4 + (if y % 4 == 0 then 1 else 0);
    assert y / 100 == p / 100 + (if y % 100 == 0 then 1 else 0);
    assert y / 400 == p / 400 + (if y % 400 == 0 then 1 else 0);
  }

  lemma {:induction false} YearsBefore(a: int, b: int)
    requires 1 <= a <= b
    ensures DaysBeforeYear(a) + 365 * (b - a) <= DaysBeforeYear(b)
    decreases b - a
  {
    if a < b {
      YearsBefore(a, b - 1);
      YearLength(b - 1);
    }
  }

  /** A month's days end where the next month begins, and the year's last
      month ends the year. */
  lemma MonthLength(y: int, m: int)
    requires 1 <= m <= 12
    ensures m < 12 ==> DaysBeforeMonth(y, m + 1) == DaysBeforeMonth(y, m) + DaysInMonth(y, m)
    ensures m == 12 ==> DaysBeforeMonth(y, m) + DaysInMonth(y, m) == DaysInYear(y)
  {
  }

  lemma {:induction false} MonthsBefore(y: int, m: int, m': int)
    requires 1 <= m < m' <= 12
    ensures DaysBeforeMonth(y, m) + DaysInMonth(y, m) <= DaysBeforeMonth(y, m')
    decreases m' - m
  {
    MonthLength(y, m);
    if m + 1 < m' {
      MonthsBefore(y, m + 1, m');
    }
  }

  /** The day numbers run in calendar order. */
  lemma OrdinalIncreases(a: CalDate, b: CalDate)
    requires Before(a, b)
    ensures Ordinal(a) < Ordinal(b)
  {
    if a.year < b.year {
      MonthsToYearEnd(a);
      YearLength(a.year);
      YearsBefore(a.year + 1, b.year);
    } else if a.month < b.month {
      MonthsBefore(a.year, a.month, b.month);
    }
  }

  lemma MonthsToYearEnd(d: CalDate)
    ensures DaysBeforeMonth(d.year, d.month) + d.day <= DaysInYear(d.year)
  {
    MonthLength(d.year, d.month);
    if d.month < 12 {
      MonthsBefore(d.year, d.month, 12);
      MonthLength(d.year, 12);
    }
  }

  /** Comparing day numbers is comparing dates. */
  lemma OrdinalOrder(a: CalDate, b: CalDate)
    ensures Ordinal(a) < Ordinal(b) <==> Before(a, b)
    ensures Ordinal(a) == Ordinal(b) <==> a == b
  {
    if Before(a, b) {
      OrdinalIncreases(a, b);
    } else if Before(b, a) {
      OrdinalIncreases(b, a);
    }
  }

  // ---------------------------------------------------------------- months

  /** The month names in calendar order. */
  const MONTHS: seq<string> := ["Enero", "Febrero", "Marzo", "Abril", "Mayo", "Junio",
                                "Julio", "Agosto", "Septiembre", "Octubre", "Noviembre", "Diciembre"]

  /** `MONTHS.index(name)`: the position of a month name, `None` where
      Python raises ValueError. */
  function MonthIndex(name: string): (r: Option<nat>)
    ensures r.Some? ==> r.value < 12 && MONTHS[r.value] == name
    ensures r.None? ==> name !in MONTHS
  {
    if name == "Enero" then Some(0)
    else if name == "Febrero" then Some(1)
    else if name == "Marzo" then Some(2)
    else if name == "Abril" then Some(3)
    else if name == "Mayo" then Some(4)
    else if name == "Junio" then Some(5)
    else if name == "Julio" then Some(6)
    else if name == "Agosto" then Some(7)
    else if name == "Septiembre" then Some(8)
    else if name == "Octubre" then Some(9)
    else if name == "Noviembre" then Some(10)
    else if name == "Diciembre" then Some(11)
    else None
  }

  /** Looking up a month's name and then its position gives the month back,
      so the twelve names are distinct. */
  lemma MonthIndexOfName(i: nat)
    requires i < 12
    ensures MonthIndex(MONTHS[i]) == Some(i)
  {
  }

  /** Every name in `MONTHS` has an index. */
  lemma MonthIndexOfMember(name: string)
    requires name in MONTHS
    ensures MonthIndex(name).Some?
  {
    var i :| 0 <= i < 12 && MONTHS[i] == name;
    MonthIndexOfName(i);
  }

  /** `_month_name_from_date`: the name of the due date's month, `None` for a
      missing date. */
  function MonthNameFromDate(d: Option<CalDate>): (r: Option<string>)
    ensures r.Some? <==> d.Some?
    ensures r.Some? ==> MonthIndex(r.value) == Some(d.value.month - 1)
  {
    match d
    case None => None
    case Some(date) => MonthIndexOfName(date.month - 1); Some(MONTHS[date.month - 1])
  }

  /** A date cell of a workbook: one pandas reads as NaN or blank, one that
      parses, and one `to_datetime` refuses. */
  datatype DateCell = Blank | Parsed(date: CalDate) | Unparsable
}
