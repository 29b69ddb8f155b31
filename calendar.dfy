// Proleptic Gregorian calendar dates as Python's `datetime.date` sees them:
// the leap-year rule, days per month, the day after, and the ordinal day
// number (`date.toordinal()`), through which day differences are taken.
module Calendar {

  datatype Date = Date(year: int, month: int, day: int)

  predicate IsLeap(y: int)
  {
    y % 4 == 0 && (y % 100 != 0 || y % 400 == 0)
  }

  function DaysInMonth(y: int, m: int): int
  {
    if m == 2 then (if IsLeap(y) then 29 else 28)
    else if m == 4 || m == 6 || m == 9 || m == 11 then 30
    else 31
  }

  predicate Valid(d: Date)
  {
    1 <= d.year && 1 <= d.month <= 12 && 1 <= d.day <= DaysInMonth(d.year, d.month)
  }

  /** Chronological order, which for valid dates is the lexicographic order. */
  predicate Before(a: Date, b: Date)
  {
    a.year < b.year
    || (a.year == b.year && (a.month < b.month || (a.month == b.month && a.day < b.day)))
  }

  predicate AtMost(a: Date, b: Date)
  {
    a == b || Before(a, b)
  }

  function Max(a: Date, b: Date): Date { if Before(a, b) then b else a }

  function Min(a: Date, b: Date): Date { if Before(b, a) then b else a }

  function YearLength(y: int): int { if IsLeap(y) then 366 else 365 }

  function DaysBeforeYear(y: int): int
  {
    365 * (y - 1) + (y - 1) / 4 - (y - 1) / 100 + (y - 1) / 400
  }

  function DaysBeforeMonth(y: int, m: int): int
  {
    (if m <= 1 then 0 else if m == 2 then 31 else if m == 3 then 59
     else if m == 4 then 90 else if m == 5 then 120 else if m == 6 then 151
     else if m == 7 then 181 else if m == 8 then 212 else if m == 9 then 243
     else if m == 10 then 273 else if m == 11 then 304 else 334)
    + (if m > 2 && IsLeap(y) then 1 else 0)
  }

  /** Day number with 1 January of year 1 as day 1, as `date.toordinal()`. */
  function Ordinal(d: Date): int
  {
    DaysBeforeYear(d.year) + DaysBeforeMonth(d.year, d.month) + d.day
  }

  function NextDay(d: Date): Date
  {
    if d.day < DaysInMonth(d.year, d.month) then Date(d.year, d.month, d.day + 1)
    else if d.month < 12 then Date(d.year, d.month + 1, 1)
    else Date(d.year + 1, 1, 1)
  }

  function PrevDay(d: Date): Date
  {
    if d.day > 1 then Date(d.year, d.month, d.day - 1)
    else if d.month > 1 then Date(d.year, d.month - 1, DaysInMonth(d.year, d.month - 1))
    else Date(d.year - 1, 12, 31)
  }

  /** `d + timedelta(days=n)` for n >= 0. */
  function AddDays(d: Date, n: nat): Date
    decreases n
  {
    if n == 0 then d else AddDays(NextDay(d), n - 1)
  }

  /** `min(day, last day of the month)`: the clamp used when stepping months. */
  function ClampDay(y: int, m: int, day: int): int
  {
    if day <= DaysInMonth(y, m) then day else DaysInMonth(y, m)
  }

  /** The month index y * 12 + (m - 1) grows by one per month. */
  function MonthIndex(y: int, m: int): int { y * 12 + (m - 1) }

  // ---------------------------------------------------------------------
  // Arithmetic facts behind the ordinal day number.

  lemma DaysBeforeYearStep(y: int)
    ensures DaysBeforeYear(y + 1) == DaysBeforeYear(y) + YearLength(y)
  {
    Quarter(y);
    Century(y);
    FourCenturies(y);
  }

  lemma Quarter(y: int)
    ensures y / 4 == (y - 1) / 4 + (if y % 4 == 0 then 1 else 0)
  {
  }

  lemma Century(y: int)
    ensures y / 100 == (y - 1) / 100 + (if y % 100 == 0 then 1 else 0)
  {
  }

  lemma FourCenturies(y: int)
    ensures y / 400 == (y - 1) / 400 + (if y % 400 == 0 then 1 else 0)
  {
  }

  lemma {:induction false} DaysBeforeYearGrows(y1: int, y2: int)
    requires y1 < y2
    ensures DaysBeforeYear(y1) + YearLength(y1) <= DaysBeforeYear(y2)
    decreases y2 - y1
  {
    DaysBeforeYearStep(y1);
    if y1 + 1 < y2 {
      DaysBeforeYearGrows(y1 + 1, y2);
    }
  }

  lemma DaysBeforeMonthStep(y: int, m: int)
    requires 1 <= m < 12
    ensures DaysBeforeMonth(y, m + 1) == DaysBeforeMonth(y, m) + DaysInMonth(y, m)
  {
  }

  lemma {:induction false} DaysBeforeMonthGrows(y: int, m1: int, m2: int)
    requires 1 <= m1 < m2 <= 12
    ensures DaysBeforeMonth(y, m1) + DaysInMonth(y, m1) <= DaysBeforeMonth(y, m2)
    decreases m2 - m1
  {
    DaysBeforeMonthStep(y, m1);
    if m1 + 1 < m2 {
      DaysBeforeMonthGrows(y, m1 + 1, m2);
    }
  }

  /** A valid date lies inside its year's span of day numbers. */
  lemma OrdinalWithinYear(d: Date)
    requires Valid(d)
    ensures DaysBeforeYear(d.year) < Ordinal(d) <= DaysBeforeYear(d.year) + YearLength(d.year)
  {
    if d.month < 12 {
      DaysBeforeMonthGrows(d.year, d.month, 12);
    }
  }

  /** The day after a valid date is valid, later, and one day number on. */
  lemma NextDayOrdinal(d: Date)
    requires Valid(d)
    ensures Valid(NextDay(d)) && Before(d, NextDay(d))
    ensures Ordinal(NextDay(d)) == Ordinal(d) + 1
  {
    if d.day < DaysInMonth(d.year, d.month) {
    } else if d.month < 12 {
      DaysBeforeMonthStep(d.year, d.month);
    } else {
      DaysBeforeYearStep(d.year);
    }
  }

  lemma PrevDayNext(d: Date)
    requires Valid(d) && (d.year > 1 || d.month > 1 || d.day > 1)
    ensures Valid(PrevDay(d)) && NextDay(PrevDay(d)) == d
  {
  }

  /** For valid dates, chronological order is the order of day numbers. */
  lemma OrdinalMonotone(a: Date, b: Date)
    requires Valid(a) && Valid(b) && Before(a, b)
    ensures Ordinal(a) < Ordinal(b)
  {
    if a.year < b.year {
      OrdinalWithinYear(a);
      OrdinalWithinYear(b);
      DaysBeforeYearGrows(a.year, b.year);
    } else if a.month < b.month {
      DaysBeforeMonthGrows(a.year, a.month, b.month);
    }
  }

  lemma OrdinalOrder(a: Date, b: Date)
    requires Valid(a) && Valid(b)
    ensures Before(a, b) <==> Ordinal(a) < Ordinal(b)
    ensures a == b <==> Ordinal(a) == Ordinal(b)
  {
    if Before(a, b) {
      OrdinalMonotone(a, b);
    } else if Before(b, a) {
      OrdinalMonotone(b, a);
    }
  }

  lemma {:induction false} AddDaysOrdinal(d: Date, n: nat)
    requires Valid(d)
    ensures Valid(AddDays(d, n)) && Ordinal(AddDays(d, n)) == Ordinal(d) + n
    decreases n
  {
    if n > 0 {
      NextDayOrdinal(d);
      AddDaysOrdinal(NextDay(d), n - 1);
    }
  }

  lemma ClampDayValid(y: int, m: int, day: int)
    requires 1 <= y && 1 <= m <= 12 && 1 <= day
    ensures Valid(Date(y, m, ClampDay(y, m, day)))
    ensures ClampDay(y, m, day) <= day
    ensures day <= 28 ==> ClampDay(y, m, day) == day
  {
  }

  /** A later month index means a later date, whatever the days. */
  lemma MonthIndexBefore(a: Date, b: Date)
    requires 1 <= a.month <= 12 && 1 <= b.month <= 12
    requires MonthIndex(a.year, a.month) < MonthIndex(b.year, b.month)
    ensures Before(a, b)
  {
  }

  lemma BeforeTrans(a: Date, b: Date, c: Date)
    requires Before(a, b) && Before(b, c)
    ensures Before(a, c)
  {
  }

  /** The last day of a month, computed as the first day of the next month
    * minus one day, with December rolling into January of the next year. */
  function MonthEnd(y: int, m: int): (r: Date)
    requires 1 <= y && 1 <= m <= 12
    ensures Valid(r) && r.year == y && r.month == m && r.day == DaysInMonth(y, m)
    ensures Valid(NextDay(r)) && NextDay(r).day == 1
  {
    var firstOfNext := if m == 12 then Date(y + 1, 1, 1) else Date(y, m + 1, 1);
    PrevDay(firstOfNext)
  }

  function Digit(n: int): char
    requires 0 <= n <= 9
  {
    ('0' as int + n) as char
  }

  /** The last `width` decimal digits of `n`, zero-padded. */
  function Padded(n: int, width: nat): (s: string)
    ensures |s| == width
    decreases width
  {
    if width == 0 then [] else Padded(n / 10, width - 1) + [Digit(n % 10)]
  }

  function Pow10(w: nat): nat
  {
    if w == 0 then 1 else 10 * Pow10(w - 1)
  }

  /** Numbers below 10^width are told apart by their padded digits. */
  lemma {:induction false} PaddedInjective(a: int, b: int, width: nat)
    requires 0 <= a < Pow10(width) && 0 <= b < Pow10(width)
    requires Padded(a, width) == Padded(b, width)
    ensures a == b
    decreases width
  {
    if width > 0 {
      var pa, pb := Padded(a / 10, width - 1), Padded(b / 10, width - 1);
      assert Padded(a, width)[..width - 1] == pa && Padded(b, width)[..width - 1] == pb;
      assert Digit(a % 10) == Padded(a, width)[width - 1] == Digit(b % 10);
      PaddedInjective(a / 10, b / 10, width - 1);
    }
  }

  /** `strftime("%d/%m/%Y")` */
  function FormatDMY(d: Date): (s: string)
    ensures |s| == 10 && s[2] == '/' && s[5] == '/'
  {
    Padded(d.day, 2) + "/" + Padded(d.month, 2) + "/" + Padded(d.year, 4)
  }

  /** Two valid dates of years up to 9999 print the same only when they are
    * the same date. */
  lemma FormatInjective(a: Date, b: Date)
    requires Valid(a) && Valid(b) && a.year <= 9999 && b.year <= 9999
    requires FormatDMY(a) == FormatDMY(b)
    ensures a == b
  {
    var s, t := FormatDMY(a), FormatDMY(b);
    assert s[..2] == Padded(a.day, 2) && t[..2] == Padded(b.day, 2);
    assert s[3..5] == Padded(a.month, 2) && t[3..5] == Padded(b.month, 2);
    assert s[6..] == Padded(a.year, 4) && t[6..] == Padded(b.year, 4);
    assert Pow10(2) == 100 && Pow10(4) == 10000 by {
      assert Pow10(1) == 10 && Pow10(3) == 1000;
    }
    PaddedInjective(a.day, b.day, 2);
    PaddedInjective(a.month, b.month, 2);
    PaddedInjective(a.year, b.year, 4);
  }
}
