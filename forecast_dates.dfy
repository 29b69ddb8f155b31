// The occurrence dates of a recurring entry in the cash-flow forecast
// (`_calcular_datas_ocorrencia` in fluxo_caixa_projetado.py): runs of days,
// weeks, months, quarters or years between the entry's own dates and the
// forecast window.
module ForecastDates {
  import opened Calendar

  /** Every date is a calendar date in [lo, hi]. */
  predicate Within(ds: seq<Date>, lo: Date, hi: Date)
  {
    forall k :: 0 <= k < |ds| ==> Valid(ds[k]) && AtMost(lo, ds[k]) && AtMost(ds[k], hi)
  }

  /** No date comes before `lo`. */
  predicate AllFrom(ds: seq<Date>, lo: Date)
  {
    forall k :: 0 <= k < |ds| ==> AtMost(lo, ds[k])
  }

  /** Strictly increasing. */
  predicate Ascending(ds: seq<Date>)
  {
    forall i, j :: 0 <= i < j < |ds| ==> Before(ds[i], ds[j])
  }

  lemma ConsAscending(d: Date, rest: seq<Date>, next: Date)
    requires Ascending(rest) && Before(d, next) && AllFrom(rest, next)
    ensures Ascending([d] + rest)
  {
  }

  lemma OrdinalAtMost(a: Date, b: Date)
    requires Valid(a) && Valid(b)
    ensures AtMost(a, b) <==> Ordinal(a) <= Ordinal(b)
  {
    OrdinalOrder(a, b);
  }

  // ---------------------------------------------------------------------
  // Daily: `pd.date_range(data_atual, data_limite, freq='D')`

  /** Every day from `first` to `limit`, both included. */
  function DayRun(first: Date, limit: Date): seq<Date>
    requires Valid(first) && Valid(limit)
    decreases Ordinal(limit) - Ordinal(first)
  {
    if Before(limit, first) then []
    else
      OrdinalOrder(limit, first);
      NextDayOrdinal(first);
      [first] + DayRun(NextDay(first), limit)
  }

  lemma {:induction false} DayRunShape(first: Date, limit: Date)
    requires Valid(first) && Valid(limit)
    ensures Within(DayRun(first, limit), first, limit) && Ascending(DayRun(first, limit))
    decreases Ordinal(limit) - Ordinal(first)
  {
    if !Before(limit, first) {
      OrdinalOrder(limit, first);
      NextDayOrdinal(first);
      DayRunShape(NextDay(first), limit);
      ConsAscending(first, DayRun(NextDay(first), limit), NextDay(first));
    }
  }

  /** A date is in the run exactly when it lies between `first` and `limit`:
    * no day of the range is skipped. */
  lemma {:induction false} DayRunMembers(first: Date, limit: Date, d: Date)
    requires Valid(first) && Valid(limit) && Valid(d)
    ensures d in DayRun(first, limit) <==> AtMost(first, d) && AtMost(d, limit)
    decreases Ordinal(limit) - Ordinal(first)
  {
    DayRunShape(first, limit);
    if !Before(limit, first) {
      OrdinalOrder(limit, first);
      NextDayOrdinal(first);
      if d != first && AtMost(first, d) && AtMost(d, limit) {
        OrdinalOrder(first, d);
        OrdinalAtMost(NextDay(first), d);
        DayRunMembers(NextDay(first), limit, d);
      }
    }
  }

  // ---------------------------------------------------------------------
  // Weekly: `data_atual += timedelta(days=7)` while `data_atual <= data_limite`

  /** Same day of the week. */
  predicate SameDayOfWeek(a: Date, b: Date)
  {
    (Ordinal(a) - Ordinal(b)) % 7 == 0
  }

  /** `current`, a week later, and so on up to `limit`, keeping those from
    * `from` on. */
  function WeekRun(current: Date, from: Date, limit: Date): seq<Date>
    requires Valid(current) && Valid(limit)
    decreases Ordinal(limit) - Ordinal(current)
  {
    if Before(limit, current) then []
    else
      OrdinalOrder(limit, current);
      AddDaysOrdinal(current, 7);
      (if Before(current, from) then [] else [current]) + WeekRun(AddDays(current, 7), from, limit)
  }

  lemma {:induction false} WeekRunShape(current: Date, from: Date, limit: Date)
    requires Valid(current) && Valid(limit)
    ensures var ds := WeekRun(current, from, limit);
      Within(ds, from, limit) && AllFrom(ds, current) && Ascending(ds)
      && forall k :: 0 <= k < |ds| ==> SameDayOfWeek(ds[k], current)
    decreases Ordinal(limit) - Ordinal(current)
  {
    hide Ordinal, AddDays;
    if !Before(limit, current) {
      OrdinalOrder(limit, current);
      var next := AddDays(current, 7);
      AddDaysOrdinal(current, 7);
      OrdinalOrder(current, next);
      WeekRunShape(next, from, limit);
      ConsAscending(current, WeekRun(next, from, limit), next);
    }
  }

  /** A date is in the run exactly when it lies in the window, not before
    * `current`, on `current`'s day of the week. */
  lemma {:induction false} WeekRunMembers(current: Date, from: Date, limit: Date, d: Date)
    requires Valid(current) && Valid(limit) && Valid(d)
    ensures d in WeekRun(current, from, limit) <==>
            AtMost(current, d) && AtMost(from, d) && AtMost(d, limit) && SameDayOfWeek(d, current)
    decreases Ordinal(limit) - Ordinal(current)
  {
    hide Ordinal, AddDays;
    WeekRunShape(current, from, limit);
    if !Before(limit, current) {
      OrdinalOrder(limit, current);
      var next := AddDays(current, 7);
      AddDaysOrdinal(current, 7);
      if d != current && AtMost(current, d) && AtMost(from, d) && AtMost(d, limit) && SameDayOfWeek(d, current) {
        OrdinalOrder(current, d);
        OrdinalAtMost(next, d);
        WeekRunMembers(next, from, limit, d);
      }
    }
  }

  /** The first date on or after `d` that falls on `start`'s day of the week. */
  function SameWeekday(start: Date, d: Date): Date
  {
    AddDays(d, (Ordinal(start) - Ordinal(d)) % 7)
  }

  lemma SameWeekdayFacts(start: Date, d: Date)
    requires Valid(d)
    ensures Valid(SameWeekday(start, d)) && AtMost(d, SameWeekday(start, d))
    ensures SameDayOfWeek(SameWeekday(start, d), start)
    ensures Ordinal(SameWeekday(start, d)) < Ordinal(d) + 7
  {
    hide Ordinal, AddDays;
    var gap := (Ordinal(start) - Ordinal(d)) % 7;
    CatchUp(Ordinal(d), Ordinal(start));
    var sw := AddDays(d, gap);
    assert sw == SameWeekday(start, d);
    AddDaysOrdinal(d, gap);
    OrdinalAtMost(d, sw);
    assert Ordinal(sw) - Ordinal(start) == Ordinal(d) + gap - Ordinal(start);
  }

  /** Adding `(b - a) % 7` days to day number `a` reaches `b`'s day of the week. */
  lemma CatchUp(a: int, b: int)
    ensures 0 <= (b - a) % 7 < 7 && (a + (b - a) % 7 - b) % 7 == 0
  {
    var q := (b - a) / 7;
    assert b - a == 7 * q + (b - a) % 7;
    assert a + (b - a) % 7 - b == 7 * -q;
  }

  /** Two dates on the same day of the week as `start`, and hence as each
    * other; `aligned` is the first of them from `first` on. */
  lemma WeekAlignDates(d: Date, aligned: Date, start: Date, first: Date)
    requires Valid(d) && Valid(aligned) && Valid(first)
    requires SameDayOfWeek(aligned, start) && AtMost(first, aligned) && Ordinal(aligned) < Ordinal(first) + 7
    ensures (AtMost(first, d) && SameDayOfWeek(d, start)) <==> (AtMost(aligned, d) && SameDayOfWeek(d, aligned))
  {
    hide Ordinal;
    OrdinalAtMost(first, d);
    OrdinalAtMost(aligned, d);
    OrdinalAtMost(first, aligned);
    WeekAlign(Ordinal(d), Ordinal(aligned), Ordinal(start), Ordinal(first));
  }

  // ---------------------------------------------------------------------
  // Monthly and quarterly: `step` months on, day `data_inicio.day` clamped

  function NthIndex(start: Date, step: nat, n: nat): int
  {
    MonthIndex(start.year, start.month) + step * n
  }

  /** The date `n` steps of `step` months after `start`, on `start`'s day of
    * the month clamped to that month's length. */
  function Nth(start: Date, step: nat, n: nat): Date
  {
    var k := NthIndex(start, step, n);
    Date(k / 12, k % 12 + 1, ClampDay(k / 12, k % 12 + 1, start.day))
  }

  lemma NthIndexFacts(start: Date, step: nat, n: nat)
    ensures 1 <= Nth(start, step, n).month <= 12
    ensures MonthIndex(Nth(start, step, n).year, Nth(start, step, n).month) == NthIndex(start, step, n)
    ensures NthIndex(start, step, n + 1) == NthIndex(start, step, n) + step
  {
  }

  lemma NthValid(start: Date, step: nat, n: nat)
    requires Valid(start)
    ensures Valid(Nth(start, step, n))
  {
    var k := NthIndex(start, step, n);
    assert step * n >= 0;
    ClampDayValid(k / 12, k % 12 + 1, start.day);
  }

  lemma NthZero(start: Date, step: nat)
    requires Valid(start)
    ensures Nth(start, step, 0) == start
  {
  }

  lemma {:induction false} NthIndexGrows(start: Date, step: nat, i: nat, j: nat)
    requires 1 <= step && i < j
    ensures NthIndex(start, step, i) < NthIndex(start, step, j)
    decreases j - i
  {
    NthIndexFacts(start, step, i);
    if i + 1 < j {
      NthIndexGrows(start, step, i + 1, j);
    }
  }

  /** Later steps give later dates. */
  lemma NthOrder(start: Date, step: nat, i: nat, j: nat)
    requires 1 <= step && i <= j
    ensures AtMost(Nth(start, step, i), Nth(start, step, j))
    ensures i < j ==> Before(Nth(start, step, i), Nth(start, step, j))
  {
    if i < j {
      NthIndexFacts(start, step, i);
      NthIndexFacts(start, step, j);
      NthIndexGrows(start, step, i, j);
      MonthIndexBefore(Nth(start, step, i), Nth(start, step, j));
    }
  }

  /** One step of the source's loop: `step` months on from `d` with the year
    * carry (one carry is enough for `step <= 12`), on day `day` clamped to
    * the new month's length, as the `except ValueError` branch does. */
  function StepMonths(d: Date, step: nat, day: int): Date
  {
    var m := d.month + step;
    if m > 12 then Date(d.year + 1, m - 12, ClampDay(d.year + 1, m - 12, day))
    else Date(d.year, m, ClampDay(d.year, m, day))
  }

  /** Stepping from the previous date, clamped or not, lands on the closed
    * form: a clamp never shifts the later dates. */
  lemma StepMonthsNoDrift(start: Date, step: nat, n: nat)
    requires step <= 12
    ensures StepMonths(Nth(start, step, n), step, start.day) == Nth(start, step, n + 1)
  {
    NthIndexFacts(start, step, n);
    var k := NthIndex(start, step, n);
    var y, m := k / 12, k % 12;
    assert k == 12 * y + m && 0 <= m < 12;
    if m + 1 + step > 12 {
      assert k + step == 12 * (y + 1) + (m + step - 12);
      assert (k + step) / 12 == y + 1 && (k + step) % 12 == m + step - 12;
    } else {
      assert (k + step) / 12 == y && (k + step) % 12 == m + step;
    }
  }

  /** Dates `Nth(n)`, `Nth(n + 1)`, ... up to `limit`, keeping those from
    * `from` on. */
  function StepRun(start: Date, step: nat, from: Date, limit: Date, n: nat): seq<Date>
    requires 1 <= step && 1 <= limit.month <= 12
    decreases MonthIndex(limit.year, limit.month) - NthIndex(start, step, n)
  {
    var d := Nth(start, step, n);
    if Before(limit, d) then []
    else
      NthIndexFacts(start, step, n);
      (if Before(d, from) then [] else [d]) + StepRun(start, step, from, limit, n + 1)
  }

  lemma {:induction false} StepRunShape(start: Date, step: nat, from: Date, limit: Date, n: nat)
    requires Valid(start) && 1 <= step && Valid(limit)
    ensures var ds := StepRun(start, step, from, limit, n);
      Within(ds, from, limit) && AllFrom(ds, Nth(start, step, n)) && Ascending(ds)
    decreases MonthIndex(limit.year, limit.month) - NthIndex(start, step, n)
  {
    var d := Nth(start, step, n);
    if !Before(limit, d) {
      NthIndexFacts(start, step, n);
      NthValid(start, step, n);
      NthOrder(start, step, n, n + 1);
      StepRunShape(start, step, from, limit, n + 1);
      ConsAscending(d, StepRun(start, step, from, limit, n + 1), Nth(start, step, n + 1));
    }
  }

  /** A date is in the run exactly when it is some `Nth(j)`, `j >= n`, inside
    * [from, limit]: no step in the window is skipped. */
  lemma {:induction false} StepRunMembers(start: Date, step: nat, from: Date, limit: Date, n: nat, d: Date)
    requires 1 <= step && 1 <= limit.month <= 12
    ensures d in StepRun(start, step, from, limit, n) <==>
            exists j: nat :: n <= j && d == Nth(start, step, j) && AtMost(from, d) && AtMost(d, limit)
    decreases MonthIndex(limit.year, limit.month) - NthIndex(start, step, n)
  {
    var head := Nth(start, step, n);
    if Before(limit, head) {
      forall j: nat | n <= j
        ensures AtMost(head, Nth(start, step, j))
      {
        NthOrder(start, step, n, j);
      }
    } else {
      NthIndexFacts(start, step, n);
      StepRunMembers(start, step, from, limit, n + 1, d);
    }
  }

  // ---------------------------------------------------------------------
  // Annual: one candidate per year from `data_inicio.year` to the limit's

  /** `start`'s month and day in year `y`, the day clamped to the month. */
  function InYear(start: Date, y: int): Date
  {
    Date(y, start.month, ClampDay(y, start.month, start.day))
  }

  /** The day only changes for 29 February, which becomes 28 February in
    * common years. */
  lemma InYearFallback(start: Date, y: int)
    requires Valid(start) && 1 <= y
    ensures Valid(InYear(start, y)) && InYear(start, y).year == y && InYear(start, y).month == start.month
    ensures start.month == 2 && start.day == 29 && !IsLeap(y) ==> InYear(start, y).day == 28
    ensures !(start.month == 2 && start.day == 29 && !IsLeap(y)) ==> InYear(start, y).day == start.day
  {
    ClampDayValid(y, start.month, start.day);
  }

  /** Years `y` to `limit.year`, keeping the candidates inside [from, limit]. */
  function YearRun(start: Date, from: Date, limit: Date, y: int): seq<Date>
    decreases limit.year + 1 - y
  {
    if y > limit.year then []
    else
      var d := InYear(start, y);
      (if AtMost(from, d) && AtMost(d, limit) then [d] else []) + YearRun(start, from, limit, y + 1)
  }

  /** Strictly increasing years: at most one date per year. */
  predicate YearsIncrease(ds: seq<Date>)
  {
    forall i, j :: 0 <= i < j < |ds| ==> ds[i].year < ds[j].year
  }

  lemma {:induction false} YearRunShape(start: Date, from: Date, limit: Date, y: int)
    requires Valid(start) && start.year <= y
    ensures var ds := YearRun(start, from, limit, y);
      Within(ds, from, limit) && AllFrom(ds, start) && YearsIncrease(ds) && Ascending(ds)
      && forall k :: 0 <= k < |ds| ==> y <= ds[k].year
    decreases limit.year + 1 - y
  {
    if y <= limit.year {
      InYearFallback(start, y);
      YearRunShape(start, from, limit, y + 1);
    }
  }

  lemma {:induction false} YearRunMembers(start: Date, from: Date, limit: Date, y: int, d: Date)
    ensures d in YearRun(start, from, limit, y) <==>
            exists x :: y <= x <= limit.year && d == InYear(start, x) && AtMost(from, d) && AtMost(d, limit)
    decreases limit.year + 1 - y
  {
    if y <= limit.year {
      YearRunMembers(start, from, limit, y + 1, d);
    }
  }

  // ---------------------------------------------------------------------
  // All frequencies

  /** The occurrence dates of an entry running from `start` to `end` (its
    * own end, or the window's end when it has none) inside the window
    * [from, to]. Weekly dates keep `start`'s day of the week (see the
    * finding on `WeeklyAsWritten`); an unknown frequency gives no date. */
  function Occurrences(start: Date, end: Date, frequency: string, from: Date, to: Date): seq<Date>
    requires Valid(start) && Valid(end) && Valid(from) && Valid(to)
  {
    var first := Max(start, from);
    var limit := Min(end, to);
    if frequency == "diario" then DayRun(first, limit)
    else if frequency == "semanal" then
      SameWeekdayFacts(start, first);
      WeekRun(SameWeekday(start, first), from, limit)
    else if frequency == "mensal" then StepRun(start, 1, from, limit, 0)
    else if frequency == "trimestral" then StepRun(start, 3, from, limit, 0)
    else if frequency == "anual" then YearRun(start, from, limit, start.year)
    else []
  }

  /** Every occurrence is a calendar date in [max(start, from), min(end, to)],
    * and the dates are strictly increasing. */
  lemma OccurrencesInWindow(start: Date, end: Date, frequency: string, from: Date, to: Date)
    requires Valid(start) && Valid(end) && Valid(from) && Valid(to)
    ensures var ds := Occurrences(start, end, frequency, from, to);
      Within(ds, from, Min(end, to)) && AllFrom(ds, start) && Ascending(ds)
  {
    var first := Max(start, from);
    var limit := Min(end, to);
    if frequency == "diario" {
      DayRunShape(first, limit);
    } else if frequency == "semanal" {
      SameWeekdayFacts(start, first);
      WeekRunShape(SameWeekday(start, first), from, limit);
    } else if frequency == "mensal" {
      StepRunShape(start, 1, from, limit, 0);
      NthZero(start, 1);
    } else if frequency == "trimestral" {
      StepRunShape(start, 3, from, limit, 0);
      NthZero(start, 3);
    } else if frequency == "anual" {
      YearRunShape(start, from, limit, start.year);
    }
  }

  /** Daily occurrences are every day of [max(start, from), min(end, to)]. */
  lemma DailyIsEveryDay(start: Date, end: Date, from: Date, to: Date, d: Date)
    requires Valid(start) && Valid(end) && Valid(from) && Valid(to) && Valid(d)
    ensures d in Occurrences(start, end, "diario", from, to) <==>
            AtMost(Max(start, from), d) && AtMost(d, Min(end, to))
  {
    DayRunMembers(Max(start, from), Min(end, to), d);
  }

  /** Weekly occurrences are exactly the dates of [max(start, from),
    * min(end, to)] on `start`'s day of the week. */
  lemma WeeklyKeepsWeekday(start: Date, end: Date, from: Date, to: Date, d: Date)
    requires Valid(start) && Valid(end) && Valid(from) && Valid(to) && Valid(d)
    ensures d in Occurrences(start, end, "semanal", from, to) <==>
            AtMost(Max(start, from), d) && AtMost(d, Min(end, to)) && SameDayOfWeek(d, start)
  {
    var first := Max(start, from);
    SameWeekdayFacts(start, first);
    var sw := SameWeekday(start, first);
    WeeklyUnfold(start, end, from, to);
    hide Ordinal, AddDays, SameWeekday, SameDayOfWeek, Occurrences, WeekRun;
    WeekRunMembers(sw, from, Min(end, to), d);
    WeekAlignDates(d, sw, start, first);
  }

  lemma WeeklyUnfold(start: Date, end: Date, from: Date, to: Date)
    requires Valid(start) && Valid(end) && Valid(from) && Valid(to)
    ensures Valid(SameWeekday(start, Max(start, from)))
    ensures Occurrences(start, end, "semanal", from, to) == WeekRun(SameWeekday(start, Max(start, from)), from, Min(end, to))
  {
    SameWeekdayFacts(start, Max(start, from));
  }

  /** Day-number arithmetic behind `WeeklyKeepsWeekday`: when `aligned` is
    * the first number from `first` on congruent to `start` modulo 7, the
    * numbers from `first` congruent to `start` are those from `aligned`
    * congruent to `aligned`. */
  lemma WeekAlign(x: int, aligned: int, start: int, first: int)
    requires (aligned - start) % 7 == 0 && first <= aligned < first + 7
    ensures (first <= x && (x - start) % 7 == 0) <==> (aligned <= x && (x - aligned) % 7 == 0)
  {
    var q := (aligned - start) / 7;
    assert aligned - start == 7 * q;
    if (x - start) % 7 == 0 {
      var r := (x - start) / 7;
      assert x - start == 7 * r;
      assert x - aligned == 7 * (r - q);
    }
    if (x - aligned) % 7 == 0 {
      var r := (x - aligned) / 7;
      assert x - aligned == 7 * r;
      assert x - start == 7 * (r + q);
    }
  }

  /** Monthly and quarterly occurrences are exactly the closed-form steps
    * `Nth(start, step, j)` that fall inside [from, min(end, to)]. */
  lemma SteppedAreNth(start: Date, end: Date, frequency: string, from: Date, to: Date, d: Date)
    requires Valid(start) && Valid(end) && Valid(from) && Valid(to)
    requires frequency == "mensal" || frequency == "trimestral"
    ensures var step := if frequency == "mensal" then 1 else 3;
      d in Occurrences(start, end, frequency, from, to) <==>
      exists j: nat :: d == Nth(start, step, j) && AtMost(from, d) && AtMost(d, Min(end, to))
  {
    StepRunMembers(start, if frequency == "mensal" then 1 else 3, from, Min(end, to), 0, d);
  }

  /** Annual occurrences: at most one per year, each `start`'s month and day
    * in that year (29 February clamped in common years), inside the window. */
  lemma AnnualOncePerYear(start: Date, end: Date, from: Date, to: Date, d: Date)
    requires Valid(start) && Valid(end) && Valid(from) && Valid(to)
    ensures YearsIncrease(Occurrences(start, end, "anual", from, to))
    ensures d in Occurrences(start, end, "anual", from, to) <==>
            exists y :: start.year <= y <= Min(end, to).year && d == InYear(start, y)
                        && AtMost(from, d) && AtMost(d, Min(end, to))
  {
    YearRunShape(start, from, Min(end, to), start.year);
    YearRunMembers(start, from, Min(end, to), start.year, d);
  }

  // ---------------------------------------------------------------------
  // The loops of `_calcular_datas_ocorrencia`

  method OccurrenceDates(start: Date, end: Date, frequency: string, from: Date, to: Date) returns (dates: seq<Date>)
    requires Valid(start) && Valid(end) && Valid(from) && Valid(to)
    ensures dates == Occurrences(start, end, frequency, from, to)
  {
    var limit := Min(end, to);
    if frequency == "diario" {
      dates := DayRun(Max(start, from), limit);
    } else if frequency == "semanal" {
      // the weekday of `start`, which the source computes and never uses
      SameWeekdayFacts(start, Max(start, from));
      var first := SameWeekday(start, Max(start, from));
      dates := WeeklyDates(first, from, limit);
    } else if frequency == "mensal" {
      dates := SteppedDates(start, 1, from, limit);
    } else if frequency == "trimestral" {
      dates := SteppedDates(start, 3, from, limit);
    } else if frequency == "anual" {
      dates := AnnualDates(start, from, limit);
    } else {
      dates := [];
    }
  }

  /** The weekly loop from `first`, a week at a time. */
  method WeeklyDates(first: Date, from: Date, limit: Date) returns (dates: seq<Date>)
    requires Valid(first) && Valid(limit)
    ensures dates == WeekRun(first, from, limit)
  {
    hide Ordinal, AddDays, WeekRun;
    var current := first;
    dates := [];
    while !Before(limit, current)
      invariant Valid(current)
      invariant dates + WeekRun(current, from, limit) == WeekRun(first, from, limit)
      decreases Ordinal(limit) - Ordinal(current)
    {
      WeekRunStep(current, from, limit);
      if !Before(current, from) {
        dates := dates + [current];
      }
      current := AddDays(current, 7);
    }
    WeekRunEnd(current, from, limit);
  }

  lemma WeekRunEnd(current: Date, from: Date, limit: Date)
    requires Valid(current) && Valid(limit) && Before(limit, current)
    ensures WeekRun(current, from, limit) == []
  {
  }

  lemma WeekRunStep(current: Date, from: Date, limit: Date)
    requires Valid(current) && Valid(limit) && !Before(limit, current)
    ensures Valid(AddDays(current, 7)) && Ordinal(AddDays(current, 7)) == Ordinal(current) + 7
    ensures Ordinal(current) <= Ordinal(limit)
    ensures WeekRun(current, from, limit)
            == (if Before(current, from) then [] else [current]) + WeekRun(AddDays(current, 7), from, limit)
  {
    hide AddDays;
    OrdinalOrder(limit, current);
    AddDaysOrdinal(current, 7);
  }

  /** The monthly (`step` 1) and quarterly (`step` 3) loop: every step is
    * taken from the current date's month, with `start`'s day. */
  method SteppedDates(start: Date, step: nat, from: Date, limit: Date) returns (dates: seq<Date>)
    requires Valid(start) && Valid(limit) && 1 <= step <= 12
    ensures dates == StepRun(start, step, from, limit, 0)
  {
    var day := start.day;
    var current := start;
    ghost var n: nat := 0;
    NthZero(start, step);
    dates := [];
    while !Before(limit, current)
      invariant current == Nth(start, step, n)
      invariant dates + StepRun(start, step, from, limit, n) == StepRun(start, step, from, limit, 0)
      decreases MonthIndex(limit.year, limit.month) - MonthIndex(current.year, current.month)
    {
      NthIndexFacts(start, step, n);
      NthIndexFacts(start, step, n + 1);
      if !Before(current, from) {
        dates := dates + [current];
      }
      StepMonthsNoDrift(start, step, n);
      current := StepMonths(current, step, day);
      n := n + 1;
    }
  }

  /** The annual loop over `range(start.year, limit.year + 1)`. */
  method AnnualDates(start: Date, from: Date, limit: Date) returns (dates: seq<Date>)
    requires Valid(start)
    ensures dates == YearRun(start, from, limit, start.year)
  {
    hide YearRun, InYear, DaysInMonth;
    var y := start.year;
    dates := [];
    while y <= limit.year
      invariant dates + YearRun(start, from, limit, y) == YearRun(start, from, limit, start.year)
      decreases limit.year + 1 - y
    {
      InYearAsComputed(start, from, limit, y);
      // `datetime(y, month, day)` fails only for 29 February in a common year
      var d := if start.day <= DaysInMonth(y, start.month) then Date(y, start.month, start.day)
               else Date(y, 2, if IsLeap(y) then 29 else 28);
      if AtMost(from, d) && AtMost(d, limit) {
        dates := dates + [d];
      }
      y := y + 1;
    }
    YearRunEnd(start, from, limit, y);
  }

  lemma YearRunEnd(start: Date, from: Date, limit: Date, y: int)
    requires y > limit.year
    ensures YearRun(start, from, limit, y) == []
  {
  }

  /** The two branches of the source's `try`: the plain date, or 28 or 29
    * February after a `ValueError`. */
  lemma InYearAsComputed(start: Date, from: Date, limit: Date, y: int)
    requires Valid(start) && y <= limit.year
    ensures InYear(start, y) == if start.day <= DaysInMonth(y, start.month) then Date(y, start.month, start.day)
                                else Date(y, 2, if IsLeap(y) then 29 else 28)
    ensures YearRun(start, from, limit, y)
            == (if AtMost(from, InYear(start, y)) && AtMost(InYear(start, y), limit) then [InYear(start, y)] else [])
               + YearRun(start, from, limit, y + 1)
  {
  }

  // ---------------------------------------------------------------------
  // Finding: the weekly loop ignores the entry's day of the week

  /** The weekly branch as written: `dia_semana` is computed and never used,
    * so the run starts at max(start, from) whatever its day of the week. */
  function WeeklyAsWritten(start: Date, end: Date, from: Date, to: Date): seq<Date>
    requires Valid(start) && Valid(end) && Valid(from) && Valid(to)
  {
    WeekRun(Max(start, from), from, Min(end, to))
  }

  /** A weekly entry starting on Monday 1 January 2024, forecast from
    * Wednesday 3 January: as written the first occurrence is that Wednesday;
    * the corrected run gives Monday 8 January. */
  lemma WeeklyAsWrittenOffWeekday()
    ensures var start, from, to := Date(2024, 1, 1), Date(2024, 1, 3), Date(2024, 1, 31);
      var asWritten := WeeklyAsWritten(start, to, from, to);
      var corrected := Occurrences(start, to, "semanal", from, to);
      |asWritten| > 0 && asWritten[0] == Date(2024, 1, 3) && !SameDayOfWeek(asWritten[0], start)
      && |corrected| > 0 && corrected[0] == Date(2024, 1, 8) && SameDayOfWeek(corrected[0], start)
  {
    var start, from, to := Date(2024, 1, 1), Date(2024, 1, 3), Date(2024, 1, 31);
    SampleOrdinals();
    SampleAligned();
    WeeklyUnfold(start, to, from, to);
    hide Ordinal, AddDays, SameWeekday, Occurrences;
    WeekRunHead(from, from, to);
    WeekRunHead(Date(2024, 1, 8), from, to);
  }

  lemma SampleOrdinals()
    ensures Ordinal(Date(2024, 1, 1)) == 738886 && Ordinal(Date(2024, 1, 3)) == 738888
    ensures Ordinal(Date(2024, 1, 8)) == 738893
  {
  }

  lemma SampleAligned()
    ensures SameWeekday(Date(2024, 1, 1), Date(2024, 1, 3)) == Date(2024, 1, 8)
  {
    SampleOrdinals();
    hide Ordinal;
    assert AddDays(Date(2024, 1, 3), 5) == Date(2024, 1, 8);
  }

  lemma WeekRunHead(current: Date, from: Date, limit: Date)
    requires Valid(current) && Valid(limit) && AtMost(current, limit) && AtMost(from, current)
    ensures |WeekRun(current, from, limit)| > 0 && WeekRun(current, from, limit)[0] == current
  {
    hide AddDays;
  }
}
