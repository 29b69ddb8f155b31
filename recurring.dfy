// `GerenciadorLancamentosRecorrentes` (lancamentos_recorrentes.py): a list of
// recurring entries with fresh ids, their edits, and the dates each
// periodicity produces inside a period.
module Recurring {
  import opened Util
  import opened Calendar

  /** The periodicities the source names ("diario", "semanal", "quinzenal",
    * "mensal", "trimestral", "semestral", "anual"); any other name is
    * `Unknown`. */
  datatype Periodicity = Daily | Weekly | Fortnightly | Monthly | Quarterly | HalfYearly | Yearly
                       | Unknown(name: string)

  datatype Entry = Entry(id: int, desc: string, value: real, periodicity: Periodicity,
                         start: Date, end: Option<Date>, account: Option<string>, active: bool)

  predicate WellFormed(e: Entry)
  {
    Valid(e.start) && (e.end.Some? ==> Valid(e.end.value))
  }

  // ---------------------------------------------------------------------
  // Ids

  function Ids(entries: seq<Entry>): set<int>
  {
    set e | e in entries :: e.id
  }

  /** The position of the first entry with the id, or the length when none has it. */
  function IndexOf(entries: seq<Entry>, id: int): (r: nat)
    ensures r <= |entries|
    ensures r < |entries| ==> entries[r].id == id
    ensures forall k :: 0 <= k < r ==> entries[k].id != id
  {
    if entries == [] then 0
    else if entries[0].id == id then 0
    else 1 + IndexOf(entries[1..], id)
  }

  // ---------------------------------------------------------------------
  // Edits: the keyword arguments of `editar_lancamento`

  /** One keyword argument; a key the entry does not have is `Other`. */
  datatype Change = SetId(id: int) | SetDesc(desc: string) | SetValue(value: real)
                  | SetPeriodicity(periodicity: Periodicity) | SetStart(start: Date)
                  | SetEnd(end: Option<Date>) | SetAccount(account: Option<string>)
                  | SetActive(active: bool) | Other(key: string)

  function Apply(e: Entry, c: Change): Entry
  {
    match c
    case SetId(v) => e.(id := v)
    case SetDesc(v) => e.(desc := v)
    case SetValue(v) => e.(value := v)
    case SetPeriodicity(v) => e.(periodicity := v)
    case SetStart(v) => e.(start := v)
    case SetEnd(v) => e.(end := v)
    case SetAccount(v) => e.(account := v)
    case SetActive(v) => e.(active := v)
    case Other(_) => e
  }

  /** The changes applied in order, the last one of a key winning. */
  function ApplyAll(e: Entry, cs: seq<Change>): Entry
    decreases |cs|
  {
    if cs == [] then e else ApplyAll(Apply(e, cs[0]), cs[1..])
  }

  /** Keys the entry does not have are ignored. */
  lemma {:induction false} UnknownKeysIgnored(e: Entry, cs: seq<Change>)
    requires forall k :: 0 <= k < |cs| ==> cs[k].Other?
    ensures ApplyAll(e, cs) == e
    decreases |cs|
  {
    if cs != [] {
      UnknownKeysIgnored(e, cs[1..]);
    }
  }

  /** An edit that sets no id keeps the entry's id. */
  lemma {:induction false} EditKeepsId(e: Entry, cs: seq<Change>)
    requires forall k :: 0 <= k < |cs| ==> !cs[k].SetId?
    ensures ApplyAll(e, cs).id == e.id
    decreases |cs|
  {
    if cs != [] {
      EditKeepsId(Apply(e, cs[0]), cs[1..]);
    }
  }

  /** A description set by an edit is the entry's description afterwards,
    * unless a later change sets it again. */
  lemma {:induction false} LastDescriptionWins(e: Entry, cs: seq<Change>, d: string)
    requires forall k :: 0 <= k < |cs| ==> !cs[k].SetDesc?
    ensures ApplyAll(e, [SetDesc(d)] + cs).desc == d
    decreases |cs|
  {
    assert ([SetDesc(d)] + cs)[1..] == cs;
    KeepsDesc(e.(desc := d), cs);
  }

  lemma {:induction false} KeepsDesc(e: Entry, cs: seq<Change>)
    requires forall k :: 0 <= k < |cs| ==> !cs[k].SetDesc?
    ensures ApplyAll(e, cs).desc == e.desc
    decreases |cs|
  {
    if cs != [] {
      KeepsDesc(Apply(e, cs[0]), cs[1..]);
    }
  }

  // ---------------------------------------------------------------------
  // Dates

  /** The condition of the alignment loop that moves the first date, one day
    * at a time, onto the start date's day (monthly: unless past the 28th),
    * month of the quarter or half-year, or day and month (yearly). */
  predicate Searching(p: Periodicity, start: Date, d: Date)
  {
    match p
    case Monthly => d.day != start.day && d.day <= 28
    case Quarterly => (d.month - 1) % 3 + 1 != (start.month - 1) % 3 + 1 || d.day != start.day
    case HalfYearly => (d.month - 1) % 6 + 1 != (start.month - 1) % 6 + 1 || d.day != start.day
    case Yearly => d.month != start.month || d.day != start.day
    case _ => false
  }

  /** A date after `from` at which the alignment loop stops; it bounds the loop. */
  function Witness(p: Periodicity, start: Date, from: Date): Date
  {
    match p
    case Monthly => Date(from.year + 1, 1, if start.day <= 28 then start.day else 29)
    case Quarterly =>
      var c := (start.month - 1) % 3;
      Date(from.year + 1, if c == 0 then 1 else if c == 1 then 5 else 3, start.day)
    case HalfYearly =>
      var c := (start.month - 1) % 6;
      Date(from.year + 1, if c == 0 then 1 else if c == 1 then 8 else if c == 2 then 3
                          else if c == 3 then 10 else if c == 4 then 5 else 12, start.day)
    case Yearly =>
      if start.month == 2 && start.day == 29 then Date((from.year / 400 + 1) * 400, 2, 29)
      else Date(from.year + 1, start.month, start.day)
    case _ => from
  }

  lemma WitnessStops(p: Periodicity, start: Date, from: Date)
    requires Valid(start) && Valid(from)
    ensures var w := Witness(p, start, from); Valid(w) && AtMost(from, w) && !Searching(p, start, w)
  {
    match p
    case Monthly =>
    case Quarterly =>
      var c := (start.month - 1) % 3;
      assert Witness(p, start, from).month == if c == 0 then 1 else if c == 1 then 5 else 3;
    case HalfYearly =>
      var c := (start.month - 1) % 6;
      assert Witness(p, start, from).month == if c == 0 then 1 else if c == 1 then 8 else if c == 2 then 3
                                              else if c == 3 then 10 else if c == 4 then 5 else 12;
    case Yearly =>
      if start.month == 2 && start.day == 29 {
        LeapAfter(from.year);
      }
    case _ =>
  }

  /** A multiple of 400 after `y` is a leap year after `y`. */
  lemma LeapAfter(y: int)
    requires y >= 1
    ensures var l := (y / 400 + 1) * 400; l > y && IsLeap(l)
  {
    var q := y / 400;
    assert (q + 1) * 400 == 400 * q + 400;
    assert ((q + 1) * 400) % 4 == 0 && ((q + 1) * 400) % 400 == 0;
  }

  lemma BeforeNextDay(e: Date, d: Date)
    requires Valid(e) && Valid(d) && Before(e, NextDay(d))
    ensures AtMost(e, d)
  {
    NextDayOrdinal(d);
    OrdinalOrder(e, NextDay(d));
    OrdinalOrder(e, d);
  }

  /** The alignment loop of `gerar_datas_lancamento`: the first date from
    * `from` on at which the loop's condition fails. */
  method Align(p: Periodicity, start: Date, from: Date) returns (d: Date)
    requires Valid(start) && Valid(from)
    ensures Valid(d) && AtMost(from, d) && !Searching(p, start, d)
    ensures forall e :: Valid(e) && AtMost(from, e) && Before(e, d) ==> Searching(p, start, e)
  {
    ghost var w := Witness(p, start, from);
    WitnessStops(p, start, from);
    OrdinalOrder(from, w);
    d := from;
    while Searching(p, start, d)
      invariant Valid(d) && AtMost(from, d) && Ordinal(d) <= Ordinal(w)
      invariant forall e :: Valid(e) && AtMost(from, e) && Before(e, d) ==> Searching(p, start, e)
      decreases Ordinal(w) - Ordinal(d)
    {
      OrdinalOrder(d, w);
      NextDayOrdinal(d);
      forall e | Valid(e) && AtMost(from, e) && Before(e, NextDay(d)) ensures Searching(p, start, e) {
        BeforeNextDay(e, d);
      }
      d := NextDay(d);
    }
  }

  /** One step of the generation loop; `None` is the `ValueError` that
    * `replace(year=...)` raises for a 29 February. Months are stepped with
    * the year carried and the current day clamped to the target month. */
  function Advance(p: Periodicity, d: Date): Option<Date>
    requires !p.Unknown?
  {
    match p
    case Daily => Some(AddDays(d, 1))
    case Weekly => Some(AddDays(d, 7))
    case Fortnightly => Some(AddDays(d, 15))
    case Monthly =>
      var y, m := d.year + d.month / 12, d.month % 12 + 1;
      Some(Date(y, m, ClampDay(y, m, d.day)))
    case Quarterly =>
      var y, m := d.year + (d.month + 2) / 12, (d.month + 2) % 12 + 1;
      Some(Date(y, m, ClampDay(y, m, d.day)))
    case HalfYearly =>
      var y, m := d.year + (d.month + 5) / 12, (d.month + 5) % 12 + 1;
      Some(Date(y, m, ClampDay(y, m, d.day)))
    case Yearly =>
      if Valid(Date(d.year + 1, d.month, d.day)) then Some(Date(d.year + 1, d.month, d.day)) else None
  }

  /** Month steps move the month index on by 1, 3 or 6 and keep the day
    * unless the target month is shorter. */
  function MonthsPerStep(p: Periodicity): nat
  {
    match p
    case Monthly => 1
    case Quarterly => 3
    case HalfYearly => 6
    case _ => 0
  }

  lemma MonthStep(p: Periodicity, d: Date)
    requires p == Monthly || p == Quarterly || p == HalfYearly
    requires Valid(d)
    ensures Advance(p, d).Some?
    ensures var n := Advance(p, d).value;
      Valid(n) && MonthIndex(n.year, n.month) == MonthIndex(d.year, d.month) + MonthsPerStep(p)
      && n.day <= d.day && (n.day == d.day || n.day == DaysInMonth(n.year, n.month))
  {
    var n := Advance(p, d).value;
    ClampDayValid(n.year, n.month, d.day);
  }

  /** Day steps are 1, 7 or 15 days. */
  lemma DayStep(p: Periodicity, d: Date)
    requires p == Daily || p == Weekly || p == Fortnightly
    requires Valid(d)
    ensures Advance(p, d).Some?
    ensures Valid(Advance(p, d).value)
    ensures Ordinal(Advance(p, d).value) == Ordinal(d) + (if p == Daily then 1 else if p == Weekly then 7 else 15)
  {
    AddDaysOrdinal(d, if p == Daily then 1 else if p == Weekly then 7 else 15);
  }

  /** A yearly step fails exactly on a 29 February. */
  lemma YearlyStep(d: Date)
    requires Valid(d)
    ensures Advance(Yearly, d).None? <==> d.month == 2 && d.day == 29
    ensures Advance(Yearly, d).Some? ==> Advance(Yearly, d).value == Date(d.year + 1, d.month, d.day)
  {
  }

  /** Only a yearly step can fail. */
  lemma AdvanceFails(p: Periodicity, d: Date)
    requires !p.Unknown? && Advance(p, d).None?
    ensures p == Yearly
  {
  }

  /** Every successful step lands on a valid, later date. */
  lemma AdvanceLater(p: Periodicity, d: Date)
    requires !p.Unknown? && Valid(d) && Advance(p, d).Some?
    ensures Valid(Advance(p, d).value) && Before(d, Advance(p, d).value)
  {
    var n := Advance(p, d).value;
    if p == Daily || p == Weekly || p == Fortnightly {
      DayStep(p, d);
      OrdinalOrder(d, n);
    } else if p == Monthly || p == Quarterly || p == HalfYearly {
      MonthStep(p, d);
      MonthIndexBefore(d, n);
    }
  }

  /** A clamped day persists: monthly from 31 January 2023 gives 28 February
    * and then 28 March, not 31 March. */
  lemma ClampPersists()
    ensures Advance(Monthly, Date(2023, 1, 31)) == Some(Date(2023, 2, 28))
    ensures Advance(Monthly, Date(2023, 2, 28)) == Some(Date(2023, 3, 28))
  {
  }

  predicate WithinEnd(end: Option<Date>, d: Date)
  {
    end.None? || AtMost(d, end.value)
  }

  /** Every date is valid and lies in [lo, to] and not past `end`. */
  predicate Bounded(ds: seq<Date>, lo: Date, to: Date, end: Option<Date>)
  {
    forall i :: 0 <= i < |ds| ==> Valid(ds[i]) && AtMost(lo, ds[i]) && AtMost(ds[i], to) && WithinEnd(end, ds[i])
  }

  predicate Increasing(ds: seq<Date>)
  {
    forall i, j :: 0 <= i < j < |ds| ==> Before(ds[i], ds[j])
  }

  predicate AllBefore(ds: seq<Date>, d: Date)
  {
    forall i :: 0 <= i < |ds| ==> Before(ds[i], d)
  }

  /** Each date is one step after the previous one. */
  predicate Consecutive(p: Periodicity, ds: seq<Date>)
  {
    |ds| <= 1 || (!p.Unknown? && forall i :: 0 <= i < |ds| - 1 ==> Advance(p, ds[i]) == Some(ds[i + 1]))
  }

  /** The generated dates: within the bounds, increasing, one step apart. */
  predicate Emitted(p: Periodicity, ds: seq<Date>, lo: Date, to: Date, end: Option<Date>)
  {
    Bounded(ds, lo, to, end) && Increasing(ds) && Consecutive(p, ds)
  }

  /** `d` is where the alignment loop started at `lo` stops. */
  ghost predicate FirstAligned(p: Periodicity, start: Date, lo: Date, d: Date)
  {
    !Searching(p, start, d)
    && forall e {:trigger Searching(p, start, e)} :: Valid(e) && AtMost(lo, e) && Before(e, d) ==> Searching(p, start, e)
  }

  /** No date in [lo, to] not past `end` stops the alignment loop. */
  ghost predicate NoneAligned(p: Periodicity, start: Date, lo: Date, to: Date, end: Option<Date>)
  {
    forall e :: Valid(e) && AtMost(lo, e) && AtMost(e, to) && WithinEnd(end, e) ==> Searching(p, start, e)
  }

  lemma Extend(p: Periodicity, ds: seq<Date>, cur: Date, lo: Date, to: Date, end: Option<Date>)
    requires !p.Unknown? && Valid(cur) && AtMost(lo, cur) && AtMost(cur, to) && WithinEnd(end, cur)
    requires Emitted(p, ds, lo, to, end) && AllBefore(ds, cur)
    requires ds != [] ==> Advance(p, ds[|ds| - 1]) == Some(cur)
    ensures Emitted(p, ds + [cur], lo, to, end)
  {
    hide Advance, Valid, AtMost, Before, WithinEnd;
    var es := ds + [cur];
    assert Bounded(es, lo, to, end);
    forall i, j | 0 <= i < j < |es| ensures Before(es[i], es[j]) {
      if j < |ds| {
        assert es[i] == ds[i] && es[j] == ds[j];
      } else {
        assert es[i] == ds[i] && es[j] == cur;
      }
    }
    forall i | 0 <= i < |es| - 1 ensures Advance(p, es[i]) == Some(es[i + 1]) {
      if i + 1 < |ds| {
        assert es[i] == ds[i] && es[i + 1] == ds[i + 1];
      }
    }
  }

  lemma NothingEmitted(p: Periodicity, lo: Date, to: Date, end: Option<Date>, d: Date)
    ensures Emitted(p, [], lo, to, end) && AllBefore([], d)
  {
  }

  lemma AllBeforeLater(ds: seq<Date>, cur: Date, next: Date)
    requires AllBefore(ds, cur) && Before(cur, next)
    ensures AllBefore(ds, next) && AllBefore(ds + [cur], next)
  {
    forall i | 0 <= i < |ds| ensures Before(ds[i], next) {
      BeforeTrans(ds[i], cur, next);
    }
  }

  lemma NoneAlignedBefore(p: Periodicity, start: Date, lo: Date, a: Date, to: Date, end: Option<Date>)
    requires Valid(a) && FirstAligned(p, start, lo, a)
    requires Before(to, a) || (!WithinEnd(end, a) && end.Some? && Valid(end.value))
    ensures NoneAligned(p, start, lo, to, end)
  {
    forall e | Valid(e) && AtMost(lo, e) && AtMost(e, to) && WithinEnd(end, e) ensures Searching(p, start, e) {
      assert Before(e, a);
    }
  }

  /** An annual entry starting on 29 February: its first step, `replace`
    * with the next year, raises `ValueError`. */
  predicate Feb29Yearly(p: Periodicity, start: Date)
  {
    p == Yearly && start.month == 2 && start.day == 29
  }

  /** The alignment loop started at `lo` stops at a date not past `to`, so
    * the generation loop runs at least once. */
  ghost predicate AlignsWithin(p: Periodicity, start: Date, lo: Date, to: Date)
  {
    exists d :: Valid(d) && AtMost(lo, d) && FirstAligned(p, start, lo, d) && AtMost(d, to)
  }

  /** The dates of a periodicity: from the aligned first date on, one step
    * at a time while the date is not past `to`, keeping those not past
    * `end`. An unknown periodicity never steps, so the source loops forever
    * unless its first date is already past `to`. */
  method GenerateDates(p: Periodicity, start: Date, end: Option<Date>, from: Date, to: Date)
    returns (r: Result<seq<Date>>)
    requires Valid(start) && Valid(from) && Valid(to) && (end.Some? ==> Valid(end.value))
    requires !p.Unknown? || Before(to, Max(start, from))
    ensures r.Err? ==> p == Yearly && start.month == 2 && start.day == 29
    ensures p == Yearly && start.month == 2 && start.day == 29 && r.Ok? ==> r.value == []
    ensures r.Ok? ==> Emitted(p, r.value, Max(start, from), to, end)
    ensures r.Ok? && r.value != [] ==> FirstAligned(p, start, Max(start, from), r.value[0])
    ensures r.Ok? && r.value != [] && !p.Unknown? && Advance(p, r.value[|r.value| - 1]).Some? ==>
      (Before(to, Advance(p, r.value[|r.value| - 1]).value) || !WithinEnd(end, Advance(p, r.value[|r.value| - 1]).value))
    ensures r.Ok? && r.value == [] ==> NoneAligned(p, start, Max(start, from), to, end)
    ensures r.Err? <==> Feb29Yearly(p, start) && AlignsWithin(p, start, Max(start, from), to)
  {
    var m0 := Max(start, from);
    var first := Align(p, start, m0);
    assert FirstAligned(p, start, m0, first);
    r := Repeat(p, start, end, m0, to, first);
    if AlignsWithin(p, start, m0, to) {
      var d :| Valid(d) && AtMost(m0, d) && FirstAligned(p, start, m0, d) && AtMost(d, to);
      FirstAlignedUnique(p, start, m0, d, first);
    }
    if r.Err? {
      assert Valid(first) && AtMost(m0, first) && FirstAligned(p, start, m0, first) && AtMost(first, to);
    }
    if r.Ok? && r.value == [] {
      NoneAlignedBefore(p, start, m0, first, to, end);
    }
  }

  /** The generation loop of `gerar_datas_lancamento`, from the aligned date `first`. */
  method Repeat(p: Periodicity, start: Date, end: Option<Date>, m0: Date, to: Date, first: Date)
    returns (r: Result<seq<Date>>)
    requires Valid(first) && Valid(to) && (end.Some? ==> Valid(end.value)) && AtMost(m0, first)
    requires !p.Unknown? || Before(to, first)
    requires p == Yearly ==> first.month == start.month && first.day == start.day
    ensures r.Err? ==> p == Yearly && start.month == 2 && start.day == 29
    ensures p == Yearly && start.month == 2 && start.day == 29 && r.Ok? ==> r.value == []
    ensures r.Ok? ==> Emitted(p, r.value, m0, to, end)
    ensures r.Ok? && r.value != [] ==> r.value[0] == first
    ensures r.Ok? && r.value != [] && !p.Unknown? && Advance(p, r.value[|r.value| - 1]).Some? ==>
      (Before(to, Advance(p, r.value[|r.value| - 1]).value) || !WithinEnd(end, Advance(p, r.value[|r.value| - 1]).value))
    ensures r.Ok? && r.value == [] ==> Before(to, first) || (!WithinEnd(end, first) && end.Some?)
    ensures r.Err? <==> Feb29Yearly(p, start) && AtMost(first, to)
  {
    var cur := first;
    var datas: seq<Date> := [];
    NothingEmitted(p, m0, to, end, cur);
    hide Emitted, AllBefore, Advance, Ordinal, Valid;
    while AtMost(cur, to)
      invariant Valid(cur) && AtMost(first, cur)
      invariant Emitted(p, datas, m0, to, end) && AllBefore(datas, cur)
      invariant datas != [] ==> datas[0] == first && !p.Unknown?
      invariant datas != [] ==> Advance(p, datas[|datas| - 1]) == Some(cur)
                                || (Advance(p, datas[|datas| - 1]).Some? && !WithinEnd(end, Advance(p, datas[|datas| - 1]).value))
      invariant datas != [] ==> Advance(p, datas[|datas| - 1]).Some? && AtMost(Advance(p, datas[|datas| - 1]).value, cur)
      invariant p == Yearly ==> cur.month == start.month && cur.day == start.day
      invariant datas == [] ==> cur == first || !WithinEnd(end, first)
      invariant !WithinEnd(end, first) ==> !WithinEnd(end, cur)
      invariant p == Yearly && start.month == 2 && start.day == 29 ==> datas == [] && cur == first
      decreases Ordinal(to) - Ordinal(cur)
    {
      assert !p.Unknown?;
      ghost var prev := datas;
      if end.None? || AtMost(cur, end.value) {
        Extend(p, datas, cur, m0, to, end);
        datas := datas + [cur];
      }
      var next := Advance(p, cur);
      if p == Yearly {
        YearlyStep(cur);
      }
      if next.None? {
        AdvanceFails(p, cur);
        return Err("ValueError: day is out of range for month");
      }
      AdvanceLater(p, cur);
      AllBeforeLater(prev, cur, next.value);
      OrdinalOrder(cur, next.value);
      OrdinalOrder(cur, to);
      cur := next.value;
    }
    r := Ok(datas);
  }

  // ---------------------------------------------------------------------
  // Processing a period

  /** The period check of `processar_lancamentos`: an entry starting after
    * the period or ending before it is skipped. */
  predicate Overlaps(e: Entry, from: Date, to: Date)
  {
    !Before(to, e.start) && !(e.end.Some? && Before(e.end.value, from))
  }

  /** The source loops forever on an unknown periodicity unless the first
    * date is already past the period. */
  predicate Terminates(e: Entry, from: Date, to: Date)
  {
    !e.periodicity.Unknown? || Before(to, Max(e.start, from))
  }

  /** A generated row. */
  datatype Occurrence = Occurrence(date: Date, desc: string, value: real, account: Option<string>, entryId: int)

  /** `o` is a row that the active entry `e`, which overlaps the period,
    * may produce: its data, its id, and a date inside both periods. */
  predicate FromEntry(e: Entry, o: Occurrence, from: Date, to: Date)
  {
    e.active && Overlaps(e, from, to)
    && o.entryId == e.id && o.desc == e.desc && o.value == e.value && o.account == e.account
    && Valid(o.date) && AtMost(Max(e.start, from), o.date) && AtMost(o.date, to) && WithinEnd(e.end, o.date)
  }

  ghost predicate FromSome(entries: seq<Entry>, o: Occurrence, from: Date, to: Date)
  {
    exists j :: 0 <= j < |entries| && FromEntry(entries[j], o, from, to)
  }

  /** Every row comes from one of the entries. */
  ghost predicate Produced(entries: seq<Entry>, rows: seq<Occurrence>, from: Date, to: Date)
  {
    forall k :: 0 <= k < |rows| ==> FromSome(entries, rows[k], from, to)
  }

  /** What a successful `GenerateDates` for the entry returns: the dates
    * specified by its periodicity inside the period, from the aligned
    * first date to where the loop stops. */
  ghost predicate DatesOf(e: Entry, from: Date, to: Date, ds: seq<Date>)
  {
    var p, lo := e.periodicity, Max(e.start, from);
    Emitted(p, ds, lo, to, e.end)
    && (ds != [] ==> FirstAligned(p, e.start, lo, ds[0]))
    && (ds != [] && !p.Unknown? && Advance(p, ds[|ds| - 1]).Some? ==>
          Before(to, Advance(p, ds[|ds| - 1]).value) || !WithinEnd(e.end, Advance(p, ds[|ds| - 1]).value))
    && (ds == [] ==> NoneAligned(p, e.start, lo, to, e.end))
    && (Feb29Yearly(p, e.start) ==> ds == [])
  }

  /** Generating the entry's dates raises: an annual 29 February entry whose
    * first aligned date is inside the period. */
  ghost predicate Fails(e: Entry, from: Date, to: Date)
  {
    Feb29Yearly(e.periodicity, e.start) && AlignsWithin(e.periodicity, e.start, Max(e.start, from), to)
  }

  /** One row per date, carrying the entry's data and id. */
  function RowsFor(e: Entry, ds: seq<Date>): (os: seq<Occurrence>)
    ensures |os| == |ds|
    ensures forall k :: 0 <= k < |ds| ==> os[k].date == ds[k] && os[k].entryId == e.id
  {
    seq(|ds|, k requires 0 <= k < |ds| => Occurrence(ds[k], e.desc, e.value, e.account, e.id))
  }

  lemma ExpandedNil(entries: seq<Entry>, from: Date, to: Date)
    ensures Expanded(entries[..0], [], from, to)
  {
    assert entries[..0] == [];
  }

  lemma FailsMeans(e: Entry, from: Date, to: Date)
    ensures Fails(e, from, to) <==> Feb29Yearly(e.periodicity, e.start) && AlignsWithin(e.periodicity, e.start, Max(e.start, from), to)
  {
  }

  /** An annual entry from 29 February 2024 fails over 2024, where its first
    * date is in the period, and over March 2024 to 2028 with an end date of
    * June 2024, where the next 29 February is past the end date but not past
    * the period. */
  lemma LeapStartFails()
    ensures Fails(Entry(1, "Renda", 10.0, Yearly, Date(2024, 2, 29), None, None, true), Date(2024, 1, 1), Date(2024, 12, 31))
    ensures Fails(Entry(1, "Renda", 10.0, Yearly, Date(2024, 2, 29), Some(Date(2024, 6, 30)), None, true),
                  Date(2024, 3, 1), Date(2028, 12, 31))
  {
    var start := Date(2024, 2, 29);
    assert Max(start, Date(2024, 1, 1)) == start && Valid(start);
    assert FirstAligned(Yearly, start, start, start);
    var d := Date(2028, 2, 29);
    assert FirstAligned(Yearly, start, Date(2024, 3, 1), d);
  }

  /** The rows an entry contributes to a period: those of its dates when
    * it is active and overlaps the period, none otherwise. */
  ghost predicate EntryRows(e: Entry, os: seq<Occurrence>, from: Date, to: Date)
  {
    if e.active && Overlaps(e, from, to) then exists ds :: DatesOf(e, from, to, ds) && os == RowsFor(e, ds)
    else os == []
  }

  /** `rows` is the concatenation, entry by entry and in order, of the rows
    * each entry contributes. */
  ghost predicate Expanded(entries: seq<Entry>, rows: seq<Occurrence>, from: Date, to: Date)
    decreases |entries|
  {
    if entries == [] then rows == []
    else
      exists n :: 0 <= n <= |rows| && Expanded(entries[..|entries| - 1], rows[..n], from, to)
                  && EntryRows(entries[|entries| - 1], rows[n..], from, to)
  }

  lemma ExpandedSnoc(entries: seq<Entry>, i: nat, rows: seq<Occurrence>, os: seq<Occurrence>, from: Date, to: Date)
    requires i < |entries| && Expanded(entries[..i], rows, from, to) && EntryRows(entries[i], os, from, to)
    ensures Expanded(entries[..i + 1], rows + os, from, to)
  {
    var es := entries[..i + 1];
    assert es[..|es| - 1] == entries[..i] && es[|es| - 1] == entries[i];
    var all := rows + os;
    assert all[..|rows|] == rows && all[|rows|..] == os;
  }

  /** The first aligned date is unique. */
  lemma FirstAlignedUnique(p: Periodicity, start: Date, lo: Date, a: Date, b: Date)
    requires Valid(a) && Valid(b) && AtMost(lo, a) && AtMost(lo, b)
    requires FirstAligned(p, start, lo, a) && FirstAligned(p, start, lo, b)
    ensures a == b
  {
    if Before(a, b) {
      assert false;
    } else if Before(b, a) {
      assert false;
    }
  }

  /** The first date of a run is in the period and stops the alignment loop. */
  lemma DatesOfFirst(e: Entry, from: Date, to: Date, ds: seq<Date>)
    requires DatesOf(e, from, to, ds) && ds != []
    ensures var lo := Max(e.start, from);
            Valid(ds[0]) && AtMost(lo, ds[0]) && AtMost(ds[0], to) && WithinEnd(e.end, ds[0])
            && FirstAligned(e.periodicity, e.start, lo, ds[0])
  {
  }

  /** Each later date of a run is one step after the previous one and in the period. */
  lemma DatesOfNext(e: Entry, from: Date, to: Date, ds: seq<Date>, i: nat)
    requires DatesOf(e, from, to, ds) && 0 < i < |ds|
    ensures !e.periodicity.Unknown? && Advance(e.periodicity, ds[i - 1]) == Some(ds[i])
    ensures AtMost(ds[i], to) && WithinEnd(e.end, ds[i])
  {
  }

  /** A run ends only where the next step leaves the period or passes the end date. */
  lemma DatesOfLast(e: Entry, from: Date, to: Date, ds: seq<Date>, d: Date)
    requires DatesOf(e, from, to, ds) && ds != [] && !e.periodicity.Unknown?
    requires Advance(e.periodicity, ds[|ds| - 1]) == Some(d)
    ensures Before(to, d) || !WithinEnd(e.end, d)
  {
  }

  /** An empty run means no date of the period stops the alignment loop. */
  lemma DatesOfNone(e: Entry, from: Date, to: Date, d: Date)
    requires DatesOf(e, from, to, [])
    requires Valid(d) && AtMost(Max(e.start, from), d) && AtMost(d, to) && WithinEnd(e.end, d)
    ensures Searching(e.periodicity, e.start, d)
  {
  }

  lemma NotBoth(to: Date, d: Date)
    requires AtMost(d, to)
    ensures !Before(to, d)
  {
  }

  /** The dates of an entry are determined by the entry and the period. */
  lemma DatesOfUnique(e: Entry, from: Date, to: Date, ds: seq<Date>, es: seq<Date>)
    requires DatesOf(e, from, to, ds) && DatesOf(e, from, to, es)
    ensures ds == es
  {
    hide DatesOf;
    var p, lo := e.periodicity, Max(e.start, from);
    if ds == [] && es != [] {
      DatesOfFirst(e, from, to, es);
      DatesOfNone(e, from, to, es[0]);
      assert false;
    } else if ds != [] && es == [] {
      DatesOfFirst(e, from, to, ds);
      DatesOfNone(e, from, to, ds[0]);
      assert false;
    } else if ds != [] {
      DatesOfFirst(e, from, to, ds);
      DatesOfFirst(e, from, to, es);
      FirstAlignedUnique(p, e.start, lo, ds[0], es[0]);
      var n := if |ds| < |es| then |ds| else |es|;
      var i := 1;
      while i < n
        invariant 1 <= i <= n && ds[..i] == es[..i]
      {
        assert ds[i - 1] == ds[..i][i - 1] == es[..i][i - 1] == es[i - 1];
        DatesOfNext(e, from, to, ds, i);
        DatesOfNext(e, from, to, es, i);
        assert ds[..i + 1] == ds[..i] + [ds[i]] && es[..i + 1] == es[..i] + [es[i]];
        i := i + 1;
      }
      if |ds| < |es| {
        assert ds[n - 1] == ds[..n][n - 1] == es[..n][n - 1] == es[n - 1];
        DatesOfNext(e, from, to, es, n);
        DatesOfLast(e, from, to, ds, es[n]);
        NotBoth(to, es[n]);
        assert false;
      } else if |es| < |ds| {
        assert es[n - 1] == es[..n][n - 1] == ds[..n][n - 1] == ds[n - 1];
        DatesOfNext(e, from, to, ds, n);
        DatesOfLast(e, from, to, es, ds[n]);
        NotBoth(to, ds[n]);
        assert false;
      } else {
        assert ds == ds[..n] && es == es[..n];
      }
    }
  }

  lemma EntryRowsUnique(e: Entry, os: seq<Occurrence>, ps: seq<Occurrence>, from: Date, to: Date)
    requires EntryRows(e, os, from, to) && EntryRows(e, ps, from, to)
    ensures os == ps
  {
    if e.active && Overlaps(e, from, to) {
      var ds :| DatesOf(e, from, to, ds) && os == RowsFor(e, ds);
      var es :| DatesOf(e, from, to, es) && ps == RowsFor(e, es);
      DatesOfUnique(e, from, to, ds, es);
    }
  }

  /** The rows of a period are determined by the entries: `Process`'s
    * successful result is the only sequence that satisfies its contract. */
  lemma {:induction false} ExpandedUnique(entries: seq<Entry>, rows: seq<Occurrence>, other: seq<Occurrence>,
                                          from: Date, to: Date)
    requires Expanded(entries, rows, from, to) && Expanded(entries, other, from, to)
    ensures rows == other
    decreases |entries|
  {
    hide EntryRows, DatesOf, RowsFor;
    if entries != [] {
      var init, last := entries[..|entries| - 1], entries[|entries| - 1];
      var n :| 0 <= n <= |rows| && Expanded(init, rows[..n], from, to) && EntryRows(last, rows[n..], from, to);
      var m :| 0 <= m <= |other| && Expanded(init, other[..m], from, to) && EntryRows(last, other[m..], from, to);
      ExpandedUnique(init, rows[..n], other[..m], from, to);
      EntryRowsUnique(last, rows[n..], other[m..], from, to);
      assert rows == rows[..n] + rows[n..] && other == other[..m] + other[m..];
    }
  }

  /** Every row of the expansion comes from an entry: it carries the data
    * of an active entry overlapping the period and a date inside both. */
  lemma {:induction false} ExpandedProduced(entries: seq<Entry>, rows: seq<Occurrence>, from: Date, to: Date)
    requires Expanded(entries, rows, from, to)
    ensures Produced(entries, rows, from, to)
    decreases |entries|
  {
    if entries != [] {
      var init, last := entries[..|entries| - 1], entries[|entries| - 1];
      var n :| 0 <= n <= |rows| && Expanded(init, rows[..n], from, to) && EntryRows(last, rows[n..], from, to);
      ExpandedProduced(init, rows[..n], from, to);
      forall k | 0 <= k < |rows| ensures FromSome(entries, rows[k], from, to) {
        if k < n {
          assert rows[k] == rows[..n][k];
          var j :| 0 <= j < |init| && FromEntry(init[j], rows[..n][k], from, to);
          assert init[j] == entries[j];
        } else {
          assert rows[k] == rows[n..][k - n];
          var ds :| DatesOf(last, from, to, ds) && rows[n..] == RowsFor(last, ds);
          assert rows[k].date == ds[k - n];
          assert FromEntry(entries[|entries| - 1], rows[k], from, to);
        }
      }
    }
  }

  /** Every date of an active entry overlapping the period appears, as a
    * row of that entry, among the rows. */
  lemma {:induction false} ExpandedComplete(entries: seq<Entry>, rows: seq<Occurrence>, from: Date, to: Date,
                                            j: nat, ds: seq<Date>, k: nat)
    requires Expanded(entries, rows, from, to)
    requires j < |entries| && entries[j].active && Overlaps(entries[j], from, to)
    requires DatesOf(entries[j], from, to, ds) && k < |ds|
    ensures RowsFor(entries[j], ds)[k] in rows
    decreases |entries|
  {
    hide DatesOf, RowsFor, Overlaps;
    var init, last := entries[..|entries| - 1], entries[|entries| - 1];
    var n :| 0 <= n <= |rows| && Expanded(init, rows[..n], from, to) && EntryRows(last, rows[n..], from, to);
    if j < |init| {
      assert init[j] == entries[j];
      ExpandedComplete(init, rows[..n], from, to, j, ds, k);
      assert rows[..n] <= rows;
    } else {
      var es :| DatesOf(last, from, to, es) && rows[n..] == RowsFor(last, es);
      DatesOfUnique(last, from, to, ds, es);
      assert rows[n..][k] == rows[n + k];
    }
  }

  function KeepsOthers(id: int): Entry -> bool
  {
    (e: Entry) => e.id != id
  }

  class Manager {
    var entries: seq<Entry>

    constructor (loaded: seq<Entry>)
      ensures entries == loaded
    {
      entries := loaded;
    }

    /** `gerar_id`: the least positive integer not used as an id. */
    method FreshId() returns (id: int)
      ensures id >= 1 && id !in Ids(entries)
      ensures forall k :: 1 <= k < id ==> k in Ids(entries)
    {
      var ids := Ids(entries);
      id := 1;
      while id in ids
        invariant id >= 1 && forall k :: 1 <= k < id ==> k in ids
        decreases set x | x in ids && x >= id
      {
        ghost var later, rest := set x | x in ids && x >= id, set x | x in ids && x >= id + 1;
        assert rest <= later && id in later && id !in rest;
        id := id + 1;
      }
    }

    /** `adicionar_lancamento`: appends one active entry under a fresh id;
      * `saved` is the outcome of writing the file. */
    method Add(desc: string, value: real, periodicity: Periodicity, start: Date, end: Option<Date>,
               account: Option<string>, saved: bool) returns (ok: bool)
      modifies this
      ensures |entries| == |old(entries)| + 1 && entries[..|old(entries)|] == old(entries)
      ensures var n := entries[|old(entries)|];
        n == Entry(n.id, desc, value, periodicity, start, end, account, true)
        && n.id >= 1 && n.id !in Ids(old(entries)) && forall k :: 1 <= k < n.id ==> k in Ids(old(entries))
      ensures ok == saved
    {
      var id := FreshId();
      entries := entries + [Entry(id, desc, value, periodicity, start, end, account, true)];
      assert entries[..|old(entries)|] == old(entries);
      ok := saved;
    }

    /** `editar_lancamento`: the first entry with the id takes the changes;
      * without such an entry nothing changes and the result is false. */
    method Edit(id: int, cs: seq<Change>, saved: bool) returns (ok: bool)
      modifies this
      ensures var i := IndexOf(old(entries), id);
        if i < |old(entries)| then entries == old(entries)[i := ApplyAll(old(entries)[i], cs)] && ok == saved
        else entries == old(entries) && !ok
    {
      for i := 0 to |entries|
        invariant forall k :: 0 <= k < i ==> entries[k].id != id
        invariant entries == old(entries)
      {
        if entries[i].id == id {
          var e := entries[i];
          for k := 0 to |cs|
            invariant ApplyAll(e, cs[k..]) == ApplyAll(entries[i], cs)
          {
            assert cs[k..][1..] == cs[k + 1..];
            e := Apply(e, cs[k]);
          }
          assert cs[|cs|..] == [];
          IndexOfFirst(entries, id, i);
          entries := entries[i := e];
          return saved;
        }
      }
      IndexOfNone(entries, id);
      ok := false;
    }

    /** `remover_lancamento`: keeps exactly the entries with another id, in order. */
    method Remove(id: int, saved: bool) returns (ok: bool)
      modifies this
      ensures entries == Filter(old(entries), KeepsOthers(id)) && ok == saved
    {
      entries := Filter(entries, KeepsOthers(id));
      ok := saved;
    }

    /** `processar_lancamentos`: the rows of every active entry that
      * overlaps the period, entry by entry. */
    method Process(from: Date, to: Date) returns (r: Result<seq<Occurrence>>)
      requires Valid(from) && Valid(to)
      requires forall j :: 0 <= j < |entries| ==> WellFormed(entries[j])
      requires forall j :: 0 <= j < |entries| && entries[j].active && Overlaps(entries[j], from, to) ==>
                 Terminates(entries[j], from, to)
      ensures r.Ok? ==> Expanded(entries, r.value, from, to) && Produced(entries, r.value, from, to)
      ensures r.Err? ==> exists j :: 0 <= j < |entries| && (entries[j].active && entries[j].periodicity == Yearly
                                    && entries[j].start.month == 2 && entries[j].start.day == 29)
      ensures r.Err? <==> exists j :: 0 <= j < |entries| && entries[j].active && Overlaps(entries[j], from, to)
                                       && Fails(entries[j], from, to)
    {
      hide Expanded, Produced, Fails, AlignsWithin, FirstAligned, NoneAligned, Emitted;
      var rows: seq<Occurrence> := [];
      var i := 0;
      ExpandedNil(entries, from, to);
      while i < |entries|
        invariant 0 <= i <= |entries|
        invariant Expanded(entries[..i], rows, from, to)
        invariant forall j :: 0 <= j < i && entries[j].active && Overlaps(entries[j], from, to) ==> !Fails(entries[j], from, to)
      {
        var e := entries[i];
        var os: seq<Occurrence> := [];
        if e.active && !Before(to, e.start) && !(e.end.Some? && Before(e.end.value, from)) {
          assert Overlaps(e, from, to) && Terminates(e, from, to);
          var dates := GenerateDates(e.periodicity, e.start, e.end, from, to);
          FailsMeans(e, from, to);
          if dates.Err? {
            assert entries[i].periodicity == Yearly && entries[i].start.month == 2 && entries[i].start.day == 29;
            assert Fails(entries[i], from, to);
            return Err(dates.error);
          }
          var ds := dates.value;
          assert DatesOf(e, from, to, ds);
          for k := 0 to |ds|
            invariant os == RowsFor(e, ds[..k])
          {
            assert ds[..k + 1] == ds[..k] + [ds[k]];
            os := os + [Occurrence(ds[k], e.desc, e.value, e.account, e.id)];
          }
          assert ds[..|ds|] == ds;
        }
        ExpandedSnoc(entries, i, rows, os, from, to);
        rows := rows + os;
        i := i + 1;
      }
      assert entries[..i] == entries;
      ExpandedProduced(entries, rows, from, to);
      r := Ok(rows);
    }
  }

  lemma {:induction false} IndexOfFirst(entries: seq<Entry>, id: int, i: nat)
    requires i < |entries| && entries[i].id == id
    requires forall k :: 0 <= k < i ==> entries[k].id != id
    ensures IndexOf(entries, id) == i
  {
    if i > 0 {
      IndexOfFirst(entries[1..], id, i - 1);
    }
  }

  lemma IndexOfNone(entries: seq<Entry>, id: int)
    requires forall k :: 0 <= k < |entries| ==> entries[k].id != id
    ensures IndexOf(entries, id) == |entries|
  {
  }
}
