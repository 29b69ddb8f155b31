// The projected cash flow of fluxo_caixa_projetado.py (`FluxoCaixaProjetado`):
// the list of recurring entries with its add and remove operations, and the
// forecast built from them over a window of days: revenues and expenses per
// day, the running balance seeded with the cash accounts' balance, and the
// monthly summary.
module CashForecast {
  import opened Util
  import opened Calendar
  import opened Ledger
  import opened ForecastDates

  /** One recurring entry (a dict of `lancamentos_recorrentes`); `kind` is
    * "receita" or "despesa". */
  datatype Recurring = Recurring(id: int, desc: string, value: real, kind: string, frequency: string,
                                 start: Date, end: Option<Date>, debitAccount: Option<string>,
                                 creditAccount: Option<string>, category: Option<string>)

  /** The checks of `adicionar_lancamento_recorrente`. */
  predicate Acceptable(desc: string, value: real, kind: string, frequency: string)
  {
    desc != "" && value > 0.0 && (kind == "receita" || kind == "despesa")
    && frequency in {"diario", "semanal", "mensal", "trimestral", "anual"}
  }

  predicate DatesValid(rs: seq<Recurring>)
  {
    forall k :: 0 <= k < |rs| ==> Valid(rs[k].start) && (rs[k].end.Some? ==> Valid(rs[k].end.value))
  }

  predicate DistinctIds(rs: seq<Recurring>)
  {
    forall i, j :: 0 <= i < j < |rs| ==> rs[i].id != rs[j].id
  }

  // ---------------------------------------------------------------------
  // Ids

  /** The largest id in use, or 0. */
  function MaxId(rs: seq<Recurring>): (m: int)
    ensures m >= 0
    ensures forall k :: 0 <= k < |rs| ==> rs[k].id <= m
    ensures m == 0 || exists k :: 0 <= k < |rs| && rs[k].id == m
  {
    if rs == [] then 0
    else
      var rest := MaxId(rs[1..]);
      if rs[0].id > rest then rs[0].id else rest
  }

  /** The id a new entry receives: one more than any id in use (see the
    * finding on `AppendAsWritten`). */
  function NextId(rs: seq<Recurring>): (id: int)
    ensures id >= 1 && forall k :: 0 <= k < |rs| ==> rs[k].id != id
  {
    MaxId(rs) + 1
  }

  /** Index of the first entry with `id`, or `|rs|` when there is none. */
  function FirstWithId(rs: seq<Recurring>, id: int): (k: nat)
    ensures k <= |rs|
    ensures k < |rs| ==> rs[k].id == id
    ensures forall j :: 0 <= j < k ==> rs[j].id != id
  {
    if rs == [] then 0
    else if rs[0].id == id then 0
    else 1 + FirstWithId(rs[1..], id)
  }

  /** `remover_lancamento_recorrente` on the list: drops the first entry with
    * `id`, if any. */
  function RemoveFirst(rs: seq<Recurring>, id: int): seq<Recurring>
  {
    var k := FirstWithId(rs, id);
    if k < |rs| then rs[..k] + rs[k + 1..] else rs
  }

  /** With distinct ids, removing the first entry with `id` keeps exactly the
    * entries with another id, in their order. */
  lemma {:induction false} RemoveFirstKeepsOthers(rs: seq<Recurring>, id: int)
    requires DistinctIds(rs)
    ensures RemoveFirst(rs, id) == Filter(rs, (r: Recurring) => r.id != id)
  {
    var other := (r: Recurring) => r.id != id;
    if rs != [] {
      FilterCons(rs, other);
      hide Filter, FirstWithId, RemoveFirst;
      if rs[0].id == id {
        RemovedHead(rs, id);
      } else {
        assert DistinctIds(rs[1..]);
        RemoveFirstKeepsOthers(rs[1..], id);
        RemoveFirstSkipsHead(rs, id);
      }
    }
  }

  lemma RemovedHead(rs: seq<Recurring>, id: int)
    requires DistinctIds(rs) && rs != [] && rs[0].id == id
    ensures RemoveFirst(rs, id) == rs[1..]
    ensures Filter(rs[1..], (r: Recurring) => r.id != id) == rs[1..]
  {
    assert rs[..0] + rs[1..] == rs[1..];
    forall j | 0 <= j < |rs[1..]| ensures rs[1..][j].id != id {
      assert rs[1..][j] == rs[j + 1];
    }
    FilterAll(rs[1..], (r: Recurring) => r.id != id);
  }

  lemma RemoveFirstSkipsHead(rs: seq<Recurring>, id: int)
    requires rs != [] && rs[0].id != id
    ensures RemoveFirst(rs, id) == [rs[0]] + RemoveFirst(rs[1..], id)
  {
    var k := FirstWithId(rs[1..], id);
    assert FirstWithId(rs, id) == k + 1;
    if k < |rs[1..]| {
      assert rs[..k + 1] + rs[k + 2..] == [rs[0]] + (rs[1..][..k] + rs[1..][k + 1..]);
    }
  }

  /** A fresh id keeps the ids distinct. */
  lemma AddKeepsIdsDistinct(rs: seq<Recurring>, r: Recurring)
    requires DistinctIds(rs)
    ensures DistinctIds(rs + [r.(id := NextId(rs))])
  {
    var s := rs + [r.(id := NextId(rs))];
    forall i, j | 0 <= i < j < |s| ensures s[i].id != s[j].id {
      if j == |rs| {
        assert s[i] == rs[i];
      } else {
        assert s[i] == rs[i] && s[j] == rs[j];
      }
    }
  }

  // ---------------------------------------------------------------------
  // Finding: ids from the list's length collide after a removal

  /** The append of `adicionar_lancamento_recorrente` as written: the new id
    * is `len(self.lancamentos_recorrentes) + 1`. */
  function AppendAsWritten(rs: seq<Recurring>, r: Recurring): seq<Recurring>
  {
    rs + [r.(id := |rs| + 1)]
  }

  /** Add two entries (ids 1 and 2), remove the first, add a third: as
    * written it also gets id 2, so two entries share an id (and removing 2
    * then removes only the older one). The corrected id is 3. */
  lemma AsWrittenIdsCollide(a: Recurring, b: Recurring, c: Recurring)
    ensures var two := AppendAsWritten(AppendAsWritten([], a), b);
      var one := RemoveFirst(two, 1);
      DistinctIds(one) && !DistinctIds(AppendAsWritten(one, c))
      && DistinctIds(one + [c.(id := NextId(one))]) && NextId(one) == 3
  {
    var two := AppendAsWritten(AppendAsWritten([], a), b);
    assert two[0].id == 1 && two[1].id == 2;
    assert FirstWithId(two, 1) == 0;
    var one := RemoveFirst(two, 1);
    assert one == [b.(id := 2)];
    assert MaxId(one) == 2 by {
      assert one[1..] == [];
    }
    var three := AppendAsWritten(one, c);
    assert three[0].id == 2 && three[1].id == 2;
    AddKeepsIdsDistinct(one, c);
  }

  // ---------------------------------------------------------------------
  // Recurring entries in the forecast (`_incluir_lancamentos_recorrentes`)

  datatype Projection = Projection(revenues: map<Date, real>, expenses: map<Date, real>, failed: bool)

  /** `m[d] += v` for every date `d` of `ds` that is already a key of `m`. */
  function AddAll(m: map<Date, real>, ds: seq<Date>, v: real): map<Date, real>
  {
    if ds == [] then m
    else AddAll(if ds[0] in m then m[ds[0] := m[ds[0]] + v] else m, ds[1..], v)
  }

  /** How many times `d` occurs in `ds`. */
  function Count(ds: seq<Date>, d: Date): nat
  {
    if ds == [] then 0 else (if ds[0] == d then 1 else 0) + Count(ds[1..], d)
  }

  /** No key is added, and the value at a key grows by `v` per occurrence of
    * that day. */
  lemma {:induction false} AddAllEffect(m: map<Date, real>, ds: seq<Date>, v: real, d: Date)
    ensures AddAll(m, ds, v).Keys == m.Keys
    ensures d in m ==> AddAll(m, ds, v)[d] == m[d] + (Count(ds, d) as real) * v
  {
    if ds != [] {
      var m1 := if ds[0] in m then m[ds[0] := m[ds[0]] + v] else m;
      AddAllEffect(m1, ds[1..], v, d);
      var c := Count(ds[1..], d) as real;
      assert (c + 1.0) * v == c * v + v;
    }
  }

  /** An entry can only occur in the window when it starts by `to` and does
    * not end before `from`. */
  predicate MeetsWindow(r: Recurring, from: Date, to: Date)
  {
    !Before(to, r.start) && !(r.end.Some? && Before(r.end.value, from))
  }

  function EntryDates(r: Recurring, from: Date, to: Date): seq<Date>
    requires Valid(r.start) && (r.end.Some? ==> Valid(r.end.value)) && Valid(from) && Valid(to)
  {
    Occurrences(r.start, r.end.GetOr(to), r.frequency, from, to)
  }

  /** One entry: its value goes to the revenues or the expenses by kind; an
    * unknown kind fails (the source's `KeyError`) once there is a date to
    * book. */
  function Include(p: Projection, r: Recurring, from: Date, to: Date): Projection
    requires Valid(r.start) && (r.end.Some? ==> Valid(r.end.value)) && Valid(from) && Valid(to)
  {
    if !MeetsWindow(r, from, to) then p
    else
      var ds := EntryDates(r, from, to);
      if ds == [] then p
      else if r.kind == "receita" then p.(revenues := AddAll(p.revenues, ds, r.value))
      else if r.kind == "despesa" then p.(expenses := AddAll(p.expenses, ds, r.value))
      else p.(failed := true)
  }

  /** The entries in order, stopping at the first failure. */
  function Project(p: Projection, rs: seq<Recurring>, from: Date, to: Date): Projection
    requires DatesValid(rs) && Valid(from) && Valid(to)
    decreases |rs|
  {
    if rs == [] || p.failed then p
    else Project(Include(p, rs[0], from, to), rs[1..], from, to)
  }

  /** For a known kind, including an entry is adding its dates to the map
    * the kind names (adding no dates changes nothing). */
  lemma IncludeKnownKind(p: Projection, r: Recurring, from: Date, to: Date)
    requires Valid(r.start) && (r.end.Some? ==> Valid(r.end.value)) && Valid(from) && Valid(to)
    requires MeetsWindow(r, from, to) && (r.kind == "receita" || r.kind == "despesa")
    ensures var ds := EntryDates(r, from, to);
      Include(p, r, from, to)
      == p.(revenues := if r.kind == "receita" then AddAll(p.revenues, ds, r.value) else p.revenues,
            expenses := if r.kind == "despesa" then AddAll(p.expenses, ds, r.value) else p.expenses)
  {
    hide Occurrences;
    var ds := EntryDates(r, from, to);
    if ds == [] {
      assert AddAll(p.revenues, ds, r.value) == p.revenues;
      assert AddAll(p.expenses, ds, r.value) == p.expenses;
    }
  }

  /** Including an entry books its value only on dates already in the
    * forecast, under the map its kind names, once per occurrence. */
  lemma IncludeBooksByKind(p: Projection, r: Recurring, from: Date, to: Date, d: Date)
    requires Valid(r.start) && (r.end.Some? ==> Valid(r.end.value)) && Valid(from) && Valid(to)
    requires MeetsWindow(r, from, to) && (r.kind == "receita" || r.kind == "despesa")
    ensures Include(p, r, from, to).failed == p.failed
    ensures var q := Include(p, r, from, to);
      q.revenues.Keys == p.revenues.Keys && q.expenses.Keys == p.expenses.Keys
    ensures var q := Include(p, r, from, to);
      var n := (Count(EntryDates(r, from, to), d) as real) * r.value;
      d in p.revenues ==> q.revenues[d] == p.revenues[d] + (if r.kind == "receita" then n else 0.0)
    ensures var q := Include(p, r, from, to);
      var n := (Count(EntryDates(r, from, to), d) as real) * r.value;
      d in p.expenses ==> q.expenses[d] == p.expenses[d] + (if r.kind == "despesa" then n else 0.0)
  {
    hide Include, EntryDates, AddAll, Count;
    IncludeKnownKind(p, r, from, to);
    var ds := EntryDates(r, from, to);
    AddAllEffect(p.revenues, ds, r.value, d);
    AddAllEffect(p.expenses, ds, r.value, d);
  }

  /** Including an entry never adds a day to either map. */
  lemma IncludeKeepsDays(p: Projection, r: Recurring, from: Date, to: Date)
    requires Valid(r.start) && (r.end.Some? ==> Valid(r.end.value)) && Valid(from) && Valid(to)
    ensures Include(p, r, from, to).revenues.Keys == p.revenues.Keys
    ensures Include(p, r, from, to).expenses.Keys == p.expenses.Keys
  {
    if MeetsWindow(r, from, to) {
      var ds := EntryDates(r, from, to);
      hide Occurrences, AddAll;
      AddAllEffect(p.revenues, ds, r.value, r.start);
      AddAllEffect(p.expenses, ds, r.value, r.start);
    }
  }

  /** The projection never adds a day to either map. */
  lemma {:induction false} ProjectKeepsDays(p: Projection, rs: seq<Recurring>, from: Date, to: Date)
    requires DatesValid(rs) && Valid(from) && Valid(to)
    ensures Project(p, rs, from, to).revenues.Keys == p.revenues.Keys
    ensures Project(p, rs, from, to).expenses.Keys == p.expenses.Keys
    decreases |rs|
  {
    if rs != [] && !p.failed {
      hide Include;
      IncludeKeepsDays(p, rs[0], from, to);
      ProjectKeepsDays(Include(p, rs[0], from, to), rs[1..], from, to);
    }
  }

  /** Entries that start after the window or end before it contribute
    * nothing: the projection is that of the other entries alone. */
  lemma {:induction false} OutsideEntriesIgnored(p: Projection, rs: seq<Recurring>, from: Date, to: Date)
    requires DatesValid(rs) && Valid(from) && Valid(to)
    ensures DatesValid(Filter(rs, (r: Recurring) => MeetsWindow(r, from, to)))
    ensures Project(p, rs, from, to) == Project(p, Filter(rs, (r: Recurring) => MeetsWindow(r, from, to)), from, to)
    decreases |rs|
  {
    var inside := (r: Recurring) => MeetsWindow(r, from, to);
    var kept := Filter(rs, inside);
    assert DatesValid(kept) by {
      forall k | 0 <= k < |kept| ensures Valid(kept[k].start) && (kept[k].end.Some? ==> Valid(kept[k].end.value)) {
        var j :| 0 <= j < |rs| && rs[j] == kept[k];
      }
    }
    if rs != [] {
      OutsideEntriesIgnored(Include(p, rs[0], from, to), rs[1..], from, to);
      OutsideEntriesIgnored(p, rs[1..], from, to);
      if inside(rs[0]) {
        assert kept == [rs[0]] + Filter(rs[1..], inside);
        assert kept[1..] == Filter(rs[1..], inside);
      } else {
        assert kept == Filter(rs[1..], inside);
      }
    }
  }

  // ---------------------------------------------------------------------
  // Balances

  /** Cash and bank accounts: those whose code starts with '4'. */
  predicate IsCashAccount(account: string)
  {
    |account| > 0 && account[0] == '4'
  }

  /** `_obter_saldo_atual`: debit minus credit over the cash accounts'
    * movements of every ledger entry. */
  function CashBalance(es: seq<Entry>): real
  {
    NetWhere(Movements(es), IsCashAccount)
  }

  lemma {:induction false} MovementsAppend(es: seq<Entry>, e: Entry)
    ensures Movements(es + [e]) == Movements(es) + e.movements
  {
    if es == [] {
      assert [e][1..] == [];
    } else {
      assert (es + [e])[1..] == es[1..] + [e];
      MovementsAppend(es[1..], e);
    }
  }

  /** Booking one more entry moves the cash balance by exactly that entry's
    * cash movements. */
  lemma CashBalanceAppend(es: seq<Entry>, e: Entry)
    ensures CashBalance(es + [e]) == CashBalance(es) + NetWhere(e.movements, IsCashAccount)
  {
    MovementsAppend(es, e);
    NetWhereAppend(Movements(es), e.movements, IsCashAccount);
  }

  /** `_obter_saldo_atual` with its two loops. */
  method CurrentBalance(es: seq<Entry>) returns (saldo: real)
    ensures saldo == CashBalance(es)
  {
    saldo := 0.0;
    if es == [] {
      return;
    }
    for i := 0 to |es|
      invariant saldo + NetWhere(Movements(es[i..]), IsCashAccount) == CashBalance(es)
    {
      MovementsStep(es, i);
      NetWhereAppend(es[i].movements, Movements(es[i + 1..]), IsCashAccount);
      var ms := es[i].movements;
      for j := 0 to |ms|
        invariant saldo + NetWhere(ms[j..], IsCashAccount) + NetWhere(Movements(es[i + 1..]), IsCashAccount)
                  == CashBalance(es)
      {
        assert ms[j..][1..] == ms[j + 1..];
        if IsCashAccount(ms[j].account) {
          saldo := saldo + (ms[j].debit - ms[j].credit);
        }
      }
    }
    assert es[|es|..] == [];
  }

  /** The running balance at the end of `ds`: each day adds its revenue and
    * subtracts its expense. */
  function Closing(seed: real, ds: seq<Date>, revs: map<Date, real>, exps: map<Date, real>): real
    requires forall k :: 0 <= k < |ds| ==> ds[k] in revs && ds[k] in exps
  {
    if ds == [] then seed
    else
      var d := ds[|ds| - 1];
      Closing(seed, ds[..|ds| - 1], revs, exps) + revs[d] - exps[d]
  }

  /** The net flow of `ds`, summed from the front. */
  function NetFlow(ds: seq<Date>, revs: map<Date, real>, exps: map<Date, real>): real
    requires forall k :: 0 <= k < |ds| ==> ds[k] in revs && ds[k] in exps
  {
    if ds == [] then 0.0 else revs[ds[0]] - exps[ds[0]] + NetFlow(ds[1..], revs, exps)
  }

  lemma {:induction false} NetFlowSnoc(ds: seq<Date>, revs: map<Date, real>, exps: map<Date, real>)
    requires |ds| > 0 && forall k :: 0 <= k < |ds| ==> ds[k] in revs && ds[k] in exps
    ensures NetFlow(ds, revs, exps)
            == NetFlow(ds[..|ds| - 1], revs, exps) + revs[ds[|ds| - 1]] - exps[ds[|ds| - 1]]
  {
    if |ds| > 1 {
      assert ds[1..][..|ds| - 2] == ds[..|ds| - 1][1..];
      NetFlowSnoc(ds[1..], revs, exps);
    }
  }

  /** One more day adds that day's revenue and subtracts its expense. */
  lemma ClosingStep(seed: real, ds: seq<Date>, k: int, revs: map<Date, real>, exps: map<Date, real>)
    requires 0 <= k < |ds| && forall j :: 0 <= j < |ds| ==> ds[j] in revs && ds[j] in exps
    ensures Closing(seed, ds[..k + 1], revs, exps) == Closing(seed, ds[..k], revs, exps) + revs[ds[k]] - exps[ds[k]]
    ensures k == 0 ==> Closing(seed, ds[..k], revs, exps) == seed
  {
    assert ds[..k + 1][..k] == ds[..k];
  }

  /** The balance after the last day is the seed plus the net flow of every
    * day, whatever the order of summation. */
  lemma {:induction false} ClosingIsSeedPlusFlow(seed: real, ds: seq<Date>, revs: map<Date, real>, exps: map<Date, real>)
    requires forall k :: 0 <= k < |ds| ==> ds[k] in revs && ds[k] in exps
    ensures Closing(seed, ds, revs, exps) == seed + NetFlow(ds, revs, exps)
  {
    if ds != [] {
      ClosingIsSeedPlusFlow(seed, ds[..|ds| - 1], revs, exps);
      NetFlowSnoc(ds, revs, exps);
    }
  }

  // ---------------------------------------------------------------------
  // Monthly summary (`_agrupar_por_mes`)

  datatype MonthTotals = MonthTotals(revenues: real, expenses: real, balance: real)

  /** The '%m/%Y' key of a day, as (month, year). */
  function MonthOf(d: Date): (int, int) { (d.month, d.year) }

  /** The sum of `m` over the days of `ds` in month `key`. */
  function MonthSum(ds: seq<Date>, m: map<Date, real>, key: (int, int)): real
    requires forall k :: 0 <= k < |ds| ==> ds[k] in m
  {
    if ds == [] then 0.0
    else
      var d := ds[|ds| - 1];
      MonthSum(ds[..|ds| - 1], m, key) + (if MonthOf(d) == key then m[d] else 0.0)
  }

  function Months(ds: seq<Date>): set<(int, int)>
  {
    set k | 0 <= k < |ds| :: MonthOf(ds[k])
  }

  /** A month none of whose days is in `ds` sums to zero. */
  lemma {:induction false} MonthSumOutside(ds: seq<Date>, m: map<Date, real>, key: (int, int))
    requires forall k :: 0 <= k < |ds| ==> ds[k] in m
    requires key !in Months(ds)
    ensures MonthSum(ds, m, key) == 0.0
  {
    if ds != [] {
      var init := ds[..|ds| - 1];
      assert Months(init) <= Months(ds) by {
        forall x | x in Months(init) ensures x in Months(ds) {
          var k :| 0 <= k < |init| && MonthOf(init[k]) == x;
          assert ds[k] == init[k];
        }
      }
      assert MonthOf(ds[|ds| - 1]) in Months(ds);
      MonthSumOutside(init, m, key);
    }
  }

  /** One more day adds its value to its own month only. */
  lemma MonthSumStep(ds: seq<Date>, i: nat, m: map<Date, real>, key: (int, int))
    requires i < |ds| && forall k :: 0 <= k < |ds| ==> ds[k] in m
    ensures MonthSum(ds[..i + 1], m, key)
            == MonthSum(ds[..i], m, key) + (if MonthOf(ds[i]) == key then m[ds[i]] else 0.0)
  {
    assert ds[..i + 1][..i] == ds[..i];
  }

  lemma MonthsSnoc(ds: seq<Date>, i: nat)
    requires i < |ds|
    ensures Months(ds[..i + 1]) == Months(ds[..i]) + {MonthOf(ds[i])}
  {
    var pre, pre1 := ds[..i], ds[..i + 1];
    assert pre1[i] == ds[i];
    forall x | x in Months(pre1) ensures x in Months(pre) + {MonthOf(ds[i])} {
      var k :| 0 <= k < i + 1 && MonthOf(pre1[k]) == x;
      if k < i {
        assert pre1[k] == pre[k];
      }
    }
    forall x | x in Months(pre) ensures x in Months(pre1) {
      var k :| 0 <= k < i && MonthOf(pre[k]) == x;
      assert pre[k] == pre1[k];
    }
  }

  /** `summary` holds, for each month of `ds` and no other, the month's
    * sums and their difference. */
  predicate Summarizes(summary: map<(int, int), MonthTotals>, ds: seq<Date>,
                       revs: map<Date, real>, exps: map<Date, real>)
    requires forall k :: 0 <= k < |ds| ==> ds[k] in revs && ds[k] in exps
  {
    summary.Keys == Months(ds)
    && forall key :: key in summary ==>
         summary[key] == MonthTotals(MonthSum(ds, revs, key), MonthSum(ds, exps, key),
                                     MonthSum(ds, revs, key) - MonthSum(ds, exps, key))
  }

  lemma SummarizesMeans(summary: map<(int, int), MonthTotals>, ds: seq<Date>,
                        revs: map<Date, real>, exps: map<Date, real>)
    requires forall k :: 0 <= k < |ds| ==> ds[k] in revs && ds[k] in exps
    requires Summarizes(summary, ds, revs, exps)
    ensures summary.Keys == Months(ds)
    ensures forall key :: key in summary ==>
              summary[key] == MonthTotals(MonthSum(ds, revs, key), MonthSum(ds, exps, key),
                                          MonthSum(ds, revs, key) - MonthSum(ds, exps, key))
  {
  }

  /** The day's revenue and expense added to its month's totals, which open
    * at zero when the month is new. */
  function AddToMonth(summary: map<(int, int), MonthTotals>, d: Date, rev: real, exp: real)
    : map<(int, int), MonthTotals>
  {
    var key := MonthOf(d);
    var t := if key in summary then summary[key] else MonthTotals(0.0, 0.0, 0.0);
    summary[key := MonthTotals(t.revenues + rev, t.expenses + exp, t.balance + (rev - exp))]
  }

  /** Adding day `i` to its month's totals (opened at zero when new) keeps
    * the summary exact for the longer prefix. */
  lemma SummarizesStep(summary: map<(int, int), MonthTotals>, ds: seq<Date>, i: nat,
                       revs: map<Date, real>, exps: map<Date, real>)
    requires i < |ds| && forall k :: 0 <= k < |ds| ==> ds[k] in revs && ds[k] in exps
    requires Summarizes(summary, ds[..i], revs, exps)
    ensures Summarizes(AddToMonth(summary, ds[i], revs[ds[i]], exps[ds[i]]), ds[..i + 1], revs, exps)
  {
    hide MonthSum, Months;
    var d := ds[i];
    var key := MonthOf(d);
    MonthsSnoc(ds, i);
    if key !in summary {
      MonthSumOutside(ds[..i], revs, key);
      MonthSumOutside(ds[..i], exps, key);
    }
    var next := AddToMonth(summary, d, revs[d], exps[d]);
    forall other | other in next
      ensures next[other]
              == MonthTotals(MonthSum(ds[..i + 1], revs, other), MonthSum(ds[..i + 1], exps, other),
                             MonthSum(ds[..i + 1], revs, other) - MonthSum(ds[..i + 1], exps, other))
    {
      MonthSumStep(ds, i, revs, other);
      MonthSumStep(ds, i, exps, other);
    }
  }

  // ---------------------------------------------------------------------
  // The forecast object

  function Zeros(ds: seq<Date>): map<Date, real>
  {
    map d | d in ds :: 0.0
  }

  class Forecast {
    var recurring: seq<Recurring>
    /** The keys of the three maps, in the order they were inserted. */
    var days: seq<Date>
    var revenues: map<Date, real>
    var expenses: map<Date, real>
    var balance: map<Date, real>

    /** Every day of the forecast has a revenue and an expense. */
    predicate Covered()
      reads this
    {
      forall k :: 0 <= k < |days| ==> days[k] in revenues && days[k] in expenses && days[k] in balance
    }

    /** Starts from the entries read back from the saved file and an empty
      * forecast. */
    constructor (loaded: seq<Recurring>)
      ensures recurring == loaded && days == [] && revenues == map[] && expenses == map[] && balance == map[]
    {
      recurring, days, revenues, expenses, balance := loaded, [], map[], map[], map[];
    }

    /** `adicionar_lancamento_recorrente`: refuses an empty description, a
      * value that is not positive, an unknown kind or frequency; otherwise
      * appends the entry under a fresh id. */
    method AddRecurring(desc: string, value: real, kind: string, frequency: string, start: Date, end: Option<Date>,
                        debitAccount: Option<string>, creditAccount: Option<string>, category: Option<string>)
      returns (ok: bool)
      modifies this`recurring
      ensures ok == Acceptable(desc, value, kind, frequency)
      ensures recurring == if ok then old(recurring) + [Recurring(NextId(old(recurring)), desc, value, kind, frequency, start,
                                                                   end, debitAccount, creditAccount, category)]
                           else old(recurring)
      ensures DistinctIds(old(recurring)) ==> DistinctIds(recurring)
    {
      if desc == "" || value <= 0.0 {
        return false;
      }
      if kind != "receita" && kind != "despesa" {
        return false;
      }
      if frequency !in {"diario", "semanal", "mensal", "trimestral", "anual"} {
        return false;
      }
      var r := Recurring(NextId(recurring), desc, value, kind, frequency, start, end, debitAccount, creditAccount, category);
      if DistinctIds(recurring) {
        AddKeepsIdsDistinct(recurring, r);
      }
      recurring := recurring + [r];
      ok := true;
    }

    /** `remover_lancamento_recorrente`: removes the first entry with `id`
      * and reports whether there was one. */
    method RemoveRecurring(id: int) returns (ok: bool)
      modifies this`recurring
      ensures ok == (FirstWithId(old(recurring), id) < |old(recurring)|)
      ensures recurring == RemoveFirst(old(recurring), id)
    {
      for i := 0 to |recurring|
        invariant forall j :: 0 <= j < i ==> recurring[j].id != id
      {
        if recurring[i].id == id {
          assert FirstWithId(recurring, id) == i;
          recurring := recurring[..i] + recurring[i + 1..];
          return true;
        }
      }
      ok := false;
    }

    /** The window's days with every value at zero, as `gerar_previsao_fluxo_caixa`
      * starts. */
    method Reset(from: Date, to: Date)
      requires Valid(from) && Valid(to)
      modifies this`days, this`revenues, this`expenses, this`balance
      ensures days == DayRun(from, to)
      ensures revenues == Zeros(days) && expenses == Zeros(days) && balance == Zeros(days)
    {
      var ds := DayRun(from, to);
      var zeros: map<Date, real> := map[];
      for i := 0 to |ds|
        invariant zeros == Zeros(ds[..i])
      {
        assert ds[..i + 1] == ds[..i] + [ds[i]];
        zeros := zeros[ds[i] := 0.0];
      }
      assert ds[..|ds|] == ds;
      days, revenues, expenses, balance := ds, zeros, zeros, zeros;
    }

    /** `_incluir_lancamentos_recorrentes`. */
    method IncludeRecurring(from: Date, to: Date) returns (ok: bool)
      requires Valid(from) && Valid(to) && DatesValid(recurring)
      modifies this`revenues, this`expenses
      ensures var p := Project(Projection(old(revenues), old(expenses), false), recurring, from, to);
        revenues == p.revenues && expenses == p.expenses && ok == !p.failed
    {
      ghost var target := Project(Projection(revenues, expenses, false), recurring, from, to);
      for i := 0 to |recurring|
        invariant Project(Projection(revenues, expenses, false), recurring[i..], from, to) == target
      {
        hide Occurrences, AddAll;
        var r := recurring[i];
        assert recurring[i..][1..] == recurring[i + 1..];
        if MeetsWindow(r, from, to) {
          var ds := OccurrenceDates(r.start, r.end.GetOr(to), r.frequency, from, to);
          if ds != [] {
            if r.kind == "receita" {
              revenues := AddDates(revenues, ds, r.value);
            } else if r.kind == "despesa" {
              expenses := AddDates(expenses, ds, r.value);
            } else {
              return false;
            }
          }
        }
      }
      ok := true;
    }

    /** The balance loop of `gerar_previsao_fluxo_caixa`: over the days in
      * ascending order (the sorted keys), each day's balance is the previous
      * one plus the day's revenue minus its expense, starting from `seed`. */
    method RunningBalance(seed: real)
      requires Covered() && Ascending(days)
      modifies this`balance
      ensures balance.Keys == old(balance).Keys
      ensures forall k :: 0 <= k < |days| ==> balance[days[k]] == Closing(seed, days[..k + 1], revenues, expenses)
      ensures |days| > 0 ==> balance[days[0]] == seed + revenues[days[0]] - expenses[days[0]]
      ensures forall k :: 0 < k < |days| ==>
                balance[days[k]] == balance[days[k - 1]] + revenues[days[k]] - expenses[days[k]]
    {
      var previous := seed;
      assert previous == Closing(seed, days[..0], revenues, expenses);
      hide Closing;
      for k := 0 to |days|
        invariant balance.Keys == old(balance).Keys
        invariant previous == Closing(seed, days[..k], revenues, expenses)
        invariant forall j :: 0 <= j < k ==> balance[days[j]] == Closing(seed, days[..j + 1], revenues, expenses)
      {
        var d := days[k];
        var saldo := previous + revenues[d] - expenses[d];
        ClosingStep(seed, days, k, revenues, expenses);
        forall j | 0 <= j < k
          ensures days[j] != d
        {
          assert Before(days[j], days[k]);
        }
        balance := balance[d := saldo];
        previous := saldo;
      }
      forall k | 0 < k < |days|
        ensures balance[days[k]] == balance[days[k - 1]] + revenues[days[k]] - expenses[days[k]]
      {
        ClosingStep(seed, days, k, revenues, expenses);
      }
      if |days| > 0 {
        ClosingStep(seed, days, 0, revenues, expenses);
      }
    }

    /** `gerar_previsao_fluxo_caixa` without the statistical part: reset the
      * window, book the recurring entries, then run the balance from the
      * cash accounts' balance. A failure leaves the balances at zero and
      * reports no forecast. */
    method Generate(from: Date, to: Date, includeRecurring: bool, ledger: seq<Entry>) returns (ok: bool)
      requires Valid(from) && Valid(to) && DatesValid(recurring)
      modifies this`days, this`revenues, this`expenses, this`balance
      ensures days == DayRun(from, to) && Covered()
      ensures var start := Projection(Zeros(days), Zeros(days), false);
        var p := if includeRecurring then Project(start, recurring, from, to) else start;
        revenues == p.revenues && expenses == p.expenses && ok == !p.failed
      ensures ok ==> forall k :: 0 <= k < |days| ==>
                balance[days[k]] == Closing(CashBalance(ledger), days[..k + 1], revenues, expenses)
      ensures !ok ==> balance == Zeros(days)
    {
      Reset(from, to);
      ProjectKeepsDays(Projection(Zeros(days), Zeros(days), false), recurring, from, to);
      ok := true;
      if includeRecurring {
        ok := IncludeRecurring(from, to);
        if !ok {
          return;
        }
      }
      DayRunShape(from, to);
      var seed := CurrentBalance(ledger);
      RunningBalance(seed);
    }

    /** `_agrupar_por_mes`: per month of the forecast, the sums of the daily
      * revenues and expenses and their difference. */
    method GroupByMonth() returns (summary: map<(int, int), MonthTotals>)
      requires Covered()
      ensures summary.Keys == Months(days)
      ensures forall key :: key in summary ==>
                summary[key] == MonthTotals(MonthSum(days, revenues, key), MonthSum(days, expenses, key),
                                            MonthSum(days, revenues, key) - MonthSum(days, expenses, key))
    {
      summary := map[];
      assert Summarizes(summary, days[..0], revenues, expenses);
      hide Summarizes, MonthSum, Months;
      for i := 0 to |days|
        invariant Summarizes(summary, days[..i], revenues, expenses)
      {
        var d := days[i];
        var key := MonthOf(d);
        SummarizesStep(summary, days, i, revenues, expenses);
        ghost var before := summary;
        if key !in summary {
          summary := summary[key := MonthTotals(0.0, 0.0, 0.0)];
        }
        var t := summary[key];
        summary := summary[key := MonthTotals(t.revenues + revenues[d], t.expenses + expenses[d],
                                              t.balance + (revenues[d] - expenses[d]))];
        assert summary == AddToMonth(before, d, revenues[d], expenses[d]);
      }
      assert days[..|days|] == days;
      SummarizesMeans(summary, days, revenues, expenses);
    }
  }

  /** The inner loop of `_incluir_lancamentos_recorrentes` for one entry. */
  method AddDates(m0: map<Date, real>, ds: seq<Date>, v: real) returns (m: map<Date, real>)
    ensures m == AddAll(m0, ds, v)
  {
    m := m0;
    for i := 0 to |ds|
      invariant AddAll(m, ds[i..], v) == AddAll(m0, ds, v)
    {
      assert ds[i..][1..] == ds[i + 1..];
      if ds[i] in m {
        m := m[ds[i] := m[ds[i]] + v];
      }
    }
  }
}
