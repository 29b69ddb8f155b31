// `OrcamentoRealizado` (orcamento_realizado.py): budgets per year, month,
// kind and category; their comparison with realized amounts and the
// significant deviations between the two.
module Budget {
  import opened Util
  import opened Sorting

  datatype Kind = Revenue | Expense

  /** The `tipo` argument: "receita" or "despesa". */
  function KindOf(tipo: string): (k: Option<Kind>)
    ensures k == Some(Revenue) <==> tipo == "receita"
    ensures k == Some(Expense) <==> tipo == "despesa"
  {
    if tipo == "receita" then Some(Revenue) else if tipo == "despesa" then Some(Expense) else None
  }

  /** A month node: the `receitas` and `despesas` maps from category to amount. */
  datatype Month = Month(revenues: map<string, real>, expenses: map<string, real>)
  {
    function Part(k: Kind): map<string, real>
    {
      if k == Revenue then revenues else expenses
    }
  }

  /** Year, then month, then the month node. The source keys both levels by
    * `str` of the number, which is one-to-one on integers. */
  type Budgets = map<int, map<int, Month>>

  /** The checks `definir_orcamento` makes before any change. */
  predicate Acceptable(year: int, month: int, category: string, value: real, tipo: string)
  {
    2000 <= year <= 2100 && 1 <= month <= 12 && category != "" && value >= 0.0 && KindOf(tipo).Some?
  }

  /** The stored amount, if any. */
  function Amount(b: Budgets, year: int, month: int, k: Kind, category: string): (r: Option<real>)
    ensures r.Some? <==> year in b && month in b[year] && category in b[year][month].Part(k)
  {
    if year in b && month in b[year] && category in b[year][month].Part(k) then Some(b[year][month].Part(k)[category]) else None
  }

  /** The budgets after a successful `definir_orcamento`: missing year and
    * month nodes are created, and exactly one amount is set. */
  function Defined(b: Budgets, year: int, month: int, k: Kind, category: string, value: real): (r: Budgets)
    ensures r.Keys == b.Keys + {year}
    ensures r[year].Keys == (if year in b then b[year].Keys else {}) + {month}
  {
    var y := if year in b then b[year] else map[];
    var m := if month in y then y[month] else Month(map[], map[]);
    var m' := if k == Revenue then m.(revenues := m.revenues[category := value]) else m.(expenses := m.expenses[category := value]);
    b[year := y[month := m']]
  }

  lemma DefinedReadsBack(b: Budgets, year: int, month: int, k: Kind, category: string, value: real)
    ensures Amount(Defined(b, year, month, k, category, value), year, month, k, category) == Some(value)
  {
  }

  /** Every other amount is as it was. */
  lemma DefinedKeepsOthers(b: Budgets, year: int, month: int, k: Kind, category: string, value: real,
                           year': int, month': int, k': Kind, category': string)
    requires (year', month', k', category') != (year, month, k, category)
    ensures Amount(Defined(b, year, month, k, category, value), year', month', k', category') == Amount(b, year', month', k', category')
  {
  }

  /** Defining the same amount twice is defining it once. */
  lemma DefinedIdempotent(b: Budgets, year: int, month: int, k: Kind, category: string, value: real)
    ensures var once: Budgets := Defined(b, year, month, k, category, value);
      Defined(once, year, month, k, category, value) == once
  {
    var once: Budgets := Defined(b, year, month, k, category, value);
    var m: Month := once[year][month];
    if k == Revenue {
      assert m.revenues[category := value] == m.revenues;
    } else {
      assert m.expenses[category := value] == m.expenses;
    }
    assert once[year][month := m] == once[year];
  }

  /** No stored amount is negative. */
  predicate NonNegative(b: Budgets)
  {
    forall y, m, k, c :: y in b && m in b[y] && c in b[y][m].Part(k) ==> b[y][m].Part(k)[c] >= 0.0
  }

  /** What `obter_orcamento` returns: `{}`, a year's months, or one month. */
  datatype Node = NoBudget | YearNode(months: map<int, Month>) | MonthNode(month: Month)

  function Get(b: Budgets, year: int, month: Option<int>): (n: Node)
    ensures year !in b ==> n == NoBudget
    ensures year in b && month.None? ==> n == YearNode(b[year])
    ensures year in b && month.Some? ==> n == if month.value in b[year] then MonthNode(b[year][month.value]) else NoBudget
  {
    if year !in b then NoBudget
    else if month.None? then YearNode(b[year])
    else if month.value in b[year] then MonthNode(b[year][month.value])
    else NoBudget
  }

  class Planner {
    var budgets: Budgets

    constructor (loaded: Budgets)
      ensures budgets == loaded
    {
      budgets := loaded;
    }

    /** `definir_orcamento` */
    method Define(year: int, month: int, category: string, value: real, tipo: string) returns (ok: bool)
      modifies this`budgets
      ensures ok <==> Acceptable(year, month, category, value, tipo)
      ensures ok ==> budgets == Defined(old(budgets), year, month, KindOf(tipo).value, category, value)
      ensures !ok ==> budgets == old(budgets)
      ensures ok && NonNegative(old(budgets)) ==> NonNegative(budgets)
    {
      if year < 2000 || year > 2100 || month < 1 || month > 12 || category == "" || value < 0.0 {
        return false;
      }
      var kind := KindOf(tipo);
      if kind.None? {
        return false;
      }
      if NonNegative(budgets) {
        DefinedNonNegative(budgets, year, month, kind.value, category, value);
      }
      var y := if year in budgets then budgets[year] else map[];
      var m := if month in y then y[month] else Month(map[], map[]);
      m := if kind.value == Revenue then m.(revenues := m.revenues[category := value])
           else m.(expenses := m.expenses[category := value]);
      budgets := budgets[year := y[month := m]];
      ok := true;
    }
  }

  lemma DefinedNonNegative(b: Budgets, year: int, month: int, k: Kind, category: string, value: real)
    requires NonNegative(b) && value >= 0.0
    ensures NonNegative(Defined(b, year, month, k, category, value))
  {
    var r: Budgets := Defined(b, year, month, k, category, value);
    forall y: int, m: int, k': Kind, c: string | y in r && m in r[y] && c in r[y][m].Part(k') ensures r[y][m].Part(k')[c] >= 0.0 {
      if (y, m, k', c) != (year, month, k, category) {
        DefinedKeepsOthers(b, year, month, k, category, value, y, m, k', c);
      }
    }
  }

  /** `_determinar_categoria_por_conta`: the table from two-digit account
    * prefix to category, in the source's order. */
  function CategoryTable(): seq<(string, string)>
  {
    [("71", "Vendas"), ("72", "Prestação de Serviços"), ("73", "Impostos e Taxas"), ("74", "Subsídios"),
     ("75", "Receitas Financeiras"), ("76", "Receitas de Imobilizações"), ("77", "Reversões"),
     ("78", "Receitas Extraordinárias"), ("79", "Outras Receitas"),
     ("61", "Custo de Mercadorias"), ("62", "Fornecimentos e Serviços"), ("63", "Impostos"),
     ("64", "Custos com Pessoal"), ("65", "Despesas Financeiras"), ("66", "Amortizações"),
     ("67", "Provisões"), ("68", "Despesas Extraordinárias"), ("69", "Outras Despesas")]
  }

  const Unclassified := "Não classificado"

  /** The first table row whose prefix starts the code. */
  function FirstPrefix(code: string, table: seq<(string, string)>): string
  {
    if table == [] then Unclassified
    else if |table[0].0| <= |code| && code[..|table[0].0|] == table[0].0 then table[0].1
    else FirstPrefix(code, table[1..])
  }

  function CategoryOf(code: string): string
  {
    FirstPrefix(code, CategoryTable())
  }

  /** With two-character prefixes only, the first match is decided by the
    * first two characters of the code. */
  lemma {:induction false} FirstPrefixByTwo(a: string, b: string, table: seq<(string, string)>)
    requires forall i :: 0 <= i < |table| ==> |table[i].0| == 2
    requires |a| >= 2 && |b| >= 2 && a[..2] == b[..2]
    ensures FirstPrefix(a, table) == FirstPrefix(b, table)
  {
    if table != [] {
      FirstPrefixByTwo(a, b, table[1..]);
    }
  }

  lemma {:induction false} FirstPrefixShort(code: string, table: seq<(string, string)>)
    requires forall i :: 0 <= i < |table| ==> |table[i].0| == 2
    requires |code| < 2
    ensures FirstPrefix(code, table) == Unclassified
  {
    if table != [] {
      FirstPrefixShort(code, table[1..]);
    }
  }

  /** The category depends only on the first two characters of the account. */
  lemma CategoryByPrefix(a: string, b: string)
    requires |a| >= 2 && |b| >= 2 && a[..2] == b[..2]
    ensures CategoryOf(a) == CategoryOf(b)
  {
    FirstPrefixByTwo(a, b, CategoryTable());
  }

  /** Accounts shorter than two characters are never classified. */
  lemma CategoryOfShort(code: string)
    requires |code| < 2
    ensures CategoryOf(code) == Unclassified
  {
    FirstPrefixShort(code, CategoryTable());
  }

  /** With two-character prefixes, a row is the first match when no earlier
    * row has the code's prefix. */
  lemma {:induction false} FirstPrefixAt(code: string, table: seq<(string, string)>, i: nat)
    requires forall j :: 0 <= j < |table| ==> |table[j].0| == 2
    requires |code| >= 2 && i < |table| && table[i].0 == code[..2]
    requires forall j :: 0 <= j < i ==> table[j].0 != code[..2]
    ensures FirstPrefix(code, table) == table[i].1
  {
    if i > 0 {
      FirstPrefixAt(code, table[1..], i - 1);
    }
  }

  /** No row with the code's prefix: the code is not classified. */
  lemma {:induction false} FirstPrefixNone(code: string, table: seq<(string, string)>)
    requires forall j :: 0 <= j < |table| ==> |table[j].0| == 2
    requires |code| >= 2 && forall j :: 0 <= j < |table| ==> table[j].0 != code[..2]
    ensures FirstPrefix(code, table) == Unclassified
  {
    if table != [] {
      FirstPrefixNone(code, table[1..]);
    }
  }

  /** The prefix of row `j` of the table: "71" to "79", then "61" to "69". */
  function RowPrefix(j: nat): string
    requires j < 18
  {
    [if j < 9 then '7' else '6', ((if j < 9 then j else j - 9) + '1' as int) as char]
  }

  lemma CategoryTablePrefixes()
    ensures |CategoryTable()| == 18
    ensures forall j :: 0 <= j < 18 ==> CategoryTable()[j].0 == RowPrefix(j) && CategoryTable()[j].1 != Unclassified
  {
  }

  /** A prefix of classes 61-69 or 71-79 is on exactly one row. */
  lemma RowOfPrefix(p: string) returns (i: nat)
    requires |p| == 2 && p[0] in "67" && p[1] in "123456789"
    ensures i < 18 && RowPrefix(i) == p
    ensures forall j :: 0 <= j < 18 && j != i ==> RowPrefix(j) != p
  {
    var d := (p[1] as int) - ('1' as int);
    i := if p[0] == '7' then d else 9 + d;
    forall j | 0 <= j < 18 && j != i ensures RowPrefix(j) != p {
      assert RowPrefix(j)[0] != p[0] || RowPrefix(j)[1] != p[1];
    }
  }

  /** Any other prefix is on no row. */
  lemma NoRowOfPrefix(p: string)
    requires |p| == 2 && !(p[0] in "67" && p[1] in "123456789")
    ensures forall j :: 0 <= j < 18 ==> RowPrefix(j) != p
  {
    forall j | 0 <= j < 18 ensures RowPrefix(j) != p {
      assert RowPrefix(j)[0] != p[0] || RowPrefix(j)[1] != p[1];
    }
  }

  /** An account is classified exactly when it belongs to classes 61-69 or
    * 71-79, and then it gets the name of the table row for its first two
    * characters; every other account is "Não classificado". */
  lemma CategoryOfResultAccounts(code: string)
    ensures CategoryOf(code) != Unclassified <==> |code| >= 2 && code[0] in "67" && code[1] in "123456789"
    ensures |code| >= 2 ==> forall i :: 0 <= i < |CategoryTable()| && CategoryTable()[i].0 == code[..2] ==>
      CategoryOf(code) == CategoryTable()[i].1
  {
    hide CategoryTable;
    var t := CategoryTable();
    CategoryTablePrefixes();
    if |code| < 2 {
      CategoryOfShort(code);
    } else if code[0] in "67" && code[1] in "123456789" {
      var i := RowOfPrefix(code[..2]);
      FirstPrefixAt(code, t, i);
    } else {
      NoRowOfPrefix(code[..2]);
      FirstPrefixNone(code, t);
    }
  }

  /** One line of the comparison. */
  datatype Line = Line(budgeted: real, actual: real, difference: real, percent: real)

  /** The line of `categoria`, reading 0 for a side that does not have it. */
  function LineFor(budget: map<string, real>, actual: map<string, real>, c: string): (l: Line)
    ensures l.budgeted == (if c in budget then budget[c] else 0.0)
    ensures l.actual == (if c in actual then actual[c] else 0.0)
    ensures l.difference == l.actual - l.budgeted
    ensures l.budgeted > 0.0 ==> l.percent * l.budgeted == l.actual * 100.0
    ensures l.budgeted <= 0.0 ==> l.percent == 0.0
  {
    var o := if c in budget then budget[c] else 0.0;
    var r := if c in actual then actual[c] else 0.0;
    Line(o, r, r - o, if o > 0.0 then r / o * 100.0 else 0.0)
  }

  function Budgeted(lines: seq<(string, Line)>): real
  {
    if lines == [] then 0.0 else lines[0].1.budgeted + Budgeted(lines[1..])
  }

  function Actual(lines: seq<(string, Line)>): real
  {
    if lines == [] then 0.0 else lines[0].1.actual + Actual(lines[1..])
  }

  function Differences(lines: seq<(string, Line)>): real
  {
    if lines == [] then 0.0 else lines[0].1.difference + Differences(lines[1..])
  }

  /** The total difference is the sum of the per-category differences. */
  lemma {:induction false} TotalDifference(lines: seq<(string, Line)>)
    requires forall i :: 0 <= i < |lines| ==> lines[i].1.difference == lines[i].1.actual - lines[i].1.budgeted
    ensures Actual(lines) - Budgeted(lines) == Differences(lines)
  {
    if lines != [] {
      TotalDifference(lines[1..]);
    }
  }

  lemma {:induction false} SumsSnoc(lines: seq<(string, Line)>, x: (string, Line))
    ensures Budgeted(lines + [x]) == Budgeted(lines) + x.1.budgeted
    ensures Actual(lines + [x]) == Actual(lines) + x.1.actual
  {
    if lines != [] {
      assert (lines + [x])[1..] == lines[1..] + [x];
      SumsSnoc(lines[1..], x);
    }
  }

  /** The comparison lines of one kind: one per category of either side,
    * each category once, in the (unspecified) order of the source's set. */
  predicate CoversOnce(lines: seq<(string, Line)>, budget: map<string, real>, actual: map<string, real>)
  {
    (forall i :: 0 <= i < |lines| ==> lines[i].1 == LineFor(budget, actual, lines[i].0))
    && (forall i, j :: 0 <= i < j < |lines| ==> lines[i].0 != lines[j].0)
    && (forall i :: 0 <= i < |lines| ==> lines[i].0 in budget || lines[i].0 in actual)
    && (forall c :: c in budget ==> exists i :: 0 <= i < |lines| && lines[i].0 == c)
    && (forall c :: c in actual ==> exists i :: 0 <= i < |lines| && lines[i].0 == c)
  }

  /** One kind's loop of `comparar_orcado_realizado`. */
  method CompareKind(budget: map<string, real>, actual: map<string, real>)
    returns (lines: seq<(string, Line)>, budgeted: real, realized: real)
    ensures CoversOnce(lines, budget, actual)
    ensures budgeted == Budgeted(lines) && realized == Actual(lines)
  {
    hide LineFor;
    var remaining := budget.Keys + actual.Keys;
    ghost var done: set<string> := {};
    lines, budgeted, realized := [], 0.0, 0.0;
    while remaining != {}
      invariant forall i :: 0 <= i < |lines| ==> lines[i].0 in done
      invariant forall c :: c in done ==> exists i :: 0 <= i < |lines| && lines[i].0 == c
      invariant done !! remaining && done + remaining == budget.Keys + actual.Keys
      invariant forall i :: 0 <= i < |lines| ==> lines[i].1 == LineFor(budget, actual, lines[i].0)
      invariant forall i, j :: 0 <= i < j < |lines| ==> lines[i].0 != lines[j].0
      invariant budgeted == Budgeted(lines) && realized == Actual(lines)
      decreases remaining
    {
      var c :| c in remaining;
      var line := LineFor(budget, actual, c);
      SumsSnoc(lines, (c, line));
      NamesExtend(lines, (c, line), done);
      lines := lines + [(c, line)];
      done := done + {c};
      budgeted := budgeted + line.budgeted;
      realized := realized + line.actual;
      remaining := remaining - {c};
    }
    assert forall c :: c in budget ==> c in done;
    assert forall c :: c in actual ==> c in done;
  }

  lemma NamesExtend(lines: seq<(string, Line)>, x: (string, Line), done: set<string>)
    requires forall c :: c in done ==> exists i :: 0 <= i < |lines| && lines[i].0 == c
    ensures forall c :: c in done + {x.0} ==> exists i :: 0 <= i < |lines + [x]| && (lines + [x])[i].0 == c
  {
    forall c | c in done + {x.0} ensures exists i :: 0 <= i < |lines + [x]| && (lines + [x])[i].0 == c {
      if c == x.0 {
        assert (lines + [x])[|lines|].0 == c;
      } else {
        var i :| 0 <= i < |lines| && lines[i].0 == c;
        assert (lines + [x])[i].0 == c;
      }
    }
  }

  /** The budget side of one kind as `comparar_orcado_realizado` reads it:
    * `orcado.get(tipo + 's', {})`. A year node has month keys only, so it
    * gives nothing (see the finding on yearly comparisons). */
  function BudgetSideAsWritten(n: Node, k: Kind): map<string, real>
  {
    if n.MonthNode? then n.month.Part(k) else map[]
  }

  /** The sum of a category over months 1 to 12 of a year, from month `m` on. */
  function YearTotal(months: map<int, Month>, k: Kind, c: string, m: int): real
    decreases 13 - m
  {
    if m > 12 then 0.0
    else (if m in months && c in months[m].Part(k) then months[m].Part(k)[c] else 0.0) + YearTotal(months, k, c, m + 1)
  }

  /** The categories budgeted in some month 1 to 12. */
  function Categories(months: map<int, Month>, k: Kind): set<string>
  {
    set m, c | m in months.Keys && 1 <= m <= 12 && c in months[m].Part(k).Keys :: c
  }

  /** The budget side with a year node summed over its months. */
  function BudgetSide(n: Node, k: Kind): map<string, real>
  {
    match n
    case NoBudget => map[]
    case MonthNode(mo) => mo.Part(k)
    case YearNode(months) =>
      map c | c in Categories(months, k) :: YearTotal(months, k, c, 1)
  }

  lemma {:induction false} YearTotalAtLeast(months: map<int, Month>, k: Kind, c: string, m: int, m0: int)
    requires forall j, d :: j in months && d in months[j].Part(k) ==> months[j].Part(k)[d] >= 0.0
    requires m <= m0 <= 12 && m0 in months && c in months[m0].Part(k)
    ensures YearTotal(months, k, c, m) >= months[m0].Part(k)[c]
    decreases 13 - m
  {
    if m < m0 {
      YearTotalAtLeast(months, k, c, m + 1, m0);
    } else {
      YearTotalNonNegative(months, k, c, m + 1);
    }
  }

  lemma {:induction false} YearTotalNonNegative(months: map<int, Month>, k: Kind, c: string, m: int)
    requires forall j, d :: j in months && d in months[j].Part(k) ==> months[j].Part(k)[d] >= 0.0
    ensures YearTotal(months, k, c, m) >= 0.0
    decreases 13 - m
  {
    if m <= 12 {
      YearTotalNonNegative(months, k, c, m + 1);
    }
  }

  /** A yearly comparison counts every month's budget: a category budgeted
    * in any month of the year has at least that much budgeted for the year. */
  lemma YearBudgetCounts(b: Budgets, year: int, month: int, k: Kind, c: string)
    requires NonNegative(b)
    requires 1 <= month <= 12 && Amount(b, year, month, k, c).Some?
    ensures var side := BudgetSide(Get(b, year, None), k);
      c in side && side[c] >= Amount(b, year, month, k, c).value
  {
    var months := b[year];
    YearTotalAtLeast(months, k, c, 1, month);
  }

  /** A monthly comparison reads the month node as written. */
  lemma MonthBudgetUnchanged(b: Budgets, year: int, month: int, k: Kind)
    ensures BudgetSide(Get(b, year, Some(month)), k) == BudgetSideAsWritten(Get(b, year, Some(month)), k)
  {
  }

  /** As written, a yearly comparison sees no budget even for a category
    * budgeted in January. */
  lemma YearBudgetIgnoredAsWritten()
    ensures var b: Budgets := map[2024 := map[1 := Month(map["Vendas" := 100.0], map[])]];
      Amount(b, 2024, 1, Revenue, "Vendas") == Some(100.0)
      && LineFor(BudgetSideAsWritten(Get(b, 2024, None), Revenue), map["Vendas" := 80.0], "Vendas").budgeted == 0.0
  {
  }

  /** The result of `comparar_orcado_realizado`. */
  datatype Comparison = Comparison(revenues: seq<(string, Line)>, expenses: seq<(string, Line)>,
                                   budgetedRevenue: real, budgetedExpense: real,
                                   actualRevenue: real, actualExpense: real)

  /** `comparar_orcado_realizado` for the budget node `n` and the realized
    * amounts per category `realized` (the source's `calcular_realizado`). */
  method Compare(n: Node, realized: Month) returns (cmp: Comparison)
    ensures CoversOnce(cmp.revenues, BudgetSide(n, Revenue), realized.revenues)
    ensures CoversOnce(cmp.expenses, BudgetSide(n, Expense), realized.expenses)
    ensures cmp.budgetedRevenue == Budgeted(cmp.revenues) && cmp.actualRevenue == Actual(cmp.revenues)
    ensures cmp.budgetedExpense == Budgeted(cmp.expenses) && cmp.actualExpense == Actual(cmp.expenses)
  {
    var rl, rb, ra := CompareKind(BudgetSide(n, Revenue), realized.revenues);
    var el, eb, ea := CompareKind(BudgetSide(n, Expense), realized.expenses);
    cmp := Comparison(rl, el, rb, eb, ra, ea);
  }

  /** One entry of `identificar_desvios_significativos`. */
  datatype Deviation = Deviation(kind: Kind, category: string, budgeted: real, actual: real,
                                 difference: real, percent: real, above: bool)

  function DeviationOf(k: Kind, c: string, l: Line): Deviation
    requires l.budgeted > 0.0
  {
    Deviation(k, c, l.budgeted, l.actual, l.difference, Abs(l.difference / l.budgeted * 100.0), l.difference > 0.0)
  }

  /** The lines whose budget is positive and whose deviation exceeds the limit. */
  function Significant(k: Kind, lines: seq<(string, Line)>, limit: real): seq<Deviation>
  {
    if lines == [] then []
    else
      var l := lines[0].1;
      (if l.budgeted > 0.0 && Abs(l.difference / l.budgeted * 100.0) > limit then [DeviationOf(k, lines[0].0, l)] else [])
      + Significant(k, lines[1..], limit)
  }

  /** Sorting on the negated percentage with a stable sort is Python's
    * `sort(key=percentual, reverse=True)`. */
  function ByPercentDescending(d: Deviation): seq<real>
  {
    [-d.percent]
  }

  /** Each reported deviation has a positive budget, a percentage above the
    * limit, and is "above" exactly when more was realized than budgeted. */
  lemma {:induction false} SignificantQualify(k: Kind, lines: seq<(string, Line)>, limit: real)
    ensures forall d :: d in Significant(k, lines, limit) ==>
      d.kind == k && d.budgeted > 0.0 && d.percent > limit && (d.above <==> d.difference > 0.0)
      && d.percent == Abs(d.difference / d.budgeted * 100.0)
  {
    if lines != [] {
      SignificantQualify(k, lines[1..], limit);
    }
  }

  /** Every line with a positive budget and a deviation above the limit is reported. */
  lemma {:induction false} SignificantComplete(k: Kind, lines: seq<(string, Line)>, limit: real, i: nat)
    requires i < |lines| && lines[i].1.budgeted > 0.0
    requires Abs(lines[i].1.difference / lines[i].1.budgeted * 100.0) > limit
    ensures DeviationOf(k, lines[i].0, lines[i].1) in Significant(k, lines, limit)
  {
    if i > 0 {
      SignificantComplete(k, lines[1..], limit, i - 1);
    }
  }

  /** `identificar_desvios_significativos` on a comparison: revenues, then
    * expenses, then a stable sort by decreasing percentage. */
  method Deviations(cmp: Comparison, limit: real) returns (ds: seq<Deviation>)
    ensures ds == SortByKey(Significant(Revenue, cmp.revenues, limit) + Significant(Expense, cmp.expenses, limit),
                            ByPercentDescending)
  {
    var found := SignificantLoop(Revenue, cmp.revenues, limit, []);
    found := SignificantLoop(Expense, cmp.expenses, limit, found);
    assert found == Significant(Revenue, cmp.revenues, limit) + Significant(Expense, cmp.expenses, limit);
    ds := SortByKey(found, ByPercentDescending);
  }

  lemma SignificantStep(k: Kind, lines: seq<(string, Line)>, limit: real, i: nat)
    requires i < |lines|
    ensures var l := lines[i].1;
      Significant(k, lines[i..], limit)
      == (if l.budgeted > 0.0 && Abs(l.difference / l.budgeted * 100.0) > limit then [DeviationOf(k, lines[i].0, l)] else [])
         + Significant(k, lines[i + 1..], limit)
  {
    assert lines[i..][1..] == lines[i + 1..];
  }

  /** One kind's loop, appending to `found0`. */
  method SignificantLoop(k: Kind, lines: seq<(string, Line)>, limit: real, found0: seq<Deviation>)
    returns (found: seq<Deviation>)
    ensures found == found0 + Significant(k, lines, limit)
  {
    found := found0;
    for i := 0 to |lines|
      invariant found + Significant(k, lines[i..], limit) == found0 + Significant(k, lines, limit)
    {
      hide Significant, Abs;
      SignificantStep(k, lines, limit, i);
      ghost var rest := Significant(k, lines[i + 1..], limit);
      var (c, l) := lines[i];
      if l.budgeted > 0.0 {
        var percent := Abs(l.difference / l.budgeted * 100.0);
        if percent > limit {
          var d := Deviation(k, c, l.budgeted, l.actual, l.difference, percent, l.difference > 0.0);
          assert d == DeviationOf(k, c, l);
          assert found + [d] + rest == found + ([d] + rest);
          found := found + [d];
        } else {
          assert Significant(k, lines[i..], limit) == rest;
        }
      } else {
        assert Significant(k, lines[i..], limit) == rest;
      }
    }
    assert lines[|lines|..] == [];
  }

  /** The reported list is ordered by decreasing percentage and holds exactly
    * the significant deviations of both kinds. */
  lemma DeviationsOrdered(cmp: Comparison, limit: real)
    ensures var all := Significant(Revenue, cmp.revenues, limit) + Significant(Expense, cmp.expenses, limit);
      var ds := SortByKey(all, ByPercentDescending);
      multiset(ds) == multiset(all)
      && forall i, j :: 0 <= i < j < |ds| ==> ds[i].percent >= ds[j].percent
  {
    var all := Significant(Revenue, cmp.revenues, limit) + Significant(Expense, cmp.expenses, limit);
    SortByKeySortsAndPermutes(all, ByPercentDescending);
    var ds := SortByKey(all, ByPercentDescending);
    forall i, j | 0 <= i < j < |ds| ensures ds[i].percent >= ds[j].percent {
      assert KeyLe(ByPercentDescending(ds[i]), ByPercentDescending(ds[j]));
    }
  }
}
