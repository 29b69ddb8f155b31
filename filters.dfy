// The advanced filters of the main table (`filtros_avancados.py`): the
// active-filter record built from the dialog's fields, the chain of row
// filters applied to the bank and the ledger tables, the reconciliation
// status of a row, and the rows the table then shows.
module Filters {
  import opened Util
  import opened Calendar
  import opened Text

  const Bank := "BANCO"
  const Book := "LIVRO"
  const Reconciled := "CONCILIADO"
  const Pending := "PENDENTE"

  /** A row of the bank or the ledger table. */
  datatype Row = Row(date: Date, description: string, value: real)

  datatype DescriptionFilter = DescriptionFilter(text: string, exact: bool, caseSensitive: bool)

  /** `filtros_ativos`: a filter is active when its key is present. The two
    * description flags are only ever stored together with the text. */
  datatype Active = Active(
    dateFrom: Option<Date>,
    dateTo: Option<Date>,
    minValue: Option<real>,
    maxValue: Option<real>,
    sign: Option<string>,
    description: Option<DescriptionFilter>,
    origin: Option<string>,
    status: Option<string>)

  const NoFilters := Active(None, None, None, None, None, None, None, None)

  /** The dialog's fields as typed. */
  datatype Form = Form(
    dateFrom: string,
    dateTo: string,
    minValue: string,
    maxValue: string,
    sign: string,
    description: string,
    exact: bool,
    caseSensitive: bool,
    origin: string,
    status: string)

  // ---------------------------------------------------------------------
  // Building the active filters (`aplicar_filtros`)

  /** The amount text handed to `float`: thousands dots deleted, then the
    * decimal comma turned into a point. */
  function AmountText(s: string): string
  {
    ReplaceAll(ReplaceAll(s, ".", ""), ",", ".")
  }

  /** Deleting every "." keeps the other characters in order. */
  lemma {:induction false} DeleteDots(s: string)
    ensures ReplaceAll(s, ".", "") == Filter(s, (c: char) => c != '.')
  {
    if s != [] {
      DeleteDots(s[1..]);
      assert IsPrefix(".", s) <==> s[0] == '.' by {
        if |s| >= 1 {
          assert s[..1] == [s[0]];
        }
      }
    }
  }

  /** The amount text is the input without its dots, each comma read as a
    * decimal point. */
  lemma AmountTextMeaning(s: string)
    ensures var kept := Filter(s, (c: char) => c != '.');
      AmountText(s) == seq(|kept|, i requires 0 <= i < |kept| => if kept[i] == ',' then '.' else kept[i])
  {
    DeleteDots(s);
    ReplaceChar(Filter(s, (c: char) => c != '.'), ',', '.');
  }

  lemma GroupingDotsDeleted()
    ensures ReplaceAll("1.234,56", ".", "") == "1234,56"
  {
    hide ReplaceAll, Filter;
    var notDot := (c: char) => c != '.';
    var head, tail := "1.", "234,56";
    DeleteDots(head + tail);
    FilterAppend(head, tail, notDot);
    FilterAll(tail, notDot);
    FilterCons(head, notDot);
    FilterCons(head[1..], notDot);
    assert head[1..][1..] == [];
    FilterAll(head[1..][1..], notDot);
    assert head + tail == "1.234,56";
  }

  /** An Angolan-format amount reads as intended. */
  lemma AmountTextGrouped()
    ensures AmountText("1.234,56") == "1234.56"
  {
    GroupingDotsDeleted();
    ReplaceChar("1234,56", ',', '.');
    hide ReplaceAll;
  }

  /** A point typed as the decimal separator is taken for a thousands dot. */
  lemma AmountTextPointIsDropped()
    ensures AmountText("12.5") == "125"
  {
    assert ReplaceAll("12.5", ".", "") == "125" by {
      assert ReplaceAll(".5", ".", "") == "5" by {
        assert ReplaceAll("5", ".", "") == "5";
      }
      assert ReplaceAll("2.5", ".", "") == "25";
    }
    ReplaceChar("125", ',', '.');
  }

  /** A field that is blank, or whose text does not parse, adds no filter. */
  function ParsedIfGiven<T>(text: string, parse: string -> Option<T>): Option<T>
  {
    if text == "" then None else parse(text)
  }

  /** The filters the dialog's fields define. `parseDate` stands for
    * `strptime(_, "%d/%m/%Y")` and `parseReal` for `float`; both give `None`
    * where the library raises. */
  function Built(form: Form, parseDate: string -> Option<Date>, parseReal: string -> Option<real>): Active
  {
    Active(
      ParsedIfGiven(form.dateFrom, parseDate),
      ParsedIfGiven(form.dateTo, parseDate),
      if form.minValue == "" then None else parseReal(AmountText(form.minValue)),
      if form.maxValue == "" then None else parseReal(AmountText(form.maxValue)),
      if form.sign != "todos" then Some(form.sign) else None,
      if form.description != "" then Some(DescriptionFilter(form.description, form.exact, form.caseSensitive))
      else None,
      if form.origin != "todas" then Some(form.origin) else None,
      if form.status != "todos" then Some(form.status) else None)
  }

  /** A bound filter is active exactly when its field is filled in and
    * parses; the description flags count only with a description. */
  lemma BuiltSkipsUnparsable(form: Form, parseDate: string -> Option<Date>, parseReal: string -> Option<real>)
    ensures var a := Built(form, parseDate, parseReal);
      (a.dateFrom.Some? <==> form.dateFrom != "" && parseDate(form.dateFrom).Some?)
      && (a.dateTo.Some? <==> form.dateTo != "" && parseDate(form.dateTo).Some?)
      && (a.minValue.Some? <==> form.minValue != "" && parseReal(AmountText(form.minValue)).Some?)
      && (a.maxValue.Some? <==> form.maxValue != "" && parseReal(AmountText(form.maxValue)).Some?)
      && (a.description.Some? <==> form.description != "")
      && (a.description.Some? ==> a.description.value.text == form.description
                                   && a.description.value.exact == form.exact
                                   && a.description.value.caseSensitive == form.caseSensitive)
  {
  }

  /** The dialog as it opens adds no filter at all. */
  lemma BlankFormNoFilters(parseDate: string -> Option<Date>, parseReal: string -> Option<real>, exact: bool, caseSensitive: bool)
    ensures Built(Form("", "", "", "", "todos", "", exact, caseSensitive, "todas", "todos"), parseDate, parseReal)
            == NoFilters
  {
  }

  // ---------------------------------------------------------------------
  // Filtering a table (`aplicar_filtros_dataframe`)

  /** `df[cond]` when the filter is active, the table itself otherwise. */
  function Where(on: bool, rows: seq<Row>, p: Row -> bool): seq<Row>
  {
    if on then Filter(rows, p) else rows
  }

  predicate DescriptionMatches(f: DescriptionFilter, s: string)
  {
    if f.exact then
      (if f.caseSensitive then s == f.text else Lower(s) == Lower(f.text))
    else
      (if f.caseSensitive then Contains(s, f.text) else Contains(Lower(s), Lower(f.text)))
  }

  predicate SignMatches(sign: string, v: real)
  {
    if sign == "positivos" then v > 0.0
    else if sign == "negativos" then v < 0.0
    else true
  }

  // The six filters, each of which passes every row while inactive.

  predicate FromOk(a: Active, r: Row) { a.dateFrom.Some? ==> !Before(r.date, a.dateFrom.value) }
  predicate ToOk(a: Active, r: Row) { a.dateTo.Some? ==> !Before(a.dateTo.value, r.date) }
  predicate MinOk(a: Active, r: Row) { a.minValue.Some? ==> r.value >= a.minValue.value }
  predicate MaxOk(a: Active, r: Row) { a.maxValue.Some? ==> r.value <= a.maxValue.value }
  predicate SignOk(a: Active, r: Row) { a.sign.Some? ==> SignMatches(a.sign.value, r.value) }
  predicate TextOk(a: Active, r: Row)
  {
    a.description.Some? ==> DescriptionMatches(a.description.value, r.description)
  }

  /** The filters in the order the source applies them. */
  function FilterFrame(a: Active, rows: seq<Row>): seq<Row>
  {
    var r1 := Where(a.dateFrom.Some?, rows, (r: Row) => FromOk(a, r));
    var r2 := Where(a.dateTo.Some?, r1, (r: Row) => ToOk(a, r));
    var r3 := Where(a.minValue.Some?, r2, (r: Row) => MinOk(a, r));
    var r4 := Where(a.maxValue.Some?, r3, (r: Row) => MaxOk(a, r));
    var r5 := Where(a.sign.Some?, r4, (r: Row) => SignOk(a, r));
    Where(a.description.Some?, r5, (r: Row) => TextOk(a, r))
  }

  /** A row passes every active filter: the date and value bounds are
    * inclusive, the sign filter excludes zero either way. */
  predicate Keeps(a: Active, r: Row)
  {
    FromOk(a, r) && ToOk(a, r) && MinOk(a, r) && MaxOk(a, r) && SignOk(a, r) && TextOk(a, r)
  }

  /** The `n`-th filter of the chain. */
  predicate Passes(a: Active, n: nat, r: Row)
  {
    if n == 1 then FromOk(a, r)
    else if n == 2 then ToOk(a, r)
    else if n == 3 then MinOk(a, r)
    else if n == 4 then MaxOk(a, r)
    else if n == 5 then SignOk(a, r)
    else TextOk(a, r)
  }

  /** The first `n` filters of the chain. */
  predicate PassesFirst(a: Active, n: nat, r: Row)
  {
    n == 0 || (PassesFirst(a, n - 1, r) && Passes(a, n, r))
  }

  /** Filtering by `p` and then by `q` is filtering by their conjunction. */
  lemma {:induction false} FilterBoth(rows: seq<Row>, p: Row -> bool, q: Row -> bool, pq: Row -> bool)
    requires forall k :: 0 <= k < |rows| ==> pq(rows[k]) == (p(rows[k]) && q(rows[k]))
    ensures Filter(Filter(rows, p), q) == Filter(rows, pq)
  {
    if rows != [] {
      FilterBoth(rows[1..], p, q, pq);
      var rest := Filter(rows[1..], p);
      if p(rows[0]) {
        assert Filter(rows, p) == [rows[0]] + rest;
        assert ([rows[0]] + rest)[1..] == rest;
      } else {
        assert Filter(rows, p) == rest;
      }
    }
  }

  /** One more stage of the chain narrows the accumulated condition. */
  lemma WhereNarrows(rows: seq<Row>, acc: Row -> bool, on: bool, p: Row -> bool, next: Row -> bool)
    requires forall r :: next(r) == (acc(r) && (!on || p(r)))
    ensures Where(on, Filter(rows, acc), p) == Filter(rows, next)
  {
    if on {
      FilterBoth(rows, acc, p, next);
    } else {
      FilterExt(rows, acc, next);
    }
  }

  lemma ChainStep(a: Active, rows: seq<Row>, n: nat, on: bool, p: Row -> bool)
    requires 1 <= n && forall r :: p(r) == Passes(a, n, r)
    requires !on ==> forall r :: Passes(a, n, r)
    ensures Where(on, Filter(rows, (r: Row) => PassesFirst(a, n - 1, r)), p)
            == Filter(rows, (r: Row) => PassesFirst(a, n, r))
  {
    WhereNarrows(rows, (r: Row) => PassesFirst(a, n - 1, r), on, p, (r: Row) => PassesFirst(a, n, r));
  }

  /** The chain keeps exactly the rows every active filter accepts, in their
    * original order. */
  lemma FrameIsFilter(a: Active, rows: seq<Row>)
    ensures FilterFrame(a, rows) == Filter(rows, (r: Row) => Keeps(a, r))
  {
    var r1 := Where(a.dateFrom.Some?, rows, (r: Row) => FromOk(a, r));
    var r2 := Where(a.dateTo.Some?, r1, (r: Row) => ToOk(a, r));
    var r3 := Where(a.minValue.Some?, r2, (r: Row) => MinOk(a, r));
    var r4 := Where(a.maxValue.Some?, r3, (r: Row) => MaxOk(a, r));
    var r5 := Where(a.sign.Some?, r4, (r: Row) => SignOk(a, r));
    var r6 := Where(a.description.Some?, r5, (r: Row) => TextOk(a, r));
    hide Filter, Where, Before, SignMatches, DescriptionMatches;
    assert r1 == Filter(rows, (r: Row) => PassesFirst(a, 1, r)) by {
      FilterExt(rows, (r: Row) => true, (r: Row) => PassesFirst(a, 0, r));
      FilterAll(rows, (r: Row) => true);
      ChainStep(a, rows, 1, a.dateFrom.Some?, (r: Row) => FromOk(a, r));
    }
    assert r2 == Filter(rows, (r: Row) => PassesFirst(a, 2, r)) by {
      ChainStep(a, rows, 2, a.dateTo.Some?, (r: Row) => ToOk(a, r));
    }
    assert r3 == Filter(rows, (r: Row) => PassesFirst(a, 3, r)) by {
      ChainStep(a, rows, 3, a.minValue.Some?, (r: Row) => MinOk(a, r));
    }
    assert r4 == Filter(rows, (r: Row) => PassesFirst(a, 4, r)) by {
      ChainStep(a, rows, 4, a.maxValue.Some?, (r: Row) => MaxOk(a, r));
    }
    assert r5 == Filter(rows, (r: Row) => PassesFirst(a, 5, r)) by {
      ChainStep(a, rows, 5, a.sign.Some?, (r: Row) => SignOk(a, r));
    }
    assert r6 == Filter(rows, (r: Row) => PassesFirst(a, 6, r)) by {
      ChainStep(a, rows, 6, a.description.Some?, (r: Row) => TextOk(a, r));
    }
    forall r
      ensures PassesFirst(a, 6, r) == Keeps(a, r)
    {
      assert PassesFirst(a, 3, r) == (FromOk(a, r) && ToOk(a, r) && MinOk(a, r)) by {
        assert PassesFirst(a, 1, r) == FromOk(a, r);
      }
      assert PassesFirst(a, 6, r) == (PassesFirst(a, 3, r) && MaxOk(a, r) && SignOk(a, r) && TextOk(a, r)) by {
        assert PassesFirst(a, 5, r) == (PassesFirst(a, 4, r) && SignOk(a, r));
      }
    }
    FilterExt(rows, (r: Row) => PassesFirst(a, 6, r), (r: Row) => Keeps(a, r));
  }


  /** With no filter active the table is shown whole. */
  lemma NoFiltersKeepAll(rows: seq<Row>)
    ensures FilterFrame(NoFilters, rows) == rows
  {
  }

  /** Zero passes neither sign filter. */
  lemma ZeroHasNoSign(a: Active, r: Row)
    requires a.sign == Some("positivos") || a.sign == Some("negativos")
    requires r.value == 0.0
    ensures !Keeps(a, r)
  {
  }

  /** Lower-casing keeps a substring a substring. */
  lemma ContainsLower(s: string, t: string)
    requires Contains(s, t)
    ensures Contains(Lower(s), Lower(t))
  {
    ContainsAt(s, t);
    var i :| OccursAt(s, t, i);
    assert Lower(s)[i..i + |t|] == Lower(t);
    assert OccursAt(Lower(s), Lower(t), i);
    ContainsAt(Lower(s), Lower(t));
  }

  /** A case-sensitive description filter is the stricter one. */
  lemma CaseSensitiveIsStricter(f: DescriptionFilter, s: string)
    requires f.caseSensitive && DescriptionMatches(f, s)
    ensures DescriptionMatches(f.(caseSensitive := false), s)
  {
    if !f.exact {
      ContainsLower(s, f.text);
    }
  }

  /** An exact description filter is the stricter one. */
  lemma ExactIsStricter(f: DescriptionFilter, s: string)
    requires f.exact && DescriptionMatches(f, s)
    ensures DescriptionMatches(f.(exact := false), s)
  {
    var t := if f.caseSensitive then s else Lower(s);
    assert IsPrefix(t, t);
  }

  // ---------------------------------------------------------------------
  // Reconciliation status (`obter_status_item`)

  /** `rows` holds a row with the same value and the same date as `r`. */
  predicate HasTwin(rows: seq<Row>, r: Row)
  {
    exists k :: 0 <= k < |rows| && rows[k].value == r.value && rows[k].date == r.date
  }

  /** The status of a row of table `origin`, looked up in the other table;
    * a missing table leaves every row pending. */
  function StatusOf(r: Row, origin: string, bank: Option<seq<Row>>, book: Option<seq<Row>>): string
  {
    if origin == Bank && book.Some? then (if HasTwin(book.value, r) then Reconciled else Pending)
    else if origin == Book && bank.Some? then (if HasTwin(bank.value, r) then Reconciled else Pending)
    else Pending
  }

  /** A row is reconciled exactly when the other table is loaded and holds a
    * twin; otherwise it is pending. */
  lemma ReconciledIff(r: Row, origin: string, bank: Option<seq<Row>>, book: Option<seq<Row>>)
    ensures StatusOf(r, origin, bank, book) == Reconciled || StatusOf(r, origin, bank, book) == Pending
    ensures StatusOf(r, origin, bank, book) == Reconciled
            <==> (origin == Bank && book.Some? && HasTwin(book.value, r))
                  || (origin == Book && bank.Some? && HasTwin(bank.value, r))
  {
  }

  /** Reconciliation by twin is symmetric: a reconciled bank row has a
    * reconciled twin in the ledger. */
  lemma ReconciledBothWays(bank: seq<Row>, book: seq<Row>, i: nat)
    requires i < |bank| && StatusOf(bank[i], Bank, Some(bank), Some(book)) == Reconciled
    ensures exists k :: 0 <= k < |book| && book[k].value == bank[i].value && book[k].date == bank[i].date
                        && StatusOf(book[k], Book, Some(bank), Some(book)) == Reconciled
  {
    var k :| 0 <= k < |book| && book[k].value == bank[i].value && book[k].date == bank[i].date;
    assert HasTwin(bank, book[k]);
  }

  // ---------------------------------------------------------------------
  // The table (`filtrar_tabela`)

  /** A line of the main table: the row, its origin and its status. */
  datatype Line = Line(row: Row, origin: string, status: string)

  predicate StatusPasses(a: Active, status: string)
  {
    a.status.None? || status == a.status.value
  }

  /** Every row of `rows`, labelled with its origin and its status. */
  function Labelled(rows: seq<Row>, origin: string, bank: Option<seq<Row>>, book: Option<seq<Row>>): (ls: seq<Line>)
    ensures |ls| == |rows|
    ensures forall k :: 0 <= k < |rows| ==> ls[k] == Line(rows[k], origin, StatusOf(rows[k], origin, bank, book))
  {
    seq(|rows|, k requires 0 <= k < |rows| => Line(rows[k], origin, StatusOf(rows[k], origin, bank, book)))
  }

  /** The lines one table contributes: its filtered rows whose status
    * passes the status filter. */
  function Lines(a: Active, rows: seq<Row>, origin: string, bank: Option<seq<Row>>, book: Option<seq<Row>>): seq<Line>
  {
    Filter(Labelled(FilterFrame(a, rows), origin, bank, book), (l: Line) => StatusPasses(a, l.status))
  }

  /** `filtrar_tabela` as written: both tables are listed whatever the
    * origin filter says. */
  function TableAsWritten(a: Active, bank: Option<seq<Row>>, book: Option<seq<Row>>): seq<Line>
  {
    (if bank.Some? then Lines(a, bank.value, Bank, bank, book) else [])
    + (if book.Some? then Lines(a, book.value, Book, bank, book) else [])
  }

  predicate ShowsOrigin(a: Active, origin: string)
  {
    a.origin.None? || a.origin.value == origin
  }

  /** The table with the origin filter applied, as the source's comment
    * says it is. */
  function Table(a: Active, bank: Option<seq<Row>>, book: Option<seq<Row>>): seq<Line>
  {
    (if bank.Some? && ShowsOrigin(a, Bank) then Lines(a, bank.value, Bank, bank, book) else [])
    + (if book.Some? && ShowsOrigin(a, Book) then Lines(a, book.value, Book, bank, book) else [])
  }

  /** Every line shown passes every active filter, and carries the status
    * its row has. */
  lemma TableSound(a: Active, bank: Option<seq<Row>>, book: Option<seq<Row>>, l: Line)
    requires l in Table(a, bank, book)
    ensures l.origin == Bank || l.origin == Book
    ensures ShowsOrigin(a, l.origin) && Keeps(a, l.row) && StatusPasses(a, l.status)
    ensures l.status == StatusOf(l.row, l.origin, bank, book)
    ensures l.origin == Bank ==> bank.Some? && l.row in bank.value
    ensures l.origin == Book ==> book.Some? && l.row in book.value
  {
    hide FilterFrame, Keeps, StatusOf, Labelled, Filter;
    if bank.Some? {
      FrameIsFilter(a, bank.value);
    }
    if book.Some? {
      FrameIsFilter(a, book.value);
    }
  }

  /** Every row that passes every filter of its table is shown. */
  lemma TableComplete(a: Active, bank: Option<seq<Row>>, book: Option<seq<Row>>, r: Row, origin: string)
    requires origin == Bank || origin == Book
    requires origin == Bank ==> bank.Some? && r in bank.value
    requires origin == Book ==> book.Some? && r in book.value
    requires ShowsOrigin(a, origin) && Keeps(a, r) && StatusPasses(a, StatusOf(r, origin, bank, book))
    ensures Line(r, origin, StatusOf(r, origin, bank, book)) in Table(a, bank, book)
  {
    hide FilterFrame, Keeps, StatusOf, Filter;
    var rows := if origin == Bank then bank.value else book.value;
    FrameIsFilter(a, rows);
    var kept := FilterFrame(a, rows);
    var k :| 0 <= k < |kept| && kept[k] == r;
    assert Labelled(kept, origin, bank, book)[k] == Line(r, origin, StatusOf(r, origin, bank, book));
  }

  /** As written, a table filtered to the bank side still lists a ledger row. */
  lemma OriginIgnoredAsWritten(r: Row)
    ensures var a := NoFilters.(origin := Some(Bank));
      TableAsWritten(a, Some([]), Some([r])) == [Line(r, Book, Pending)]
      && Table(a, Some([]), Some([r])) == []
  {
    var a := NoFilters.(origin := Some(Bank));
    assert Lines(a, [], Bank, Some([]), Some([r])) == [] by {
      assert FilterFrame(a, []) == [];
    }
    assert Lines(a, [r], Book, Some([]), Some([r])) == [Line(r, Book, Pending)] by {
      NoFiltersKeepAll([r]);
      assert FilterFrame(a, [r]) == [r];
      assert !HasTwin([], r);
      assert Labelled([r], Book, Some([]), Some([r])) == [Line(r, Book, Pending)];
    }
    hide Lines;
    assert TableAsWritten(a, Some([]), Some([r])) == [] + [Line(r, Book, Pending)];
  }

  // ---------------------------------------------------------------------
  // The dialog

  class AdvancedFilters {
    var active: Active

    constructor()
      ensures active == NoFilters
    {
      active := NoFilters;
    }

    /** `aplicar_filtros`: the filters are rebuilt from scratch, field by
      * field, and the table is refilled. */
    method ApplyFilters(form: Form, parseDate: string -> Option<Date>, parseReal: string -> Option<real>,
                        bank: Option<seq<Row>>, book: Option<seq<Row>>)
      returns (lines: seq<Line>)
      modifies this
      ensures active == Built(form, parseDate, parseReal)
      ensures lines == Table(active, bank, book)
    {
      hide AmountText, Table, Lines;
      ghost var e := Built(form, parseDate, parseReal);
      var built := NoFilters;
      if form.dateFrom != "" {
        var d := parseDate(form.dateFrom);
        if d.Some? {
          built := built.(dateFrom := d);
        }
      }
      assert built == NoFilters.(dateFrom := e.dateFrom);
      if form.dateTo != "" {
        var d := parseDate(form.dateTo);
        if d.Some? {
          built := built.(dateTo := d);
        }
      }
      assert built == NoFilters.(dateFrom := e.dateFrom, dateTo := e.dateTo);
      if form.minValue != "" {
        var v := parseReal(AmountText(form.minValue));
        if v.Some? {
          built := built.(minValue := v);
        }
      }
      assert built == NoFilters.(dateFrom := e.dateFrom, dateTo := e.dateTo, minValue := e.minValue);
      if form.maxValue != "" {
        var v := parseReal(AmountText(form.maxValue));
        if v.Some? {
          built := built.(maxValue := v);
        }
      }
      assert built == NoFilters.(dateFrom := e.dateFrom, dateTo := e.dateTo, minValue := e.minValue, maxValue := e.maxValue);
      if form.sign != "todos" {
        built := built.(sign := Some(form.sign));
      }
      assert built == NoFilters.(dateFrom := e.dateFrom, dateTo := e.dateTo, minValue := e.minValue, maxValue := e.maxValue, sign := e.sign);
      if form.description != "" {
        built := built.(description := Some(DescriptionFilter(form.description, form.exact, form.caseSensitive)));
      }
      assert built == NoFilters.(dateFrom := e.dateFrom, dateTo := e.dateTo, minValue := e.minValue, maxValue := e.maxValue, sign := e.sign, description := e.description);
      if form.origin != "todas" {
        built := built.(origin := Some(form.origin));
      }
      assert built == NoFilters.(dateFrom := e.dateFrom, dateTo := e.dateTo, minValue := e.minValue, maxValue := e.maxValue, sign := e.sign, description := e.description, origin := e.origin);
      if form.status != "todos" {
        built := built.(status := Some(form.status));
      }
      assert built == NoFilters.(dateFrom := e.dateFrom, dateTo := e.dateTo, minValue := e.minValue, maxValue := e.maxValue, sign := e.sign, description := e.description, origin := e.origin, status := e.status);
      active := built;
      lines := FilterTable(bank, book);
    }

    /** `limpar_filtros`: no filter stays active. */
    method ClearFilters()
      modifies this
      ensures active == NoFilters
    {
      active := NoFilters;
    }

    /** `filtrar_tabela`: the bank rows, then the ledger rows, each table
      * filtered and each row skipped when its status is filtered out. */
    method FilterTable(bank: Option<seq<Row>>, book: Option<seq<Row>>) returns (lines: seq<Line>)
      ensures lines == Table(active, bank, book)
    {
      lines := [];
      if bank.Some? && ShowsOrigin(active, Bank) {
        lines := ShowRows(bank.value, Bank, bank, book);
      }
      if book.Some? && ShowsOrigin(active, Book) {
        var more := ShowRows(book.value, Book, bank, book);
        lines := lines + more;
      }
    }

    /** One table's loop: status per row, `continue` when filtered out. */
    method ShowRows(rows: seq<Row>, origin: string, bank: Option<seq<Row>>, book: Option<seq<Row>>)
      returns (lines: seq<Line>)
      ensures lines == Lines(active, rows, origin, bank, book)
    {
      hide FilterFrame, StatusOf, Filter;
      var kept := FilterFrame(active, rows);
      var a := active;
      var passes := (l: Line) => StatusPasses(a, l.status);
      lines := [];
      for i := 0 to |kept|
        invariant lines == Filter(Labelled(kept[..i], origin, bank, book), passes)
      {
        var status := StatusOf(kept[i], origin, bank, book);
        assert Labelled(kept[..i + 1], origin, bank, book)
               == Labelled(kept[..i], origin, bank, book) + [Line(kept[i], origin, status)];
        FilterSnoc(Labelled(kept[..i], origin, bank, book), Line(kept[i], origin, status), passes);
        if a.status.Some? && status != a.status.value {
          continue;
        }
        lines := lines + [Line(kept[i], origin, status)];
      }
      assert kept[..|kept|] == kept;
    }
  }
}
