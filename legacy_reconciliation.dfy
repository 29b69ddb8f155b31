// The data logic of the main window (`reconciliacao.py`): the keyed
// comparison of bank and ledger amounts, the divergence report, the audit
// risk bands, and the column mapping and deduplication of a ledger import.
module LegacyReconciliation {
  import opened Util
  import opened Calendar
  import opened Text
  import opened Filters

  // ---------------------------------------------------------------------
  // The comparison table (`preencher_tabela_conciliacao`)

  /** Rows are compared by their printed date and their description. */
  type Key = (string, string)

  function KeyOf(r: Row): Key
  {
    (FormatDMY(r.date), r.description)
  }

  /** `dict_banco`: the bank sum per key, in the order keys first occur. */
  type Sums = seq<(Key, real)>

  function KeysOf(s: Sums): seq<Key>
  {
    if s == [] then [] else [s[0].0] + KeysOf(s[1..])
  }

  predicate DistinctKeys(s: Sums)
  {
    s == [] || (s[0].0 !in KeysOf(s[1..]) && DistinctKeys(s[1..]))
  }

  function Lookup(s: Sums, k: Key): Option<real>
  {
    if s == [] then None else if s[0].0 == k then Some(s[0].1) else Lookup(s[1..], k)
  }

  /** `d[k] += v` when the key is there, `d[k] = v` otherwise. */
  function AddTo(s: Sums, k: Key, v: real): Sums
  {
    if s == [] then [(k, v)]
    else if s[0].0 == k then [(k, s[0].1 + v)] + s[1..]
    else [s[0]] + AddTo(s[1..], k, v)
  }

  /** `del d[k]` */
  function Without(s: Sums, k: Key): Sums
  {
    if s == [] then [] else if s[0].0 == k then s[1..] else [s[0]] + Without(s[1..], k)
  }

  lemma {:induction false} LookupFound(s: Sums, k: Key)
    ensures Lookup(s, k).Some? <==> k in KeysOf(s)
  {
    if s != [] {
      LookupFound(s[1..], k);
    }
  }

  /** Adding to a key keeps the key order; a new key goes last. */
  lemma {:induction false} AddToKeys(s: Sums, k: Key, v: real)
    ensures KeysOf(AddTo(s, k, v)) == if k in KeysOf(s) then KeysOf(s) else KeysOf(s) + [k]
    ensures DistinctKeys(s) ==> DistinctKeys(AddTo(s, k, v))
  {
    if s != [] {
      AddToKeys(s[1..], k, v);
      if s[0].0 == k {
        assert AddTo(s, k, v)[1..] == s[1..];
      } else {
        assert AddTo(s, k, v)[1..] == AddTo(s[1..], k, v);
      }
    }
  }

  /** Adding to a key changes its sum only. */
  lemma {:induction false} AddToLookup(s: Sums, k: Key, v: real, x: Key)
    ensures Lookup(AddTo(s, k, v), x) == if x == k then Some(Lookup(s, k).GetOr(0.0) + v) else Lookup(s, x)
  {
    if s != [] {
      AddToLookup(s[1..], k, v, x);
      if s[0].0 != k {
        assert AddTo(s, k, v)[1..] == AddTo(s[1..], k, v);
      }
    }
  }

  /** Deleting a key removes it and nothing else. */
  lemma WithoutEffect(s: Sums, k: Key, x: Key)
    requires DistinctKeys(s)
    ensures DistinctKeys(Without(s, k))
    ensures Lookup(Without(s, k), x) == if x == k then None else Lookup(s, x)
    ensures KeysOf(Without(s, k)) == Filter(KeysOf(s), (y: Key) => y != k)
  {
    WithoutDistinct(s, k);
    WithoutLookup(s, k, x);
    WithoutKeysFiltered(s, k);
  }

  lemma {:induction false} WithoutDistinct(s: Sums, k: Key)
    requires DistinctKeys(s)
    ensures DistinctKeys(Without(s, k))
  {
    if s != [] && s[0].0 != k {
      WithoutDistinct(s[1..], k);
      WithoutKeys(s[1..], k, s[0].0);
      WithoutCons(s, k);
      assert ([s[0]] + Without(s[1..], k))[1..] == Without(s[1..], k);
    }
  }

  lemma {:induction false} WithoutLookup(s: Sums, k: Key, x: Key)
    requires DistinctKeys(s)
    ensures Lookup(Without(s, k), x) == if x == k then None else Lookup(s, x)
  {
    if s != [] {
      if s[0].0 == k {
        LookupFound(s[1..], k);
      } else {
        WithoutLookup(s[1..], k, x);
        WithoutCons(s, k);
        assert ([s[0]] + Without(s[1..], k))[1..] == Without(s[1..], k);
      }
    }
  }

  lemma {:induction false} WithoutKeysFiltered(s: Sums, k: Key)
    requires DistinctKeys(s)
    ensures KeysOf(Without(s, k)) == Filter(KeysOf(s), (y: Key) => y != k)
  {
    if s != [] {
      assert KeysOf(s) == [s[0].0] + KeysOf(s[1..]);
      FilterCons(KeysOf(s), (y: Key) => y != k);
      assert KeysOf(s)[1..] == KeysOf(s[1..]);
      if s[0].0 == k {
        FilterAll(KeysOf(s[1..]), (y: Key) => y != k);
      } else {
        WithoutKeysFiltered(s[1..], k);
        WithoutCons(s, k);
      }
    }
  }

  lemma WithoutCons(s: Sums, k: Key)
    requires s != [] && s[0].0 != k
    ensures Without(s, k) == [s[0]] + Without(s[1..], k)
    ensures KeysOf(Without(s, k)) == [s[0].0] + KeysOf(Without(s[1..], k))
  {
    assert ([s[0]] + Without(s[1..], k))[1..] == Without(s[1..], k);
  }

  /** Deleting a key adds no key. */
  lemma {:induction false} WithoutKeys(s: Sums, k: Key, y: Key)
    ensures y in KeysOf(Without(s, k)) ==> y in KeysOf(s)
  {
    if s != [] {
      WithoutKeys(s[1..], k, y);
      if s[0].0 != k {
        WithoutCons(s, k);
      }
    }
  }

  predicate HasKey(rows: seq<Row>, k: Key)
  {
    exists i :: 0 <= i < |rows| && KeyOf(rows[i]) == k
  }

  /** The bank amounts summed per key, keys in order of first occurrence. */
  function BankSums(rows: seq<Row>): Sums
    decreases |rows|
  {
    if rows == [] then []
    else
      var n := |rows| - 1;
      AddTo(BankSums(rows[..n]), KeyOf(rows[n]), rows[n].value)
  }

  /** The sum of the amounts of the rows with key `k`. */
  function KeySum(rows: seq<Row>, k: Key): real
    decreases |rows|
  {
    if rows == [] then 0.0
    else
      var n := |rows| - 1;
      KeySum(rows[..n], k) + (if KeyOf(rows[n]) == k then rows[n].value else 0.0)
  }

  lemma {:induction false} KeySumAbsent(rows: seq<Row>, k: Key)
    requires !HasKey(rows, k)
    ensures KeySum(rows, k) == 0.0
    decreases |rows|
  {
    hide KeyOf;
    if rows != [] {
      var n := |rows| - 1;
      forall i | 0 <= i < n
        ensures KeyOf(rows[..n][i]) != k
      {
        assert rows[..n][i] == rows[i];
      }
      KeySumAbsent(rows[..n], k);
    }
  }

  /** Each key of the bank table appears once, holding the sum of its rows'
    * amounts; no other key appears. */
  lemma {:induction false} BankSumsMeaning(rows: seq<Row>, k: Key)
    ensures DistinctKeys(BankSums(rows))
    ensures Lookup(BankSums(rows), k) == if HasKey(rows, k) then Some(KeySum(rows, k)) else None
    decreases |rows|
  {
    hide KeyOf;
    if rows != [] {
      hide AddTo, Lookup, DistinctKeys, KeysOf, HasKey;
      var n := |rows| - 1;
      var init := rows[..n];
      BankSumsMeaning(init, k);
      AddToKeys(BankSums(init), KeyOf(rows[n]), rows[n].value);
      AddToLookup(BankSums(init), KeyOf(rows[n]), rows[n].value, k);
      if !HasKey(init, k) {
        KeySumAbsent(init, k);
      }
      HasKeySnoc(rows, k);
    }
  }

  /** A key is among the rows when it is among all but the last, or is the
    * last row's. */
  lemma HasKeySnoc(rows: seq<Row>, k: Key)
    requires rows != []
    ensures HasKey(rows, k) <==> HasKey(rows[..|rows| - 1], k) || KeyOf(rows[|rows| - 1]) == k
  {
    hide KeyOf;
    var n := |rows| - 1;
    var init := rows[..n];
    if HasKey(rows, k) && KeyOf(rows[n]) != k {
      var i :| 0 <= i < |rows| && KeyOf(rows[i]) == k;
      assert init[i] == rows[i];
    }
    if HasKey(init, k) {
      var i :| 0 <= i < |init| && KeyOf(init[i]) == k;
      assert rows[i] == init[i];
    }
  }

  /** One line of the comparison table. */
  datatype ComparisonLine = ComparisonLine(date: string, description: string, bankValue: real, bookValue: real,
                                           difference: real, status: string)

  /** The keys no ledger row used, each as a bank-only pending line. */
  function BankOnly(s: Sums): (ls: seq<ComparisonLine>)
    ensures |ls| == |s|
    ensures forall i :: 0 <= i < |s| ==> ls[i] == ComparisonLine(s[i].0.0, s[i].0.1, s[i].1, 0.0, s[i].1, Pending)
  {
    seq(|s|, i requires 0 <= i < |s| => ComparisonLine(s[i].0.0, s[i].0.1, s[i].1, 0.0, s[i].1, Pending))
  }

  /** The line of ledger row `r` against the bank sum of its key. */
  function LineFor(sums: Sums, r: Row): (l: ComparisonLine)
    ensures LedgerLine(l, r)
    ensures l.bankValue == Lookup(sums, KeyOf(r)).GetOr(0.0)
  {
    var k := KeyOf(r);
    var bankValue := Lookup(sums, k).GetOr(0.0);
    var difference := bankValue - r.value;
    var status := if Abs(difference) < 0.01 then Reconciled else Pending;
    ComparisonLine(k.0, k.1, bankValue, r.value, difference, status)
  }

  /** The ledger pass: one line per ledger row against the bank sum of its
    * key, whose entry is then deleted; the keys left follow as bank-only
    * lines. */
  function Compare(sums: Sums, book: seq<Row>): (ls: seq<ComparisonLine>)
    ensures |ls| == |book| + |Remaining(sums, book)|
    decreases |book|
  {
    if book == [] then BankOnly(sums)
    else [LineFor(sums, book[0])] + Compare(Without(sums, KeyOf(book[0])), book[1..])
  }

  /** The bank sums left once every ledger row has taken its key. */
  function Remaining(sums: Sums, book: seq<Row>): Sums
    decreases |book|
  {
    if book == [] then sums else Remaining(Without(sums, KeyOf(book[0])), book[1..])
  }

  /** The line of ledger row `r`: its key and amount, the difference to the
    * bank value, reconciled exactly when that difference is under a cent. */
  predicate LedgerLine(l: ComparisonLine, r: Row)
  {
    (l.date, l.description) == KeyOf(r) && l.bookValue == r.value && l.difference == l.bankValue - r.value
    && (l.status == Reconciled <==> Abs(l.difference) < 0.01)
    && (l.status == Reconciled || l.status == Pending)
  }

  /** The table holds one line per ledger row, in order, then the bank-only
    * lines of the keys left. */
  lemma CompareShape(sums: Sums, book: seq<Row>)
    ensures forall i :: 0 <= i < |book| ==> LedgerLine(Compare(sums, book)[i], book[i])
    ensures Compare(sums, book)[|book|..] == BankOnly(Remaining(sums, book))
  {
    forall i | 0 <= i < |book| ensures LedgerLine(Compare(sums, book)[i], book[i]) {
      CompareLine(sums, book, i);
    }
    CompareTail(sums, book);
  }

  /** Line `i` is ledger row `i`'s. */
  lemma {:induction false} CompareLine(sums: Sums, book: seq<Row>, i: int)
    requires 0 <= i < |book|
    ensures LedgerLine(Compare(sums, book)[i], book[i])
    decreases |book|
  {
    hide KeyOf, Without, Lookup, BankOnly, LedgerLine, Compare, LineFor;
    CompareCons(sums, book);
    if i > 0 {
      CompareLine(Without(sums, KeyOf(book[0])), book[1..], i - 1);
      assert book[i] == book[1..][i - 1];
    }
  }

  /** After the ledger lines come the keys left over. */
  lemma {:induction false} CompareTail(sums: Sums, book: seq<Row>)
    ensures Compare(sums, book)[|book|..] == BankOnly(Remaining(sums, book))
    decreases |book|
  {
    hide KeyOf, Without, Lookup, BankOnly, LedgerLine, Compare, LineFor;
    if book == [] {
      CompareEmpty(sums);
    } else {
      CompareCons(sums, book);
      var rest := Compare(Without(sums, KeyOf(book[0])), book[1..]);
      CompareTail(Without(sums, KeyOf(book[0])), book[1..]);
      assert Compare(sums, book)[|book|..] == rest[|book| - 1..];
    }
  }

  /** Some earlier ledger row has the key of row `i`. */
  predicate UsedBefore(book: seq<Row>, i: int)
    requires 0 <= i < |book|
  {
    exists j :: 0 <= j < i && KeyOf(book[j]) == KeyOf(book[i])
  }

  /** The first ledger row with a key sees the whole bank sum of that key; a
    * later row with the same key sees zero, the entry being gone. */
  lemma {:induction false} FirstUseSeesSum(sums: Sums, book: seq<Row>, i: int)
    requires DistinctKeys(sums) && 0 <= i < |book|
    ensures Compare(sums, book)[i].bankValue
            == if UsedBefore(book, i) then 0.0 else Lookup(sums, KeyOf(book[i])).GetOr(0.0)
    decreases |book|
  {
    hide KeyOf;
    if i > 0 {
      var k0 := KeyOf(book[0]);
      var tail := book[1..];
      WithoutEffect(sums, k0, KeyOf(book[i]));
      FirstUseSeesSum(Without(sums, k0), tail, i - 1);
      assert Compare(sums, book)[i] == Compare(Without(sums, k0), tail)[i - 1];
      assert tail[i - 1] == book[i];
      assert UsedBefore(book, i) <==> KeyOf(book[i]) == k0 || UsedBefore(tail, i - 1) by {
        if UsedBefore(book, i) && KeyOf(book[i]) != k0 {
          var j :| 0 <= j < i && KeyOf(book[j]) == KeyOf(book[i]);
          assert tail[j - 1] == book[j];
        }
        if UsedBefore(tail, i - 1) {
          var j :| 0 <= j < i - 1 && KeyOf(tail[j]) == KeyOf(tail[i - 1]);
          assert book[j + 1] == tail[j];
        }
      }
    }
  }

  /** A bank key is left for the bank-only lines exactly when no ledger row
    * has it, with its full sum. */
  lemma {:induction false} RemainingMeaning(sums: Sums, book: seq<Row>, x: Key)
    requires DistinctKeys(sums)
    ensures DistinctKeys(Remaining(sums, book))
    ensures Lookup(Remaining(sums, book), x) == if HasKey(book, x) then None else Lookup(sums, x)
    decreases |book|
  {
    hide KeyOf;
    if book != [] {
      var k0 := KeyOf(book[0]);
      WithoutEffect(sums, k0, x);
      RemainingMeaning(Without(sums, k0), book[1..], x);
      assert HasKey(book, x) <==> k0 == x || HasKey(book[1..], x) by {
        if HasKey(book, x) && k0 != x {
          var j :| 0 <= j < |book| && KeyOf(book[j]) == x;
          assert book[1..][j - 1] == book[j];
        }
        if HasKey(book[1..], x) {
          var j :| 0 <= j < |book| - 1 && KeyOf(book[1..][j]) == x;
          assert book[j + 1] == book[1..][j];
        }
      }
    }
  }

  /** The comparison table, filled only when both tables are loaded. */
  function ComparisonTable(bank: Option<seq<Row>>, book: Option<seq<Row>>): Option<seq<ComparisonLine>>
  {
    if bank.Some? && book.Some? then Some(Compare(BankSums(bank.value), book.value)) else None
  }

  /** `preencher_tabela_conciliacao`: the sums dictionary is built in one
    * loop, the ledger rows compared and deleted from it in a second, and
    * the keys left listed in a third. */
  method FillComparison(bank: Option<seq<Row>>, book: Option<seq<Row>>) returns (lines: Option<seq<ComparisonLine>>)
    ensures lines == ComparisonTable(bank, book)
  {
    if bank.None? || book.None? {
      return None;
    }
    var sums := SumByKey(bank.value);
    var out, current := CompareLedger(sums, book.value);
    var rest := ListBankOnly(current);
    return Some(out + rest);
  }

  /** The first loop: `dict_banco[chave] += valor`. */
  method SumByKey(rows: seq<Row>) returns (sums: Sums)
    ensures sums == BankSums(rows)
  {
    hide KeyOf, AddTo;
    sums := [];
    for i := 0 to |rows|
      invariant sums == BankSums(rows[..i])
    {
      assert rows[..i + 1][..i] == rows[..i];
      sums := AddTo(sums, KeyOf(rows[i]), rows[i].value);
    }
    assert rows[..|rows|] == rows;
  }

  /** The second loop: a line per ledger row; the key is deleted if there. */
  method CompareLedger(sums: Sums, book: seq<Row>) returns (out: seq<ComparisonLine>, current: Sums)
    ensures out + BankOnly(current) == Compare(sums, book)
  {
    hide KeyOf, Without, Lookup, BankOnly, Compare;
    out := [];
    current := sums;
    for i := 0 to |book|
      invariant out + Compare(current, book[i..]) == Compare(sums, book)
    {
      var k := KeyOf(book[i]);
      var found := Lookup(current, k);
      var bankValue := if found.Some? then found.value else 0.0;
      var difference := bankValue - book[i].value;
      var status := if Abs(difference) < 0.01 then Reconciled else Pending;
      var line := ComparisonLine(k.0, k.1, bankValue, book[i].value, difference, status);
      assert line == LineFor(current, book[i]);
      CompareCons(current, book[i..]);
      assert book[i..][0] == book[i] && book[i..][1..] == book[i + 1..];
      out := out + [line];
      if found.Some? {
        current := Without(current, k);
      } else {
        WithoutAbsent(current, k);
      }
    }
    assert book[|book|..] == [];
    CompareEmpty(current);
  }

  /** A non-empty ledger starts with the line of its first row. */
  lemma CompareCons(sums: Sums, book: seq<Row>)
    requires book != []
    ensures Compare(sums, book) == [LineFor(sums, book[0])] + Compare(Without(sums, KeyOf(book[0])), book[1..])
  {
    hide KeyOf, LineFor, Without;
  }

  /** An empty ledger leaves every key bank-only. */
  lemma CompareEmpty(sums: Sums)
    ensures Compare(sums, []) == BankOnly(sums)
  {
    hide BankOnly;
  }

  /** The third loop: the keys left, as bank-only lines. */
  method ListBankOnly(current: Sums) returns (out: seq<ComparisonLine>)
    ensures out == BankOnly(current)
  {
    out := [];
    for j := 0 to |current|
      invariant out == BankOnly(current[..j])
    {
      out := out + [ComparisonLine(current[j].0.0, current[j].0.1, current[j].1, 0.0, current[j].1, Pending)];
    }
    assert current[..|current|] == current;
  }

  /** Deleting an absent key changes nothing. */
  lemma {:induction false} WithoutAbsent(s: Sums, k: Key)
    requires Lookup(s, k).None?
    ensures Without(s, k) == s
  {
    if s != [] {
      WithoutAbsent(s[1..], k);
    }
  }

  // ---------------------------------------------------------------------
  // The divergence report (`gerar_relatorio_divergencias`)

  /** The bank rows with no ledger row of exactly the same value and date,
    * in bank order; the report tags each of them `BANCO`. */
  function Divergences(bank: seq<Row>, book: seq<Row>): seq<Row>
  {
    Filter(bank, r => !HasTwin(book, r))
  }

  /** A bank row is reported exactly when the filter window would show it
    * as pending. */
  lemma DivergentIffPending(bank: seq<Row>, book: seq<Row>, r: Row)
    ensures r in Divergences(bank, book) <==> r in bank && StatusOf(r, Bank, Some(bank), Some(book)) == Pending
  {
    hide HasTwin;
    if r in Divergences(bank, book) {
      var i :| 0 <= i < |Divergences(bank, book)| && Divergences(bank, book)[i] == r;
    }
    if r in bank && !HasTwin(book, r) {
      var i :| 0 <= i < |bank| && bank[i] == r;
    }
  }

  /** The report is refused (`validar_dados`) unless both tables are loaded. */
  method ReportDivergences(bank: Option<seq<Row>>, book: Option<seq<Row>>) returns (report: Option<seq<Row>>)
    ensures report == if bank.Some? && book.Some? then Some(Divergences(bank.value, book.value)) else None
  {
    if bank.None? || book.None? {
      return None;
    }
    hide HasTwin, Filter;
    var banks, books := bank.value, book.value;
    var found: seq<Row> := [];
    for i := 0 to |banks|
      invariant found == Filter(banks[..i], r => !HasTwin(books, r))
    {
      assert banks[..i + 1] == banks[..i] + [banks[i]];
      FilterSnoc(banks[..i], banks[i], r => !HasTwin(books, r));
      var matched := HasTwin(books, banks[i]);
      if !matched {
        found := found + [banks[i]];
      }
    }
    assert banks[..|banks|] == banks;
    return Some(found);
  }

  // ---------------------------------------------------------------------
  // The audit table (`preencher_tabela_auditoria`)

  const High := "ALTO"
  const Medium := "MÉDIO"
  const Low := "BAIXO"

  /** The risk band of an amount. */
  function Risk(v: real): string
  {
    if v > 10000.0 then High else if v > 5000.0 then Medium else Low
  }

  /** The three bands are the three intervals of the amount. */
  lemma RiskBands(v: real)
    ensures Risk(v) == High <==> v > 10000.0
    ensures Risk(v) == Medium <==> 5000.0 < v <= 10000.0
    ensures Risk(v) == Low <==> v <= 5000.0
  {
    assert High != Medium && High != Low && Medium != Low;
  }

  /** How high a band is. */
  function Level(band: string): nat
  {
    if band == High then 2 else if band == Medium then 1 else 0
  }

  /** A larger amount never falls in a lower band; in particular every
    * negative amount is `BAIXO`, however large its magnitude. */
  lemma RiskMonotone(v: real, w: real)
    requires v <= w
    ensures Level(Risk(v)) <= Level(Risk(w))
    ensures w < 0.0 ==> Risk(w) == Low
  {
    assert High != Medium && High != Low && Medium != Low;
  }

  datatype AuditLine = AuditLine(date: string, description: string, value: real, origin: string,
                                 status: string, risk: string)

  /** One line per row of a table, every one pending. */
  function AuditLines(rows: seq<Row>, origin: string): (ls: seq<AuditLine>)
  {
    seq(|rows|, i requires 0 <= i < |rows| =>
      AuditLine(FormatDMY(rows[i].date), rows[i].description, rows[i].value, origin, Pending, Risk(rows[i].value)))
  }

  /** The bank rows, then the ledger rows; nothing unless both are loaded. */
  function AuditTable(bank: Option<seq<Row>>, book: Option<seq<Row>>): Option<seq<AuditLine>>
  {
    if bank.Some? && book.Some? then Some(AuditLines(bank.value, Bank) + AuditLines(book.value, Book)) else None
  }

  /** Each line of the table is a row of its own table, pending, with the
    * band of its amount. */
  lemma AuditTableShape(bank: seq<Row>, book: seq<Row>, i: int)
    requires 0 <= i < |bank| + |book|
    ensures AuditTable(Some(bank), Some(book)).Some?
    ensures var l := AuditTable(Some(bank), Some(book)).value[i];
            var r := if i < |bank| then bank[i] else book[i - |bank|];
            l.origin == (if i < |bank| then Bank else Book) && l.status == Pending
            && l.value == r.value && l.description == r.description && l.date == FormatDMY(r.date)
            && l.risk == Risk(r.value)
  {
    hide FormatDMY;
  }

  method FillAudit(bank: Option<seq<Row>>, book: Option<seq<Row>>) returns (lines: Option<seq<AuditLine>>)
    ensures lines == AuditTable(bank, book)
  {
    hide FormatDMY, Risk;
    if bank.None? || book.None? {
      return None;
    }
    var out: seq<AuditLine> := [];
    for i := 0 to |bank.value|
      invariant out == AuditLines(bank.value[..i], Bank)
    {
      var r := bank.value[i];
      out := out + [AuditLine(FormatDMY(r.date), r.description, r.value, Bank, Pending, Risk(r.value))];
    }
    assert bank.value[..|bank.value|] == bank.value;
    var fromBank := out;
    for j := 0 to |book.value|
      invariant out == fromBank + AuditLines(book.value[..j], Book)
    {
      var r := book.value[j];
      out := out + [AuditLine(FormatDMY(r.date), r.description, r.value, Book, Pending, Risk(r.value))];
    }
    assert book.value[..|book.value|] == book.value;
    return Some(out);
  }

  // ---------------------------------------------------------------------
  // Importing ledger entries (`importar_lancamentos_contabeis`)

  /** The columns an imported file must end up with. */
  const Required: seq<string> := ["data", "descricao", "valor"]

  /** The names tried, in order, for a missing required column. */
  function Aliases(column: string): seq<string>
  {
    if column == "data" then ["data", "date", "dt", "data_lancamento", "data_lançamento"]
    else if column == "descricao" then ["descricao", "descrição", "desc", "historico", "histórico", "narrativa"]
    else if column == "valor" then ["valor", "value", "montante", "quantia", "amount"]
    else []
  }

  /** No alias of one required column is another required column's name
    * or one of its aliases. */
  lemma AliasesDisjoint(c: string, d: string, a: string)
    requires c in Required && d in Required && a in Aliases(c)
    ensures a in Required ==> a == c
    ensures a in Aliases(d) ==> c == d
  {
    assert c == "data" || c == "descricao" || c == "valor";
    assert d == "data" || d == "descricao" || d == "valor";
  }

  /** The required columns not among `columns`, in the required order. */
  function Missing(columns: seq<string>): seq<string>
  {
    Filter(Required, c => c !in columns)
  }

  /** The first alias that is a column. */
  function FirstPresent(aliases: seq<string>, columns: seq<string>): (r: Option<string>)
    ensures r.Some? ==> exists i :: (0 <= i < |aliases| && aliases[i] == r.value && r.value in columns
                                     && forall j :: 0 <= j < i ==> aliases[j] !in columns)
    ensures r.None? ==> forall a :: a in aliases ==> a !in columns
  {
    if aliases == [] then None
    else if aliases[0] in columns then Some(aliases[0])
    else
      var r := FirstPresent(aliases[1..], columns);
      assert r.Some? ==> exists i :: (0 < i < |aliases| && aliases[i] == r.value && r.value in columns
                                      && forall j :: 0 <= j < i ==> aliases[j] !in columns) by {
        if r.Some? {
          var i :| 0 <= i < |aliases[1..]| && aliases[1..][i] == r.value && r.value in columns
                   && forall j :: 0 <= j < i ==> aliases[1..][j] !in columns;
          assert aliases[i + 1] == r.value;
          forall j | 0 <= j < i + 1 ensures aliases[j] !in columns {
            if j > 0 { assert aliases[j] == aliases[1..][j - 1]; }
          }
        }
      }
      r
  }

  /** `rename(columns={from: to})`: every column called `from` is renamed. */
  function Rename(columns: seq<string>, from: string, to: string): (r: seq<string>)
    ensures forall x :: x in r <==> ((x in columns && x != from) || (x == to && from in columns))
  {
    var r := seq(|columns|, i requires 0 <= i < |columns| => if columns[i] == from then to else columns[i]);
    assert forall x :: x in r ==> (x in columns && x != from) || (x == to && from in columns) by {
      forall x | x in r ensures (x in columns && x != from) || (x == to && from in columns) {
        var i :| 0 <= i < |r| && r[i] == x;
      }
    }
    assert forall x :: (x in columns && x != from) ==> x in r by {
      forall x | x in columns && x != from ensures x in r {
        var i :| 0 <= i < |columns| && columns[i] == x;
        assert r[i] == x;
      }
    }
    assert from in columns ==> to in r by {
      if from in columns {
        var i :| 0 <= i < |columns| && columns[i] == from;
        assert r[i] == to;
      }
    }
    r
  }

  /** One missing column: its first alias present, if any, is renamed in. */
  function RenameFirst(columns: seq<string>, c: string): seq<string>
  {
    match FirstPresent(Aliases(c), columns)
    case None => columns
    case Some(a) => Rename(columns, a, c)
  }

  /** The renames for the missing columns, in order. */
  function RenameAll(columns: seq<string>, missing: seq<string>): seq<string>
    decreases |missing|
  {
    if missing == [] then columns else RenameAll(RenameFirst(columns, missing[0]), missing[1..])
  }

  datatype Mapping = Mapped(columns: seq<string>) | MissingColumns(names: seq<string>)

  /** The columns after mapping, or the required columns still missing. */
  function MapColumns(columns: seq<string>): Mapping
  {
    var missing := Missing(columns);
    if missing == [] then Mapped(columns)
    else
      var renamed := RenameAll(columns, missing);
      if Missing(renamed) == [] then Mapped(renamed) else MissingColumns(Missing(renamed))
  }

  /** A required column can be had: it is there, or one of its aliases is. */
  predicate Available(columns: seq<string>, c: string)
  {
    c in columns || exists a :: a in Aliases(c) && a in columns
  }

  /** Renaming one missing column in adds it and disturbs no other required
    * column or its aliases. */
  lemma RenameFirstEffect(columns: seq<string>, d: string, c: string)
    requires d in Required && d !in columns && c in Required
    ensures c in RenameFirst(columns, d) <==> c in columns || (c == d && Available(columns, d))
    ensures c != d ==> (Available(RenameFirst(columns, d), c) <==> Available(columns, c))
  {
    match FirstPresent(Aliases(d), columns)
    case None =>
    case Some(a) =>
      var r := Rename(columns, a, d);
      AliasesDisjoint(d, c, a);
      if c != d {
        forall b | b in Aliases(c) ensures b in r <==> b in columns {
          AliasesDisjoint(c, d, b);
        }
      }
  }

  /** After the renames, a required column is there exactly when it was, or
    * was missing and had an alias. */
  lemma {:induction false} RenameAllEffect(columns: seq<string>, missing: seq<string>, c: string)
    requires forall x :: x in missing ==> x in Required && x !in columns
    requires forall i, j :: 0 <= i < j < |missing| ==> missing[i] != missing[j]
    requires c in Required
    ensures c in RenameAll(columns, missing) <==> c in columns || (c in missing && Available(columns, c))
    decreases |missing|
  {
    if missing != [] {
      var d := missing[0];
      var next := RenameFirst(columns, d);
      RenameFirstEffect(columns, d, c);
      forall x | x in missing[1..] ensures x in Required && x !in next {
        RenameFirstEffect(columns, d, x);
      }
      RenameAllEffect(next, missing[1..], c);
      if c in missing[1..] {
        assert c != d;
      }
      if c == d {
        assert c !in missing[1..];
      }
    }
  }

  /** The missing list is a list of distinct required names. */
  lemma MissingDistinct(columns: seq<string>)
    ensures forall x :: x in Missing(columns) ==> x in Required && x !in columns
    ensures forall i, j :: 0 <= i < j < |Missing(columns)| ==> Missing(columns)[i] != Missing(columns)[j]
  {
    var p := c => c !in columns;
    FilterCons(Required, p);
    FilterCons(Required[1..], p);
    FilterCons(Required[2..], p);
    assert Required[2..][1..] == [];
  }

  /** The mapping succeeds exactly when every required column is there or
    * has an alias, and then every required column is there. */
  lemma MapColumnsIff(columns: seq<string>)
    ensures MapColumns(columns).Mapped? <==> forall c :: c in Required ==> Available(columns, c)
    ensures MapColumns(columns).Mapped? ==> forall c :: c in Required ==> c in MapColumns(columns).columns
    ensures MapColumns(columns).MissingColumns? ==>
              MapColumns(columns).names != [] && forall c :: c in MapColumns(columns).names ==> c in Required && !Available(columns, c)
  {
    hide RenameAll;
    var missing := Missing(columns);
    MissingDistinct(columns);
    if missing != [] {
      var renamed := RenameAll(columns, missing);
      forall c | c in Required ensures c in renamed <==> Available(columns, c) {
        RenameAllEffect(columns, missing, c);
      }
    }
  }

  /** The mapping step as the import runs it: for each missing column the
    * aliases are tried in order and the first one present is renamed in. */
  method MapColumnsByAlias(columns: seq<string>) returns (m: Mapping)
    ensures m == MapColumns(columns)
  {
    hide RenameAll, RenameFirst, Missing, MapColumns, Aliases;
    MapColumnsDefinition(columns);
    var missing := Missing(columns);
    if missing == [] {
      return Mapped(columns);
    }
    var current := columns;
    for i := 0 to |missing|
      invariant RenameAll(current, missing[i..]) == RenameAll(columns, missing)
    {
      var before := current;
      current := RenameFirstAlias(current, missing[i]);
      assert missing[i..][0] == missing[i] && missing[i..][1..] == missing[i + 1..];
      RenameAllCons(before, missing[i..]);
    }
    assert missing[|missing|..] == [];
    RenameAllCons(current, []);
    var still := Missing(current);
    if still == [] {
      return Mapped(current);
    }
    return MissingColumns(still);
  }

  lemma MapColumnsDefinition(columns: seq<string>)
    ensures MapColumns(columns)
            == if Missing(columns) == [] then Mapped(columns)
               else if Missing(RenameAll(columns, Missing(columns))) == [] then Mapped(RenameAll(columns, Missing(columns)))
               else MissingColumns(Missing(RenameAll(columns, Missing(columns))))
  {
    hide RenameAll, Missing;
  }

  /** The inner loop: the aliases of `c` in order, renaming the first one
    * present and stopping there. */
  method RenameFirstAlias(columns: seq<string>, c: string) returns (renamed: seq<string>)
    ensures renamed == RenameFirst(columns, c)
  {
    hide Rename, FirstPresent;
    var aliases := Aliases(c);
    var j := 0;
    while j < |aliases|
      invariant 0 <= j <= |aliases|
      invariant FirstPresent(aliases[j..], columns) == FirstPresent(aliases, columns)
    {
      FirstPresentCons(aliases[j..], columns);
      assert aliases[j..][0] == aliases[j] && aliases[j..][1..] == aliases[j + 1..];
      if aliases[j] in columns {
        return Rename(columns, aliases[j], c);
      }
      j := j + 1;
    }
    FirstPresentCons(aliases[j..], columns);
    return columns;
  }

  lemma FirstPresentCons(aliases: seq<string>, columns: seq<string>)
    ensures aliases == [] ==> FirstPresent(aliases, columns) == None
    ensures aliases != [] ==> FirstPresent(aliases, columns)
                              == if aliases[0] in columns then Some(aliases[0]) else FirstPresent(aliases[1..], columns)
  {
  }

  lemma RenameAllCons(columns: seq<string>, missing: seq<string>)
    ensures missing == [] ==> RenameAll(columns, missing) == columns
    ensures missing != [] ==> RenameAll(columns, missing) == RenameAll(RenameFirst(columns, missing[0]), missing[1..])
  {
    hide RenameFirst;
  }

  /** A character the amount cleaning keeps: a digit, a point or a comma. */
  predicate AmountChar(c: char)
  {
    '0' <= c <= '9' || c == '.' || c == ','
  }

  /** A textual `valor` column before `to_numeric`: every character other
    * than a digit, a point or a comma is deleted, then commas become
    * points. */
  function CleanAmount(s: string): string
  {
    ReplaceAll(Filter(s, AmountChar), ",", ".")
  }

  /** The cleaned text holds only digits and points: a minus sign is
    * deleted with the rest, so no textual amount is read as negative. */
  lemma CleanAmountUnsigned(s: string)
    ensures forall i :: 0 <= i < |CleanAmount(s)| ==> '0' <= CleanAmount(s)[i] <= '9' || CleanAmount(s)[i] == '.'
    ensures '-' !in CleanAmount(s)
  {
    hide Filter, ReplaceAll;
    var kept := Filter(s, AmountChar);
    ReplaceChar(kept, ',', '.');
    assert forall i :: 0 <= i < |kept| ==> AmountChar(kept[i]);
  }

  /** A debit written "-50,00" is read as 50. */
  lemma CleanAmountDropsSign()
    ensures CleanAmount("-50,00") == "50.00"
  {
    hide Filter, ReplaceAll, AmountChar;
    SignFiltered();
    CommaReplaced();
  }

  lemma SignFiltered()
    ensures Filter("-50,00", AmountChar) == "50,00"
  {
    hide Filter;
    var s := "-50,00";
    var t := "50,00";
    FilterCons(s, AmountChar);
    assert s[1..] == t;
    assert forall i :: 0 <= i < |t| ==> AmountChar(t[i]);
    FilterAll(t, AmountChar);
  }

  lemma CommaReplaced()
    ensures ReplaceAll("50,00", ",", ".") == "50.00"
  {
    hide ReplaceAll;
    var t := "50,00";
    ReplaceChar(t, ',', '.');
    var u := seq(|t|, i requires 0 <= i < |t| => if t[i] == ',' then '.' else t[i]);
    assert u[0] == '5' && u[1] == '0' && u[2] == '.' && u[3] == '0' && u[4] == '0';
    assert u == "50.00";
  }

  // Imported entries

  /** An imported ledger row: its date, description and amount, and the
    * cells of its other columns by column name. */
  datatype Entry = Entry(row: Row, cells: map<string, string>)

  /** An imported table: its column names and its rows. */
  datatype Frame = Frame(columns: seq<string>, entries: seq<Entry>)

  function Cell(e: Entry, name: string): Option<string>
  {
    if name in e.cells then Some(e.cells[name]) else None
  }

  /** A column holding `value` in every row, added only when absent. */
  function AddColumn(f: Frame, name: string, value: string): Frame
  {
    if name in f.columns then f
    else Frame(f.columns + [name],
               seq(|f.entries|, i requires 0 <= i < |f.entries| => f.entries[i].(cells := f.entries[i].cells[name := value])))
  }

  /** `origem = 'LIVRO'` and `status = 'PENDENTE'` where the file has none. */
  function WithDefaults(f: Frame): Frame
  {
    AddColumn(AddColumn(f, "origem", Book), "status", Pending)
  }

  /** The defaults add the two columns, fill them only where they were
    * absent, and leave every row and every other cell alone. */
  lemma DefaultsEffect(f: Frame, i: int, name: string)
    requires 0 <= i < |f.entries|
    ensures var g := WithDefaults(f);
            |g.entries| == |f.entries| && g.entries[i].row == f.entries[i].row
            && "origem" in g.columns && "status" in g.columns
            && g.columns[..|f.columns|] == f.columns
            && Cell(g.entries[i], "origem") == (if "origem" in f.columns then Cell(f.entries[i], "origem") else Some(Book))
            && Cell(g.entries[i], "status") == (if "status" in f.columns then Cell(f.entries[i], "status") else Some(Pending))
            && (name != "origem" && name != "status" ==> Cell(g.entries[i], name) == Cell(f.entries[i], name))
  {
    var h := AddColumn(f, "origem", Book);
    assert "origem" in h.columns;
    assert h.columns[..|f.columns|] == f.columns;
    var g := AddColumn(h, "status", Pending);
    assert g.columns[..|h.columns|] == h.columns;
    assert g.columns[..|f.columns|] == h.columns[..|f.columns|];
  }

  /** The (data, descricao, valor) keys of a table's entries. */
  function KeysIn(entries: seq<Entry>): set<Row>
  {
    set i | 0 <= i < |entries| :: entries[i].row
  }

  /** The imported entries whose key is not already in the book. */
  function Fresh(imported: seq<Entry>, existing: set<Row>): seq<Entry>
  {
    Filter(imported, (e: Entry) => e.row !in existing)
  }

  datatype Outcome = Refused(missing: seq<string>) | Loaded(count: nat) | NothingNew | Appended(count: nat)

  /** The outcome of importing `f` into `book`, and the book afterwards. */
  function Imported(book: Option<seq<Entry>>, f: Frame): (Outcome, Option<seq<Entry>>)
  {
    match MapColumns(f.columns)
    case MissingColumns(names) => (Refused(names), book)
    case Mapped(columns) =>
      var g := WithDefaults(Frame(columns, f.entries));
      if book.None? then (Loaded(|g.entries|), Some(g.entries))
      else
        var added := Fresh(g.entries, KeysIn(book.value));
        if added == [] then (NothingNew, book) else (Appended(|added|), Some(book.value + added))
  }

  /** An import never drops or reorders what the book held: it is refused,
    * or leaves the book as it was, or appends after it. */
  lemma ImportKeepsBook(book: Option<seq<Entry>>, f: Frame)
    ensures var (outcome, after) := Imported(book, f);
            (outcome.Refused? || outcome.NothingNew? ==> after == book)
            && (book.Some? ==> after.Some? && after.value[..|book.value|] == book.value)
            && (outcome.Refused? <==> exists c :: c in Required && !Available(f.columns, c))
  {
    hide WithDefaults, Fresh, KeysIn, Missing, RenameAll, Aliases, Available;
    MapColumnsIff(f.columns);
    var (outcome, after) := Imported(book, f);
    if book.Some? && outcome.Appended? {
      assert after.value[..|book.value|] == book.value;
    }
  }

  /** The appended entries are exactly the imported ones, in file order,
    * whose key the book did not hold, and there is at least one. */
  lemma ImportAppendsFresh(book: seq<Entry>, f: Frame, e: Entry)
    requires Imported(Some(book), f).0.Appended?
    ensures var after := Imported(Some(book), f).1.value;
            var g := WithDefaults(Frame(MapColumns(f.columns).columns, f.entries));
            |after| > |book|
            && (e in after[|book|..] <==> e in g.entries && e.row !in KeysIn(book))
  {
    hide WithDefaults, KeysIn, Filter;
    var after := Imported(Some(book), f).1.value;
    var g := WithDefaults(Frame(MapColumns(f.columns).columns, f.entries));
    assert after[|book|..] == Fresh(g.entries, KeysIn(book));
    FilterMember(g.entries, (x: Entry) => x.row !in KeysIn(book), e);
  }

  /** Membership of a filtered sequence. */
  lemma FilterMember<T>(s: seq<T>, p: T -> bool, x: T)
    ensures x in Filter(s, p) <==> x in s && p(x)
  {
    if x in s && p(x) {
      var i :| 0 <= i < |s| && s[i] == x;
    }
    if x in Filter(s, p) {
      var i :| 0 <= i < |Filter(s, p)| && Filter(s, p)[i] == x;
    }
  }

  /** `dados_livro` of the main window. */
  class LedgerBook {
    var book: Option<seq<Entry>>

    constructor()
      ensures book == None
    {
      book := None;
    }

    /** `importar_lancamentos_contabeis` once the file is read. */
    method Import(f: Frame) returns (outcome: Outcome)
      modifies this
      ensures (outcome, book) == Imported(old(book), f)
    {
      hide WithDefaults, KeysIn, MapColumns;
      var mapping := MapColumnsByAlias(f.columns);
      if mapping.MissingColumns? {
        return Refused(mapping.names);
      }
      var g := WithDefaults(Frame(mapping.columns, f.entries));
      if book.None? {
        book := Some(g.entries);
        return Loaded(|g.entries|);
      }
      var existing := ExistingKeys(book.value);
      var added := Filter(g.entries, (e: Entry) => e.row !in existing);
      assert added == Fresh(g.entries, KeysIn(book.value));
      if added == [] {
        return NothingNew;
      }
      book := Some(book.value + added);
      return Appended(|added|);
    }
  }

  /** The loop collecting the keys already in the book. */
  method ExistingKeys(entries: seq<Entry>) returns (keys: set<Row>)
    ensures keys == KeysIn(entries)
  {
    keys := {};
    for i := 0 to |entries|
      invariant keys == KeysIn(entries[..i])
    {
      assert KeysIn(entries[..i + 1]) == KeysIn(entries[..i]) + {entries[i].row} by {
        assert forall j :: 0 <= j < i ==> entries[..i + 1][j] == entries[..i][j];
      }
      keys := keys + {entries[i].row};
    }
    assert entries[..|entries|] == entries;
  }
}
