// The double-entry ledger of `ContabilidadeAvancada` (contabilidade.py):
// keyword classification of descriptions into accounts, balanced-entry
// registration, registration of depreciable assets, the deduplicating
// conversion of imported bank and ledger rows into entries, per-account
// balances with the net result, and yearly depreciation.
module Ledger {
  import opened Util
  import opened Text
  import opened Calendar

  /** Entry ids such as "M3", "B4" or "L7": a prefix letter and a number. */
  datatype EntryId = EntryId(prefix: char, number: nat)

  datatype Movement = Movement(account: string, debit: real, credit: real)

  datatype Entry = Entry(id: EntryId, date: Date, desc: string, origin: string, movements: seq<Movement>)

  /** A row of the imported bank or ledger table. */
  datatype Imported = Imported(date: Date, desc: string, amount: real)

  function TotalDebit(ms: seq<Movement>): real
  {
    if ms == [] then 0.0 else ms[0].debit + TotalDebit(ms[1..])
  }

  function TotalCredit(ms: seq<Movement>): real
  {
    if ms == [] then 0.0 else ms[0].credit + TotalCredit(ms[1..])
  }

  /** The check of `registrar_lancamento`: it raises when the totals differ by more than 0.01. */
  predicate Balanced(ms: seq<Movement>)
  {
    Abs(TotalDebit(ms) - TotalCredit(ms)) <= 0.01
  }

  /** The two movements every generated entry has: `amount` debited to one
    * account and credited to another. */
  function DoubleEntry(debitAccount: string, creditAccount: string, amount: real): (ms: seq<Movement>)
    ensures |ms| == 2 && TotalDebit(ms) == amount && TotalCredit(ms) == amount
    ensures Balanced(ms)
  {
    var ms := [Movement(debitAccount, amount, 0.0), Movement(creditAccount, 0.0, amount)];
    assert ms[1..][1..] == [];
    assert TotalDebit(ms[1..]) == 0.0 && TotalCredit(ms[1..]) == amount;
    ms
  }

  // ---------------------------------------------------------------------
  // Keyword classification (determinar_conta_debito / determinar_conta_credito)

  const SalesTerms: seq<string> := ["VENDA", "RECEITA", "FATURAMENTO"]
  const TransferTerms: seq<string> := ["TRANSFERÊNCIA", "TRANSFERENCIA", "TED", "DOC"]
  const PayrollTerms: seq<string> := ["SALÁRIO", "SALARIO", "FOLHA", "PAGAMENTO"]
  const PurchaseTerms: seq<string> := ["COMPRA", "FORNECEDOR", "MERCADORIA"]
  const TaxTerms: seq<string> := ["IMPOSTO", "TAXA", "TRIBUTO"]
  const UtilityTerms: seq<string> := ["ALUGUEL", "ENERGIA", "ÁGUA", "AGUA", "TELEFONE"]

  predicate MentionsAny(text: string, terms: seq<string>)
  {
    exists k :: 0 <= k < |terms| && Contains(text, terms[k])
  }

  function DebitAccount(desc: string): (r: string)
    ensures r in ["45", "43", "64", "21", "63", "62"]
  {
    var u := Upper(desc);
    if MentionsAny(u, SalesTerms) then "45"
    else if MentionsAny(u, TransferTerms) then "43"
    else if MentionsAny(u, PayrollTerms) then "64"
    else if MentionsAny(u, PurchaseTerms) then "21"
    else if MentionsAny(u, TaxTerms) then "63"
    else if MentionsAny(u, UtilityTerms) then "62"
    else "43"
  }

  function CreditAccount(desc: string): (r: string)
    ensures r in ["71", "37", "36", "32", "34"]
  {
    var u := Upper(desc);
    if MentionsAny(u, SalesTerms) then "71"
    else if MentionsAny(u, TransferTerms) then "37"
    else if MentionsAny(u, PayrollTerms) then "36"
    else if MentionsAny(u, PurchaseTerms) then "32"
    else if MentionsAny(u, TaxTerms) then "34"
    else if MentionsAny(u, UtilityTerms) then "32"
    else "71"
  }

  /** The keyword rules in the order both classifiers try them. */
  const Rules: seq<seq<string>> := [SalesTerms, TransferTerms, PayrollTerms, PurchaseTerms, TaxTerms, UtilityTerms]
  const DebitByRule: seq<string> := ["45", "43", "64", "21", "63", "62", "43"]
  const CreditByRule: seq<string> := ["71", "37", "36", "32", "34", "32", "71"]

  /** The first rule from `k` on whose terms `text` mentions; 6 when none does. */
  function FirstRule(text: string, k: nat): (r: nat)
    requires k <= 6
    ensures k <= r <= 6
    ensures r < 6 ==> MentionsAny(text, Rules[r])
    ensures forall j :: k <= j < r ==> !MentionsAny(text, Rules[j])
    decreases 6 - k
  {
    if k == 6 then 6 else if MentionsAny(text, Rules[k]) then k else FirstRule(text, k + 1)
  }

  /** Both classifiers pick their account from the same rule: the first one
    * the upper-cased description matches, with the default as rule 6. */
  lemma AccountsFollowFirstRule(desc: string)
    ensures DebitAccount(desc) == DebitByRule[FirstRule(Upper(desc), 0)]
    ensures CreditAccount(desc) == CreditByRule[FirstRule(Upper(desc), 0)]
  {
    var u := Upper(desc);
    var r := FirstRule(u, 0);
    assert r < 6 ==> MentionsAny(u, Rules[r]);
    assert forall j :: 0 <= j < r ==> !MentionsAny(u, Rules[j]);
  }

  /** Classification does not depend on letter case. */
  lemma ClassificationIgnoresCase(desc: string)
    ensures DebitAccount(Lower(desc)) == DebitAccount(desc)
    ensures CreditAccount(Lower(desc)) == CreditAccount(desc)
  {
    UpperOfLower(desc);
  }

  // ---------------------------------------------------------------------
  // Entry numbering

  /** Every entry is numbered by its position: ids "M"/"B"/"L" + (index + 1). */
  predicate NumberedByPosition(es: seq<Entry>)
  {
    forall i :: 0 <= i < |es| ==> es[i].id.number == i + 1
  }

  /** Position numbering makes ids unique across the whole ledger, whatever
    * the prefixes. */
  lemma PositionNumbersAreUnique(es: seq<Entry>, i: int, j: int)
    requires NumberedByPosition(es) && 0 <= i < j < |es|
    ensures es[i].id != es[j].id
  {
  }

  // ---------------------------------------------------------------------
  // Deduplicating conversion (converter_dados_para_lancamentos)

  /** The deduplication key: calendar date, description and amount (for an
    * existing entry, the sum of its debits). */
  datatype Key = Key(date: Date, desc: string, amount: real)

  function RowKey(r: Imported): Key { Key(r.date, r.desc, r.amount) }

  function EntryKey(e: Entry): Key { Key(e.date, e.desc, TotalDebit(e.movements)) }

  function KeysOf(es: seq<Entry>): set<Key>
  {
    if es == [] then {} else KeysOf(es[..|es| - 1]) + {EntryKey(es[|es| - 1])}
  }

  function RowKeys(rows: seq<Imported>): set<Key>
  {
    if rows == [] then {} else {RowKey(rows[0])} + RowKeys(rows[1..])
  }

  /** The entry generated for an imported row. */
  function ImportedEntry(prefix: char, number: nat, row: Imported, origin: string): (e: Entry)
    ensures EntryKey(e) == RowKey(row)
  {
    Entry(EntryId(prefix, number), row.date, row.desc, origin,
          DoubleEntry(DebitAccount(row.desc), CreditAccount(row.desc), row.amount))
  }

  datatype Conversion = Conversion(entries: seq<Entry>, known: set<Key>)

  /** One table's rows, in order: a row whose key is known is skipped,
    * otherwise an entry numbered by its position is appended and its key
    * becomes known. */
  function ConvertRows(c: Conversion, rows: seq<Imported>, prefix: char, origin: string): Conversion
    decreases |rows|
  {
    if rows == [] then c
    else
      var key := RowKey(rows[0]);
      if key in c.known then ConvertRows(c, rows[1..], prefix, origin)
      else ConvertRows(Conversion(c.entries + [ImportedEntry(prefix, |c.entries| + 1, rows[0], origin)], c.known + {key}),
                       rows[1..], prefix, origin)
  }

  lemma ConvertRowsHead(c: Conversion, rows: seq<Imported>, prefix: char, origin: string)
    requires rows != []
    ensures ConvertRows(c, rows, prefix, origin)
      == if RowKey(rows[0]) in c.known then ConvertRows(c, rows[1..], prefix, origin)
         else ConvertRows(Conversion(c.entries + [ImportedEntry(prefix, |c.entries| + 1, rows[0], origin)],
                                     c.known + {RowKey(rows[0])}), rows[1..], prefix, origin)
  {
  }

  /** Bank rows ("B", origin BANCO) and then ledger rows ("L", origin LIVRO),
    * against the keys of the existing entries. */
  function Converted(es: seq<Entry>, bank: Option<seq<Imported>>, book: Option<seq<Imported>>): seq<Entry>
  {
    var c0 := Conversion(es, KeysOf(es));
    var c1 := if bank.Some? then ConvertRows(c0, bank.value, 'B', "BANCO") else c0;
    var c2 := if book.Some? then ConvertRows(c1, book.value, 'L', "LIVRO") else c1;
    c2.entries
  }

  lemma {:induction false} KeysOfAppend(es: seq<Entry>, e: Entry)
    ensures KeysOf(es + [e]) == KeysOf(es) + {EntryKey(e)}
  {
    assert (es + [e])[..|es|] == es;
  }

  /** A conversion only appends; every appended entry is balanced, comes from
    * the table being converted and continues the position numbering. */
  lemma {:induction false} ConvertRowsAppends(c: Conversion, rows: seq<Imported>, prefix: char, origin: string)
    ensures var r := ConvertRows(c, rows, prefix, origin);
      && |r.entries| >= |c.entries| && r.entries[..|c.entries|] == c.entries
      && (NumberedByPosition(c.entries) ==> NumberedByPosition(r.entries))
      && (forall k :: |c.entries| <= k < |r.entries| ==>
            r.entries[k].id.prefix == prefix && r.entries[k].origin == origin
            && TotalDebit(r.entries[k].movements) == TotalCredit(r.entries[k].movements))
    decreases |rows|
  {
    if rows != [] {
      var key := RowKey(rows[0]);
      if key in c.known {
        ConvertRowsAppends(c, rows[1..], prefix, origin);
      } else {
        var e := ImportedEntry(prefix, |c.entries| + 1, rows[0], origin);
        var c' := Conversion(c.entries + [e], c.known + {key});
        ConvertRowsAppends(c', rows[1..], prefix, origin);
        var r := ConvertRows(c', rows[1..], prefix, origin);
        assert r.entries[..|c'.entries|] == c'.entries;
        assert r.entries[..|c.entries|] == c'.entries[..|c.entries|];
        assert r.entries[|c.entries|] == e;
      }
    }
  }

  /** Afterwards every row's key is known, and the known keys are exactly
    * the keys of the entries. */
  lemma {:induction false} ConvertRowsKeys(c: Conversion, rows: seq<Imported>, prefix: char, origin: string)
    requires c.known == KeysOf(c.entries)
    ensures var r := ConvertRows(c, rows, prefix, origin);
      r.known == c.known + RowKeys(rows) && r.known == KeysOf(r.entries)
    decreases |rows|
  {
    if rows != [] {
      var key := RowKey(rows[0]);
      assert RowKeys(rows) == {key} + RowKeys(rows[1..]);
      if key in c.known {
        ConvertRowsKeys(c, rows[1..], prefix, origin);
      } else {
        var e := ImportedEntry(prefix, |c.entries| + 1, rows[0], origin);
        KeysOfAppend(c.entries, e);
        ConvertRowsKeys(Conversion(c.entries + [e], c.known + {key}), rows[1..], prefix, origin);
      }
    }
  }

  /** Exactly one entry is appended per distinct key that was not yet known. */
  lemma {:induction false} ConvertRowsCount(c: Conversion, rows: seq<Imported>, prefix: char, origin: string)
    ensures |ConvertRows(c, rows, prefix, origin).entries| - |c.entries| == |RowKeys(rows) - c.known|
    decreases |rows|
  {
    if rows != [] {
      var key := RowKey(rows[0]);
      var rest := rows[1..];
      assert RowKeys(rows) == {key} + RowKeys(rest);
      if key in c.known {
        ConvertRowsCount(c, rest, prefix, origin);
        assert RowKeys(rows) - c.known == RowKeys(rest) - c.known;
      } else {
        var e := ImportedEntry(prefix, |c.entries| + 1, rows[0], origin);
        var c' := Conversion(c.entries + [e], c.known + {key});
        ConvertRowsCount(c', rest, prefix, origin);
        assert RowKeys(rows) - c.known == {key} + (RowKeys(rest) - c'.known);
        assert key !in RowKeys(rest) - c'.known;
      }
    }
  }

  /** A row whose key is already known adds nothing. */
  lemma {:induction false} ConvertKnownRows(c: Conversion, rows: seq<Imported>, prefix: char, origin: string)
    requires RowKeys(rows) <= c.known
    ensures ConvertRows(c, rows, prefix, origin) == c
    decreases |rows|
  {
    if rows != [] {
      assert RowKeys(rows) == {RowKey(rows[0])} + RowKeys(rows[1..]);
      ConvertKnownRows(c, rows[1..], prefix, origin);
    }
  }

  /** Converting a second time with the same tables adds no entry. */
  lemma ConvertedIsIdempotent(es: seq<Entry>, bank: Option<seq<Imported>>, book: Option<seq<Imported>>)
    ensures Converted(Converted(es, bank, book), bank, book) == Converted(es, bank, book)
  {
    var c0 := Conversion(es, KeysOf(es));
    var c1 := if bank.Some? then ConvertRows(c0, bank.value, 'B', "BANCO") else c0;
    if bank.Some? { ConvertRowsKeys(c0, bank.value, 'B', "BANCO"); }
    var c2 := if book.Some? then ConvertRows(c1, book.value, 'L', "LIVRO") else c1;
    if book.Some? { ConvertRowsKeys(c1, book.value, 'L', "LIVRO"); }
    var es2 := c2.entries;
    var d0 := Conversion(es2, KeysOf(es2));
    assert KeysOf(es2) == c2.known;
    if bank.Some? {
      assert RowKeys(bank.value) <= c1.known;
      ConvertKnownRows(d0, bank.value, 'B', "BANCO");
    }
    if book.Some? {
      ConvertKnownRows(d0, book.value, 'L', "LIVRO");
    }
  }

  /** The conversion loop as written: the id number is read as
    * `len(self.lancamentos) + novos + 1` after the `novos` earlier new
    * entries were already appended, so it counts them twice. */
  function ConvertRowsAsWritten(c: Conversion, rows: seq<Imported>, prefix: char, origin: string, novos: nat): Conversion
    decreases |rows|
  {
    if rows == [] then c
    else
      var key := RowKey(rows[0]);
      if key in c.known then ConvertRowsAsWritten(c, rows[1..], prefix, origin, novos)
      else ConvertRowsAsWritten(Conversion(c.entries + [ImportedEntry(prefix, |c.entries| + novos + 1, rows[0], origin)],
                                           c.known + {key}),
                                rows[1..], prefix, origin, novos + 1)
  }

  /** Three new bank rows (on distinct dates) on an empty ledger are numbered B1, B3, B5. The
    * next two entries created from suggestions, numbered "B" + (length + 1),
    * are B4 and B5, so two entries share the id B5. The position numbering
    * of `ConvertRows` gives B1, B2, B3 and keeps every id unique
    * (`ConvertRowsAppends`, `PositionNumbersAreUnique`). */
  lemma ConvertIdsAsWrittenCollide(d0: string, d1: string, d2: string)
    ensures var rows := [Imported(Date(2024, 1, 1), d0, 1.0), Imported(Date(2024, 1, 2), d1, 2.0),
                         Imported(Date(2024, 1, 3), d2, 3.0)];
      var r := ConvertRowsAsWritten(Conversion([], {}), rows, 'B', "BANCO", 0);
      && |r.entries| == 3
      && r.entries[0].id == EntryId('B', 1) && r.entries[1].id == EntryId('B', 3) && r.entries[2].id == EntryId('B', 5)
      && !NumberedByPosition(r.entries)
      && EntryId('B', |r.entries| + 1 + 1) == r.entries[2].id
  {
    hide DebitAccount, CreditAccount, DoubleEntry, TotalDebit;
    var r0, r1, r2 := Imported(Date(2024, 1, 1), d0, 1.0), Imported(Date(2024, 1, 2), d1, 2.0), Imported(Date(2024, 1, 3), d2, 3.0);
    var rows := [r0, r1, r2];
    var c0 := Conversion([], {});
    AsWrittenAppends(c0, rows, 'B', "BANCO", 0);
    var c1 := Conversion(c0.entries + [ImportedEntry('B', 1, r0, "BANCO")], c0.known + {RowKey(r0)});
    assert rows[1..] == [r1, r2];
    AsWrittenAppends(c1, [r1, r2], 'B', "BANCO", 1);
    var c2 := Conversion(c1.entries + [ImportedEntry('B', 3, r1, "BANCO")], c1.known + {RowKey(r1)});
    assert [r1, r2][1..] == [r2];
    AsWrittenAppends(c2, [r2], 'B', "BANCO", 2);
    var c3 := Conversion(c2.entries + [ImportedEntry('B', 5, r2, "BANCO")], c2.known + {RowKey(r2)});
    assert [r2][1..] == [];
    assert ConvertRowsAsWritten(c3, [], 'B', "BANCO", 3) == c3;
    assert c3.entries[1].id.number != 2;
  }

  /** A new row is appended as number (entries so far + new rows so far + 1). */
  lemma AsWrittenAppends(c: Conversion, rows: seq<Imported>, prefix: char, origin: string, novos: nat)
    requires rows != [] && RowKey(rows[0]) !in c.known
    ensures ConvertRowsAsWritten(c, rows, prefix, origin, novos)
      == ConvertRowsAsWritten(Conversion(c.entries + [ImportedEntry(prefix, |c.entries| + novos + 1, rows[0], origin)],
                                         c.known + {RowKey(rows[0])}), rows[1..], prefix, origin, novos + 1)
  {
  }

  // ---------------------------------------------------------------------
  // Balances and net result (gerar_balanco_patrimonial)

  /** All movements of the entries, entry by entry. */
  function Movements(es: seq<Entry>): seq<Movement>
  {
    if es == [] then [] else es[0].movements + Movements(es[1..])
  }

  lemma MovementsStep(es: seq<Entry>, i: nat)
    requires i < |es|
    ensures Movements(es[i..]) == es[i].movements + Movements(es[i + 1..])
  {
    assert es[i..][1..] == es[i + 1..];
  }

  /** Balances by account, in the order accounts are first seen (a Python dict). */
  type Balances = seq<(string, real)>

  function Lookup(bs: Balances, account: string): real
  {
    if bs == [] then 0.0 else if bs[0].0 == account then bs[0].1 else Lookup(bs[1..], account)
  }

  predicate DistinctAccounts(bs: Balances)
  {
    forall i, j :: 0 <= i < j < |bs| ==> bs[i].0 != bs[j].0
  }

  /** `saldos.setdefault(conta, 0); saldos[conta] += amount` */
  function Post(bs: Balances, account: string, amount: real): Balances
  {
    if bs == [] then [(account, amount)]
    else if bs[0].0 == account then [(account, bs[0].1 + amount)] + bs[1..]
    else [bs[0]] + Post(bs[1..], account, amount)
  }

  function Accumulate(bs: Balances, ms: seq<Movement>): Balances
    decreases |ms|
  {
    if ms == [] then bs else Accumulate(Post(bs, ms[0].account, ms[0].debit - ms[0].credit), ms[1..])
  }

  /** Sum of debit minus credit over the movements whose account satisfies `p`. */
  function NetWhere(ms: seq<Movement>, p: string -> bool): real
  {
    if ms == [] then 0.0
    else (if p(ms[0].account) then ms[0].debit - ms[0].credit else 0.0) + NetWhere(ms[1..], p)
  }

  /** Sum of the balances of the accounts satisfying `p`. */
  function SumWhere(bs: Balances, p: string -> bool): real
  {
    if bs == [] then 0.0 else (if p(bs[0].0) then bs[0].1 else 0.0) + SumWhere(bs[1..], p)
  }

  predicate HasAccount(bs: Balances, account: string)
  {
    exists i :: 0 <= i < |bs| && bs[i].0 == account
  }

  /** Posting keeps the accounts in first-seen order and appends an unseen one. */
  lemma {:induction false} PostShape(bs: Balances, account: string, amount: real)
    ensures var r := Post(bs, account, amount);
      && |r| == |bs| + (if HasAccount(bs, account) then 0 else 1)
      && (forall i :: 0 <= i < |r| ==> r[i].0 == (if i < |bs| then bs[i].0 else account))
  {
    if bs != [] && bs[0].0 != account {
      PostShape(bs[1..], account, amount);
      if HasAccount(bs, account) {
        var i :| 0 <= i < |bs| && bs[i].0 == account;
        assert bs[1..][i - 1].0 == account;
      }
      if HasAccount(bs[1..], account) {
        var i :| 0 <= i < |bs[1..]| && bs[1..][i].0 == account;
        assert bs[i + 1].0 == account;
      }
    }
  }

  lemma PostDistinct(bs: Balances, account: string, amount: real)
    requires DistinctAccounts(bs)
    ensures DistinctAccounts(Post(bs, account, amount))
  {
    PostShape(bs, account, amount);
  }

  lemma {:induction false} PostSums(bs: Balances, account: string, amount: real, a: string, p: string -> bool)
    ensures Lookup(Post(bs, account, amount), a) == Lookup(bs, a) + (if a == account then amount else 0.0)
    ensures SumWhere(Post(bs, account, amount), p) == SumWhere(bs, p) + (if p(account) then amount else 0.0)
  {
    if bs != [] && bs[0].0 != account {
      PostSums(bs[1..], account, amount, a, p);
    }
  }

  /** Each account's balance is the sum of debit minus credit over its
    * movements. */
  lemma {:induction false} AccumulateLookup(bs: Balances, ms: seq<Movement>, account: string)
    ensures Lookup(Accumulate(bs, ms), account) == Lookup(bs, account) + NetWhere(ms, a => a == account)
    decreases |ms|
  {
    if ms != [] {
      var m := ms[0];
      PostSums(bs, m.account, m.debit - m.credit, account, a => true);
      AccumulateLookup(Post(bs, m.account, m.debit - m.credit), ms[1..], account);
    }
  }

  /** The balances of any group of accounts sum to the net of that group's
    * movements. */
  lemma {:induction false} AccumulateSum(bs: Balances, ms: seq<Movement>, p: string -> bool)
    ensures SumWhere(Accumulate(bs, ms), p) == SumWhere(bs, p) + NetWhere(ms, p)
    decreases |ms|
  {
    if ms != [] {
      var m := ms[0];
      PostSums(bs, m.account, m.debit - m.credit, "", p);
      AccumulateSum(Post(bs, m.account, m.debit - m.credit), ms[1..], p);
    }
  }

  /** Each account appears once among the balances. */
  lemma {:induction false} AccumulateDistinct(bs: Balances, ms: seq<Movement>)
    requires DistinctAccounts(bs)
    ensures DistinctAccounts(Accumulate(bs, ms))
    decreases |ms|
  {
    if ms != [] {
      var m := ms[0];
      PostDistinct(bs, m.account, m.debit - m.credit);
      AccumulateDistinct(Post(bs, m.account, m.debit - m.credit), ms[1..]);
    }
  }

  lemma {:induction false} AccumulateAppend(bs: Balances, ms: seq<Movement>, ns: seq<Movement>)
    ensures Accumulate(bs, ms + ns) == Accumulate(Accumulate(bs, ms), ns)
    decreases |ms|
  {
    if ms == [] {
      assert ms + ns == ns;
    } else {
      assert (ms + ns)[1..] == ms[1..] + ns;
      AccumulateAppend(Post(bs, ms[0].account, ms[0].debit - ms[0].credit), ms[1..], ns);
    }
  }

  lemma {:induction false} NetWhereAppend(ms: seq<Movement>, ns: seq<Movement>, p: string -> bool)
    ensures NetWhere(ms + ns, p) == NetWhere(ms, p) + NetWhere(ns, p)
  {
    if ms == [] {
      assert ms + ns == ns;
    } else {
      assert (ms + ns)[1..] == ms[1..] + ns;
      NetWhereAppend(ms[1..], ns, p);
    }
  }

  /** When every entry's debits equal its credits, the balances of all
    * accounts sum to zero. */
  lemma {:induction false} BalancedEntriesNetToZero(es: seq<Entry>)
    requires forall i :: 0 <= i < |es| ==> TotalDebit(es[i].movements) == TotalCredit(es[i].movements)
    ensures NetWhere(Movements(es), a => true) == 0.0
    ensures SumWhere(Accumulate([], Movements(es)), a => true) == 0.0
  {
    if es != [] {
      BalancedEntriesNetToZero(es[1..]);
      NetWhereAppend(es[0].movements, Movements(es[1..]), a => true);
      NetOfEntry(es[0].movements);
    }
    AccumulateSum([], Movements(es), a => true);
  }

  lemma {:induction false} NetOfEntry(ms: seq<Movement>)
    ensures NetWhere(ms, a => true) == TotalDebit(ms) - TotalCredit(ms)
  {
    if ms != [] {
      NetOfEntry(ms[1..]);
    }
  }

  /** Accounts of classes 6 (costs) and 7 (income) enter the net result. */
  predicate IsResultAccount(account: string)
  {
    |account| > 0 && (account[0] == '6' || account[0] == '7')
  }

  /** The net result of the period: minus the sum of the balances of the
    * class 6 and class 7 accounts, whatever order the movements came in. */
  lemma NetResultFromMovements(ms: seq<Movement>)
    ensures -SumWhere(Accumulate([], ms), IsResultAccount) == -NetWhere(ms, IsResultAccount)
  {
    AccumulateSum([], ms, IsResultAccount);
  }

  function UpTo(es: seq<Entry>, ref: Date): seq<Entry>
  {
    Filter(es, (e: Entry) => AtMost(e.date, ref))
  }
}

// The part of the ledger the source keeps beside the entries: depreciable
// assets and their yearly amortizations.
module Depreciation {
  import opened Util
  import opened Calendar
  import opened Ledger

  datatype Amortization = Amortization(date: Date, value: real)

  datatype Asset = Asset(code: string, desc: string, value: real, date: Date, usefulLife: int,
                         residual: real, amortizations: seq<Amortization>)

  /** A record of the list `calcular_amortizacoes` returns. */
  datatype DepreciationRecord = DepreciationRecord(assetCode: string, date: Date, value: real, accumulated: real)

  /** Whole years from the acquisition date to the reference date. */
  function YearsElapsed(start: Date, ref: Date): int
  {
    ref.year - start.year
    - (if ref.month < start.month || (ref.month == start.month && ref.day < start.day) then 1 else 0)
  }

  /** The number of years after the first one that are booked, capped at the useful life. */
  function YearsToBook(a: Asset, ref: Date): int
  {
    MinInt(YearsElapsed(a.date, ref), a.usefulLife)
  }

  function BookedYears(ams: seq<Amortization>): set<int>
  {
    set k | 0 <= k < |ams| :: ams[k].date.year
  }

  predicate YearsDistinct(ams: seq<Amortization>)
  {
    forall i, j :: 0 <= i < j < |ams| ==> ams[i].date.year != ams[j].date.year
  }

  function AnnualAmount(a: Asset): real
    requires a.usefulLife != 0
  {
    (a.value - a.residual) * (1.0 / a.usefulLife as real)
  }

  /** The first year counts the months from the acquisition month on, the
    * reference year counts the months up to the reference month, and every
    * other year counts in full. */
  function YearAmount(a: Asset, ref: Date, year: int): real
    requires a.usefulLife != 0
  {
    if year == a.date.year then AnnualAmount(a) * ((12 - a.date.month + 1) as real / 12.0)
    else if year == ref.year then AnnualAmount(a) * (ref.month as real / 12.0)
    else AnnualAmount(a)
  }

  function AccumulatedBefore(ams: seq<Amortization>, year: int): real
  {
    if ams == [] then 0.0
    else (if ams[0].date.year < year then ams[0].value else 0.0) + AccumulatedBefore(ams[1..], year)
  }

  function YearEnd(year: int): Date { Date(year, 12, 31) }

  /** The entry booking one year's amortization: 66 debited, 19 credited. */
  function AmortizationEntry(number: nat, a: Asset, year: int, amount: real): Entry
  {
    Entry(EntryId('M', number), YearEnd(year), "Amortização anual de " + a.desc, "MANUAL",
          DoubleEntry("66", "19", amount))
  }

  datatype AssetRun = AssetRun(asset: Asset, entries: seq<Entry>, records: seq<DepreciationRecord>)

  /** The years `year..last` of one asset: a year already registered is
    * skipped; any other gets an amortization, a record and an entry. */
  function DepreciateYears(run: AssetRun, ref: Date, registered: set<int>, year: int, last: int): AssetRun
    requires run.asset.usefulLife != 0
    decreases last - year + 1
  {
    if year > last then run
    else if year in registered then DepreciateYears(run, ref, registered, year + 1, last)
    else
      var a := run.asset;
      var v := YearAmount(a, ref, year);
      var rec := DepreciationRecord(a.code, YearEnd(year), v, AccumulatedBefore(a.amortizations, year) + v);
      var a' := a.(amortizations := a.amortizations + [Amortization(YearEnd(year), v)]);
      DepreciateYears(AssetRun(a', run.entries + [AmortizationEntry(|run.entries| + 1, a, year, v)], run.records + [rec]),
                      ref, registered, year + 1, last)
  }

  datatype BooksRun = BooksRun(assets: seq<Asset>, entries: seq<Entry>, records: seq<DepreciationRecord>, failed: bool)

  /** The assets from index `i` on. An asset acquired after the reference
    * date is skipped; a useful life of 0 stops the run with a division by
    * zero, leaving the earlier assets' changes in place. */
  function DepreciateFrom(st: BooksRun, ref: Date, i: nat): BooksRun
    decreases |st.assets| - i
  {
    if i >= |st.assets| then st
    else
      var a := st.assets[i];
      if Before(ref, a.date) then DepreciateFrom(st, ref, i + 1)
      else if a.usefulLife == 0 then st.(failed := true)
      else
        var r := DepreciateYears(AssetRun(a, st.entries, st.records), ref, BookedYears(a.amortizations),
                                 a.date.year, a.date.year + YearsToBook(a, ref));
        DepreciateFrom(BooksRun(st.assets[i := r.asset], r.entries, r.records, false), ref, i + 1)
  }

  /** Every year of the asset's booking range has an amortization. */
  predicate Saturated(a: Asset, ref: Date)
  {
    Before(ref, a.date)
    || (a.usefulLife != 0
        && forall y :: a.date.year <= y <= a.date.year + YearsToBook(a, ref) ==> y in BookedYears(a.amortizations))
  }

  lemma BookedYearsAppend(ams: seq<Amortization>, x: Amortization)
    ensures BookedYears(ams + [x]) == BookedYears(ams) + {x.date.year}
  {
    var r := ams + [x];
    assert forall k :: 0 <= k < |ams| ==> r[k] == ams[k];
    assert r[|ams|] == x;
  }

  /** What one asset's run does: only its amortizations change; each year of
    * the range that was not registered gets exactly one amortization and
    * one balanced 66/19 entry, no year is booked twice, and no booked year
    * lies beyond the range. */
  lemma {:induction false} DepreciateYearsEffect(run: AssetRun, ref: Date, registered: set<int>, year: int, last: int)
    requires run.asset.usefulLife != 0
    requires YearsDistinct(run.asset.amortizations)
    requires forall y :: y in BookedYears(run.asset.amortizations) ==> y in registered || y < year
    ensures var r := DepreciateYears(run, ref, registered, year, last);
      && r.asset == run.asset.(amortizations := r.asset.amortizations)
      && |r.asset.amortizations| >= |run.asset.amortizations|
      && r.asset.amortizations[..|run.asset.amortizations|] == run.asset.amortizations
      && YearsDistinct(r.asset.amortizations)
      && (forall y :: year <= y <= last ==> y in BookedYears(r.asset.amortizations) || y in registered)
      && BookedYears(run.asset.amortizations) <= BookedYears(r.asset.amortizations)
      && (forall y :: y in BookedYears(r.asset.amortizations) ==> y in BookedYears(run.asset.amortizations) || year <= y <= last)
      && |r.entries| - |run.entries| == |r.asset.amortizations| - |run.asset.amortizations|
      && r.entries[..|run.entries|] == run.entries
      && (forall k :: |run.entries| <= k < |r.entries| ==>
            TotalDebit(r.entries[k].movements) == TotalCredit(r.entries[k].movements))
      && (NumberedByPosition(run.entries) ==> NumberedByPosition(r.entries))
    decreases last - year + 1
  {
    hide YearAmount, AccumulatedBefore, DoubleEntry, TotalDebit, TotalCredit;
    if year <= last {
      if year in registered {
        DepreciateYearsEffect(run, ref, registered, year + 1, last);
      } else {
        var a := run.asset;
        var v := YearAmount(a, ref, year);
        var rec := DepreciationRecord(a.code, YearEnd(year), v, AccumulatedBefore(a.amortizations, year) + v);
        var x := Amortization(YearEnd(year), v);
        var a' := a.(amortizations := a.amortizations + [x]);
        var e := AmortizationEntry(|run.entries| + 1, a, year, v);
        var run' := AssetRun(a', run.entries + [e], run.records + [rec]);
        BookedYearsAppend(a.amortizations, x);
        assert year !in BookedYears(a.amortizations);
        assert YearsDistinct(a'.amortizations) by {
          forall i, j | 0 <= i < j < |a'.amortizations|
            ensures a'.amortizations[i].date.year != a'.amortizations[j].date.year
          {
            if j == |a.amortizations| {
              assert a.amortizations[i].date.year in BookedYears(a.amortizations);
            }
          }
        }
        DepreciateYearsEffect(run', ref, registered, year + 1, last);
        var r := DepreciateYears(run', ref, registered, year + 1, last);
        assert r.asset.amortizations[..|a.amortizations|] == r.asset.amortizations[..|a'.amortizations|][..|a.amortizations|];
        assert r.entries[..|run.entries|] == r.entries[..|run'.entries|][..|run.entries|];
        assert r.entries[|run.entries|] == e;
      }
    }
  }

  /** Only the assets from index `i` on change, and each of them only in its
    * amortizations. */
  lemma {:induction false} DepreciateFromFrame(st: BooksRun, ref: Date, i: nat)
    requires forall j :: 0 <= j < |st.assets| ==> YearsDistinct(st.assets[j].amortizations)
    ensures var r := DepreciateFrom(st, ref, i);
      && |r.assets| == |st.assets|
      && (forall j :: 0 <= j < |st.assets| ==> r.assets[j] == st.assets[j].(amortizations := r.assets[j].amortizations))
      && (forall j :: 0 <= j < |st.assets| && j < i ==> r.assets[j] == st.assets[j])
      && (forall j :: 0 <= j < |st.assets| ==> YearsDistinct(r.assets[j].amortizations))
      && (!r.failed ==> forall j :: i <= j < |st.assets| ==> Saturated(r.assets[j], ref))
      && |r.entries| >= |st.entries| && r.entries[..|st.entries|] == st.entries
      && (NumberedByPosition(st.entries) ==> NumberedByPosition(r.entries))
    decreases |st.assets| - i
  {
    hide DepreciateYears, YearAmount, AccumulatedBefore, DoubleEntry;
    if i < |st.assets| {
      var a := st.assets[i];
      if Before(ref, a.date) {
        DepreciateFromFrame(st, ref, i + 1);
      } else if a.usefulLife != 0 {
        var first, last := a.date.year, a.date.year + YearsToBook(a, ref);
        var run := AssetRun(a, st.entries, st.records);
        DepreciateYearsEffect(run, ref, BookedYears(a.amortizations), first, last);
        var r := DepreciateYears(run, ref, BookedYears(a.amortizations), first, last);
        var st' := BooksRun(st.assets[i := r.asset], r.entries, r.records, false);
        assert Saturated(r.asset, ref);
        DepreciateFromFrame(st', ref, i + 1);
        var res := DepreciateFrom(st', ref, i + 1);
        assert res.entries[..|st.entries|] == res.entries[..|st'.entries|][..|st.entries|];
      }
    }
  }

  /** A run over assets that are all saturated books nothing. */
  lemma {:induction false} DepreciateSaturated(st: BooksRun, ref: Date, i: nat)
    requires !st.failed
    requires forall j :: i <= j < |st.assets| ==> Saturated(st.assets[j], ref)
    ensures DepreciateFrom(st, ref, i) == st
    decreases |st.assets| - i
  {
    if i < |st.assets| {
      var a := st.assets[i];
      if !Before(ref, a.date) {
        var first, last := a.date.year, a.date.year + YearsToBook(a, ref);
        NothingToBook(AssetRun(a, st.entries, st.records), ref, BookedYears(a.amortizations), first, last);
        assert st.assets[i := a] == st.assets;
      }
      DepreciateSaturated(st, ref, i + 1);
    }
  }

  lemma {:induction false} NothingToBook(run: AssetRun, ref: Date, registered: set<int>, year: int, last: int)
    requires run.asset.usefulLife != 0
    requires forall y :: year <= y <= last ==> y in registered
    ensures DepreciateYears(run, ref, registered, year, last) == run
    decreases last - year + 1
  {
    if year <= last {
      NothingToBook(run, ref, registered, year + 1, last);
    }
  }

  /** Running the depreciation a second time with the same reference date,
    * after a run that completed, books nothing and returns no record. */
  lemma DepreciationIsIdempotent(assets: seq<Asset>, entries: seq<Entry>, ref: Date)
    requires forall j :: 0 <= j < |assets| ==> YearsDistinct(assets[j].amortizations)
    requires !DepreciateFrom(BooksRun(assets, entries, [], false), ref, 0).failed
    ensures var r := DepreciateFrom(BooksRun(assets, entries, [], false), ref, 0);
      DepreciateFrom(BooksRun(r.assets, r.entries, [], false), ref, 0) == BooksRun(r.assets, r.entries, [], false)
  {
    DepreciateFromFrame(BooksRun(assets, entries, [], false), ref, 0);
    var r := DepreciateFrom(BooksRun(assets, entries, [], false), ref, 0);
    DepreciateSaturated(BooksRun(r.assets, r.entries, [], false), ref, 0);
  }
}
