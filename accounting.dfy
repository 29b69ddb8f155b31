// The stateful side of `ContabilidadeAvancada` (contabilidade.py): the list
// of entries, the list of depreciable assets and the imported tables, and the
// operations that append to them in place.
module Accounting {
  import opened Util
  import opened Calendar
  import opened Ledger
  import opened Depreciation

  class Books {
    var entries: seq<Entry>
    var assets: seq<Asset>
    var bankData: Option<seq<Imported>>
    var ledgerData: Option<seq<Imported>>

    constructor ()
      ensures entries == [] && assets == [] && bankData == None && ledgerData == None
    {
      entries, assets, bankData, ledgerData := [], [], None, None;
    }

    /** `registrar_lancamento`: refuses (the source raises) an entry whose
      * debits and credits differ by more than 0.01; otherwise appends it as
      * "M" + (old length + 1). */
    method RegisterEntry(date: Date, desc: string, movements: seq<Movement>, origin: string) returns (ok: bool)
      modifies this`entries
      ensures ok <==> Balanced(movements)
      ensures entries == if ok then old(entries) + [Entry(EntryId('M', |old(entries)| + 1), date, desc, origin, movements)]
                         else old(entries)
      ensures NumberedByPosition(old(entries)) ==> NumberedByPosition(entries)
    {
      if Abs(TotalDebit(movements) - TotalCredit(movements)) > 0.01 {
        return false;
      }
      entries := entries + [Entry(EntryId('M', |entries| + 1), date, desc, origin, movements)];
      ok := true;
    }

    /** `registrar_bem_amortizavel`: a duplicate code is refused before any
      * change; otherwise the asset is appended with no amortizations and its
      * acquisition booked as 11 debited, 32 credited. */
    method RegisterAsset(code: string, desc: string, value: real, date: Date, usefulLife: int, residual: real)
      returns (ok: bool)
      modifies this`entries, this`assets
      ensures ok <==> forall k :: 0 <= k < |old(assets)| ==> old(assets)[k].code != code
      ensures ok ==> assets == old(assets) + [Asset(code, desc, value, date, usefulLife, residual, [])]
      ensures ok ==> entries == old(entries) + [Entry(EntryId('M', |old(entries)| + 1), date, "Aquisição de " + desc,
                                                      "MANUAL", DoubleEntry("11", "32", value))]
      ensures !ok ==> assets == old(assets) && entries == old(entries)
    {
      for k := 0 to |assets|
        invariant forall j :: 0 <= j < k ==> assets[j].code != code
      {
        if assets[k].code == code {
          return false;
        }
      }
      assets := assets + [Asset(code, desc, value, date, usefulLife, residual, [])];
      ok := RegisterEntry(date, "Aquisição de " + desc, DoubleEntry("11", "32", value), "MANUAL");
    }

    /** `converter_dados_para_lancamentos` with entries numbered by position
      * (see the finding on its id numbers): bank rows, then ledger rows,
      * skipping every row whose key is already known. */
    method ConvertImported() returns (added: bool)
      modifies this`entries
      ensures bankData.None? && ledgerData.None? ==> !added && entries == old(entries)
      ensures bankData.Some? || ledgerData.Some? ==>
                entries == Converted(old(entries), bankData, ledgerData) && added == (|entries| > |old(entries)|)
      ensures NumberedByPosition(old(entries)) ==> NumberedByPosition(entries)
    {
      if bankData.None? && ledgerData.None? {
        return false;
      }
      var known: set<Key> := {};
      for i := 0 to |entries|
        invariant known == KeysOf(entries[..i])
      {
        assert entries[..i + 1][..i] == entries[..i];
        known := known + {EntryKey(entries[i])};
      }
      assert entries[..|entries|] == entries;
      var base, novos := |entries|, 0;
      if bankData.Some? {
        known, novos := ConvertTable(bankData.value, 'B', "BANCO", known, base, novos);
      }
      if ledgerData.Some? {
        known, novos := ConvertTable(ledgerData.value, 'L', "LIVRO", known, base, novos);
      }
      added := novos > 0;
    }

    /** One table's loop of the conversion; `base + novos` is the number of
      * entries so far. */
    method ConvertTable(rows: seq<Imported>, prefix: char, origin: string, known0: set<Key>, base: nat, novos0: nat)
      returns (known: set<Key>, novos: nat)
      requires |entries| == base + novos0
      modifies this`entries
      ensures Conversion(entries, known) == ConvertRows(Conversion(old(entries), known0), rows, prefix, origin)
      ensures |entries| == base + novos && novos >= novos0
      ensures NumberedByPosition(old(entries)) ==> NumberedByPosition(entries)
    {
      ConvertRowsAppends(Conversion(entries, known0), rows, prefix, origin);
      known, novos := known0, novos0;
      for k := 0 to |rows|
        invariant |entries| == base + novos && novos >= novos0
        invariant ConvertRows(Conversion(entries, known), rows[k..], prefix, origin)
                  == ConvertRows(Conversion(old(entries), known0), rows, prefix, origin)
      {
        hide ConvertRows, ImportedEntry, NumberedByPosition;
        assert rows[k..][1..] == rows[k + 1..];
        ConvertRowsHead(Conversion(entries, known), rows[k..], prefix, origin);
        var key := RowKey(rows[k]);
        if key !in known {
          entries := entries + [ImportedEntry(prefix, base + novos + 1, rows[k], origin)];
          novos := novos + 1;
          known := known + {key};
        }
      }
    }

    /** The balance loop of `gerar_balanco_patrimonial`: debit minus credit
      * per account over the entries dated up to `ref`, accounts in the
      * order first met. */
    method BalancesAt(ref: Date) returns (saldos: Balances)
      ensures saldos == Accumulate([], Movements(UpTo(entries, ref)))
      ensures DistinctAccounts(saldos)
    {
      hide Post, UpTo;
      var filtered := UpTo(entries, ref);
      saldos := [];
      for i := 0 to |filtered|
        invariant Accumulate([], Movements(filtered)) == Accumulate(saldos, Movements(filtered[i..]))
        invariant DistinctAccounts(saldos)
      {
        MovementsStep(filtered, i);
        AccumulateAppend(saldos, filtered[i].movements, Movements(filtered[i + 1..]));
        saldos := PostMovements(saldos, filtered[i].movements);
      }
      assert filtered[|filtered|..] == [];
    }

    /** `calcular_amortizacoes(ref)`: books, for every asset acquired by
      * `ref`, each year of its range that has no amortization yet. A useful
      * life of 0 ends the run with an error (the source's division by zero),
      * keeping what earlier assets booked. */
    method CalculateDepreciation(ref: Date) returns (r: Result<seq<DepreciationRecord>>)
      modifies this`assets, this`entries
      ensures var s := DepreciateFrom(BooksRun(old(assets), old(entries), [], false), ref, 0);
        assets == s.assets && entries == s.entries && (r.Ok? <==> !s.failed) && (r.Ok? ==> r.value == s.records)
    {
      ghost var target := DepreciateFrom(BooksRun(assets, entries, [], false), ref, 0);
      var records: seq<DepreciationRecord> := [];
      var i := 0;
      while i < |assets|
        invariant 0 <= i <= |assets|
        invariant DepreciateFrom(BooksRun(assets, entries, records, false), ref, i) == target
        decreases |assets| - i
      {
        var a := assets[i];
        if !Before(ref, a.date) {
          if a.usefulLife == 0 {
            return Err("division by zero: useful life is 0");
          }
          records := DepreciateAsset(i, ref, records);
        }
        i := i + 1;
      }
      r := Ok(records);
    }

    /** The year loop for the asset at index `i`. */
    method DepreciateAsset(i: nat, ref: Date, records0: seq<DepreciationRecord>) returns (records: seq<DepreciationRecord>)
      requires i < |assets| && assets[i].usefulLife != 0
      modifies this`assets, this`entries
      ensures var a := old(assets)[i];
        var run := DepreciateYears(AssetRun(a, old(entries), records0), ref, BookedYears(a.amortizations),
                                   a.date.year, a.date.year + YearsToBook(a, ref));
        assets == old(assets)[i := run.asset] && entries == run.entries && records == run.records
    {
      hide YearAmount, AccumulatedBefore, DoubleEntry, TotalDebit, TotalCredit;
      var a := assets[i];
      var registered := BookedYears(a.amortizations);
      var year, last := a.date.year, a.date.year + YearsToBook(a, ref);
      ghost var target := DepreciateYears(AssetRun(a, entries, records0), ref, registered, year, last);
      records := records0;
      while year <= last
        invariant |assets| == |old(assets)| && assets == old(assets)[i := assets[i]]
        invariant assets[i].usefulLife == a.usefulLife
        invariant DepreciateYears(AssetRun(assets[i], entries, records), ref, registered, year, last) == target
        decreases last - year
      {
        if year !in registered {
          var cur := assets[i];
          var v := YearAmount(cur, ref, year);
          records := records + [DepreciationRecord(cur.code, YearEnd(year), v, AccumulatedBefore(cur.amortizations, year) + v)];
          assets := assets[i := cur.(amortizations := cur.amortizations + [Amortization(YearEnd(year), v)])];
          var booked := RegisterEntry(YearEnd(year), "Amortização anual de " + cur.desc, DoubleEntry("66", "19", v), "MANUAL");
        }
        year := year + 1;
      }
    }
  }

  /** The net result of `gerar_balanco_patrimonial`: class 6 balances are
    * subtracted and the negated class 7 balances added. */
  method NetResult(saldos: Balances) returns (result: real)
    ensures result == -SumWhere(saldos, IsResultAccount)
  {
    result := 0.0;
    for i := 0 to |saldos|
      invariant result - SumWhere(saldos[i..], IsResultAccount) == -SumWhere(saldos, IsResultAccount)
    {
      assert saldos[i..][1..] == saldos[i + 1..];
      var (account, saldo) := saldos[i];
      if |account| > 0 && account[0] == '6' {
        result := result - saldo;
      } else if |account| > 0 && account[0] == '7' {
        result := result + -saldo;
      }
    }
  }

  /** The inner loop over one entry's movements. */
  method PostMovements(saldos0: Balances, ms: seq<Movement>) returns (saldos: Balances)
    requires DistinctAccounts(saldos0)
    ensures saldos == Accumulate(saldos0, ms) && DistinctAccounts(saldos)
  {
    saldos := saldos0;
    for k := 0 to |ms|
      invariant Accumulate(saldos, ms[k..]) == Accumulate(saldos0, ms)
      invariant DistinctAccounts(saldos)
    {
      assert ms[k..][1..] == ms[k + 1..];
      PostDistinct(saldos, ms[k].account, ms[k].debit - ms[k].credit);
      saldos := Post(saldos, ms[k].account, ms[k].debit - ms[k].credit);
    }
  }
}
