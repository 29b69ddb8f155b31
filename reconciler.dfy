// `ConciliacaoAutomatica` (conciliacao_automatica.py): the reconciliation run
// over working copies of the two tables, which are updated in place row by
// row, and `aplicar_sugestao`, which books the correction a suggestion
// proposes into the accounting entries.
module Reconciliation {
  import opened Util
  import opened Calendar
  import opened Normalization
  import opened Ledger
  import opened Accounting
  import opened MatchState
  import opened Pairing
  import opened Grouping
  import opened Suggestions
  import opened Sorting

  // ---------------------------------------------------------------------
  // The whole run as a function of its inputs

  datatype Outcome = Outcome(tables: Tables, discrepancies: seq<Discrepancy>)

  /** The three matching passes: exact, then amount and nearby date, then
    * groups. */
  function Matched(t: Tables, tolDays: int, tolText: int, score: Scorer): Tables
  {
    GroupAll(PairPasses(t, tolDays, tolText, score), tolDays)
  }

  /** `conciliar_automaticamente`: the passes over fresh copies of the
    * tables, then the report of what is left. */
  function Reconciled(bankTxs: seq<Tx>, ledgerTxs: seq<Tx>, tolDays: int, tolText: int, score: Scorer): Outcome
  {
    var t := Matched(Tables(Fresh(bankTxs), Fresh(ledgerTxs), []), tolDays, tolText, score);
    Outcome(t, Discrepancies(t.bank, t.ledger, score))
  }

  /** The passes keep the tables consistent (records numbered on, each
    * consistent with the rows it claims, every claimed row carrying its
    * record's id), keep the transactions and never unmatch a row. */
  lemma MatchedKeeps(t: Tables, tolDays: int, tolText: int, score: Scorer)
    requires WellFormed(t)
    ensures WellFormed(Matched(t, tolDays, tolText, score)) && Grows(t, Matched(t, tolDays, tolText, score))
  {
    var t2 := PairPasses(t, tolDays, tolText, score);
    assert Matched(t, tolDays, tolText, score) == GroupAll(t2, tolDays);
    PairPassesKeep(t, tolDays, tolText, score);
    GroupPassKeeps(t2, UnmatchedDates(t2.bank), tolDays);
    GrowsTrans(t, t2, GroupAll(t2, tolDays));
  }

  function PairPasses(t: Tables, tolDays: int, tolText: int, score: Scorer): Tables
  {
    var t1 := PairPass(t, 0, |t.matches| + 1, ExactRule(tolText), score);
    PairPass(t1, 0, |t1.matches| + 1, WindowRule(tolDays), score)
  }

  lemma PairPassesKeep(t: Tables, tolDays: int, tolText: int, score: Scorer)
    requires WellFormed(t)
    ensures WellFormed(PairPasses(t, tolDays, tolText, score)) && Grows(t, PairPasses(t, tolDays, tolText, score))
  {
    var t1 := PairPass(t, 0, |t.matches| + 1, ExactRule(tolText), score);
    var t2 := PairPass(t1, 0, |t1.matches| + 1, WindowRule(tolDays), score);
    assert PairPasses(t, tolDays, tolText, score) == t2;
    PairPassKeeps(t, 0, ExactRule(tolText), score);
    PairPassKeeps(t1, 0, WindowRule(tolDays), score);
    GrowsTrans(t, t1, t2);
  }

  /** A run leaves consistent tables over its inputs. */
  lemma ReconciledConsistent(bankTxs: seq<Tx>, ledgerTxs: seq<Tx>, tolDays: int, tolText: int, score: Scorer)
    ensures var t := Reconciled(bankTxs, ledgerTxs, tolDays, tolText, score).tables;
      WellFormed(t) && Txs(t.bank) == bankTxs && Txs(t.ledger) == ledgerTxs
  {
    var t0 := Tables(Fresh(bankTxs), Fresh(ledgerTxs), []);
    assert Reconciled(bankTxs, ledgerTxs, tolDays, tolText, score).tables == Matched(t0, tolDays, tolText, score);
    assert Txs(t0.bank) == bankTxs && Txs(t0.ledger) == ledgerTxs;
    StartWellFormed(bankTxs, ledgerTxs);
    MatchedKeeps(t0, tolDays, tolText, score);
  }

  /** In consistent tables every row is either claimed by some record or
    * unmatched, never both. */
  lemma AccountedOnce(t: Tables)
    requires WellFormed(t)
    ensures forall i :: 0 <= i < |t.bank| ==>
      (i in Unmatched(t.bank) <==> !exists k :: 0 <= k < |t.matches| && i in t.matches[k].bankRows)
    ensures forall i :: 0 <= i < |t.ledger| ==>
      (i in Unmatched(t.ledger) <==> !exists k :: 0 <= k < |t.matches| && i in t.matches[k].ledgerRows)
  {
    forall i | 0 <= i < |t.bank|
      ensures i in Unmatched(t.bank) <==> !exists k :: 0 <= k < |t.matches| && i in t.matches[k].bankRows
    {
      UnmatchedIff(t.bank, i);
      MatchedIffListed(t.bank, t.matches, true, i);
    }
    forall i | 0 <= i < |t.ledger|
      ensures i in Unmatched(t.ledger) <==> !exists k :: 0 <= k < |t.matches| && i in t.matches[k].ledgerRows
    {
      UnmatchedIff(t.ledger, i);
      MatchedIffListed(t.ledger, t.matches, false, i);
    }
  }

  /** Every report carries one to three suggestions. */
  lemma ReportsCarrySuggestions(bank: seq<Row>, ledger: seq<Row>, score: Scorer)
    ensures var ds := Discrepancies(bank, ledger, score);
      forall k :: 0 <= k < |ds| ==> 1 <= |ds[k].suggestions| <= 3
  {
    hide Suggest;
    var ds := Discrepancies(bank, ledger, score);
    var ub := Unmatched(bank);
    forall k | 0 <= k < |ds| ensures 1 <= |ds[k].suggestions| <= 3 {
      if k < |ub| {
        SuggestShape(bank[ub[k]].tx, Txs(ledger), Bank, score);
      } else {
        var ul := Unmatched(ledger);
        SuggestShape(ledger[ul[k - |ub|]].tx, Txs(bank), Suggestions.Side.Ledger, score);
      }
    }
  }

  /** A run accounts for every row exactly once: a row is either claimed by
    * some record or reported as a discrepancy, and there is one report per
    * unmatched row. */
  lemma ReconciledAccountsForEveryRow(bankTxs: seq<Tx>, ledgerTxs: seq<Tx>, tolDays: int, tolText: int, score: Scorer)
    ensures var o := Reconciled(bankTxs, ledgerTxs, tolDays, tolText, score);
      && |o.discrepancies| == |Unmatched(o.tables.bank)| + |Unmatched(o.tables.ledger)|
      && (forall i :: 0 <= i < |bankTxs| ==>
            (i in Unmatched(o.tables.bank) <==> !exists k :: 0 <= k < |o.tables.matches| && i in o.tables.matches[k].bankRows))
      && (forall i :: 0 <= i < |ledgerTxs| ==>
            (i in Unmatched(o.tables.ledger) <==> !exists k :: 0 <= k < |o.tables.matches| && i in o.tables.matches[k].ledgerRows))
  {
    var o := Reconciled(bankTxs, ledgerTxs, tolDays, tolText, score);
    assert o.discrepancies == Discrepancies(o.tables.bank, o.tables.ledger, score);
    ReconciledConsistent(bankTxs, ledgerTxs, tolDays, tolText, score);
    DiscrepanciesCoverUnmatched(o.tables.bank, o.tables.ledger, score);
    AccountedOnce(o.tables);
  }

  /** Every report of a run carries one to three suggestions. */
  lemma ReconciledSuggestions(bankTxs: seq<Tx>, ledgerTxs: seq<Tx>, tolDays: int, tolText: int, score: Scorer)
    ensures var o := Reconciled(bankTxs, ledgerTxs, tolDays, tolText, score);
      forall k :: 0 <= k < |o.discrepancies| ==> 1 <= |o.discrepancies[k].suggestions| <= 3
  {
    var o := Reconciled(bankTxs, ledgerTxs, tolDays, tolText, score);
    assert o.discrepancies == Discrepancies(o.tables.bank, o.tables.ledger, score);
    ReportsCarrySuggestions(o.tables.bank, o.tables.ledger, score);
  }

  // ---------------------------------------------------------------------
  // aplicar_sugestao as a function of the entries

  /** The entry booked for an unmatched row: "B" + the next number, the
    * row's date, description and amount, accounts chosen from the
    * description, origin "BANCO". */
  function BankEntry(number: nat, tx: Tx): Entry
    requires tx.desc.Str?
  {
    var desc := tx.desc.s;
    Entry(EntryId('B', number), tx.date, desc, "BANCO", DoubleEntry(DebitAccount(desc), CreditAccount(desc), tx.amount))
  }

  /** Appends the entry for `tx`; a description that is not text makes the
    * account choice raise, and the source then reports failure. */
  function Booked(entries: seq<Entry>, tx: Tx): Option<seq<Entry>>
  {
    if tx.desc.Str? then Some(entries + [BankEntry(|entries| + 1, tx)]) else None
  }

  /** Every positive debit and every positive credit becomes `v`. */
  function Adjusted(ms: seq<Movement>, v: real): (r: seq<Movement>)
    ensures |r| == |ms|
    ensures forall k :: 0 <= k < |ms| ==> r[k].account == ms[k].account
    ensures forall k :: 0 <= k < |ms| ==> r[k].debit == (if ms[k].debit > 0.0 then v else ms[k].debit)
    ensures forall k :: 0 <= k < |ms| ==> r[k].credit == (if ms[k].credit > 0.0 then v else ms[k].credit)
  {
    seq(|ms|, k requires 0 <= k < |ms| =>
      Movement(ms[k].account, if ms[k].debit > 0.0 then v else ms[k].debit, if ms[k].credit > 0.0 then v else ms[k].credit))
  }

  /** The entry a value-similar suggestion refers to: same date, and a
    * description equal to the suggested row's. */
  predicate Refers(e: Entry, tx: Tx)
  {
    e.date == tx.date && tx.desc == Str(e.desc)
  }

  /** The first entry from `k` on that the row `tx` refers to. */
  function FirstReferred(entries: seq<Entry>, tx: Tx, k: nat): (r: Option<nat>)
    decreases |entries| - k
    ensures r.Some? ==> k <= r.value < |entries| && Refers(entries[r.value], tx)
    ensures r.Some? ==> forall m :: k <= m < r.value ==> !Refers(entries[m], tx)
    ensures r.None? ==> forall m :: k <= m < |entries| ==> !Refers(entries[m], tx)
  {
    if k >= |entries| then None
    else if Refers(entries[k], tx) then Some(k)
    else FirstReferred(entries, tx, k + 1)
  }

  /** The entries after applying suggestion `s` of discrepancy `d`, or None
    * when the source returns False. */
  function Applied(entries: seq<Entry>, d: Discrepancy, s: Suggestion): Option<seq<Entry>>
  {
    if d.side.Bank? && s.Generic? then Booked(entries, d.tx)
    else if s.Candidate? && s.kind.ValueSimilar? then
      match FirstReferred(entries, s.tx, 0)
      case None => None
      case Some(k) => Some(entries[k := entries[k].(movements := Adjusted(entries[k].movements, d.tx.amount))])
    else if s.Candidate? then Booked(entries, d.tx)
    else None
  }

  /** `aplicar_sugestao(di, si)`, with out-of-range positions refused. */
  function Applying(entries: seq<Entry>, ds: seq<Discrepancy>, di: int, si: int): Option<seq<Entry>>
  {
    if 0 <= di < |ds| && 0 <= si < |ds[di].suggestions| then Applied(entries, ds[di], ds[di].suggestions[si])
    else None
  }

  /** Creating an entry appends exactly one: numbered next, with the row's
    * date and description, origin "BANCO", and the row's amount debited to
    * one account and credited to another, so it is balanced. */
  lemma AppliedCreates(entries: seq<Entry>, d: Discrepancy, s: Suggestion)
    requires (d.side.Bank? && s.Generic?) || (s.Candidate? && !s.kind.ValueSimilar?)
    ensures Applied(entries, d, s).Some? <==> d.tx.desc.Str?
    ensures Applied(entries, d, s).Some? ==>
      var r := Applied(entries, d, s).value;
      var e := r[|entries|];
      && |r| == |entries| + 1 && r[..|entries|] == entries
      && e.id == EntryId('B', |entries| + 1) && e.date == d.tx.date && Str(e.desc) == d.tx.desc && e.origin == "BANCO"
      && Balanced(e.movements) && TotalDebit(e.movements) == d.tx.amount && TotalCredit(e.movements) == d.tx.amount
  {
    if d.tx.desc.Str? {
      var r := Applied(entries, d, s).value;
      assert r == entries + [BankEntry(|entries| + 1, d.tx)];
      assert r[..|entries|] == entries;
    }
  }

  /** A generic suggestion on a ledger row changes nothing. */
  lemma AppliedRefusesLedgerGeneric(entries: seq<Entry>, d: Discrepancy)
    requires d.side.Ledger?
    ensures Applied(entries, d, Generic(d.side)) == None
  {
  }

  /** A value-similar suggestion rewrites only the first entry it refers to:
    * its positive debits and credits become the unmatched row's amount,
    * everything else stays. It fails when no entry is referred to. */
  lemma AppliedAdjusts(entries: seq<Entry>, d: Discrepancy, s: Suggestion)
    requires s.Candidate? && s.kind.ValueSimilar?
    ensures Applied(entries, d, s).Some? <==> exists k :: 0 <= k < |entries| && Refers(entries[k], s.tx)
    ensures Applied(entries, d, s).Some? ==>
      var r := Applied(entries, d, s).value;
      var k := FirstReferred(entries, s.tx, 0).value;
      && |r| == |entries|
      && (forall m :: 0 <= m < |entries| && m != k ==> r[m] == entries[m])
      && (forall m :: 0 <= m < k ==> !Refers(entries[m], s.tx))
      && Refers(entries[k], s.tx)
      && r[k] == entries[k].(movements := Adjusted(entries[k].movements, d.tx.amount))
  {
    if exists k :: 0 <= k < |entries| && Refers(entries[k], s.tx) {
      var k :| 0 <= k < |entries| && Refers(entries[k], s.tx);
      assert FirstReferred(entries, s.tx, 0).Some?;
    }
  }

  /** Adjusting a two-movement entry of amount `x > 0` gives the same entry
    * at the new amount: it stays balanced. */
  lemma AdjustedDoubleEntry(debitAccount: string, creditAccount: string, x: real, v: real)
    requires x > 0.0
    ensures Adjusted(DoubleEntry(debitAccount, creditAccount, x), v) == DoubleEntry(debitAccount, creditAccount, v)
  {
    var ms := DoubleEntry(debitAccount, creditAccount, x);
    var r := Adjusted(ms, v);
    var w := DoubleEntry(debitAccount, creditAccount, v);
    assert r[0] == w[0] && r[1] == w[1];
  }

  /** Applying a suggestion keeps position numbering of the entries. */
  lemma AppliedKeepsNumbering(entries: seq<Entry>, d: Discrepancy, s: Suggestion)
    requires NumberedByPosition(entries) && Applied(entries, d, s).Some?
    ensures NumberedByPosition(Applied(entries, d, s).value)
  {
  }

  // ---------------------------------------------------------------------
  // Helpers on prefixes, for the loops below

  lemma PairStepClaims(t: Tables, i: nat, j: nat, rule: Rule, score: Scorer)
    requires i < |t.bank| && j < |t.ledger| && !t.bank[i].matched && !t.ledger[j].matched
    requires Fits(rule, t.bank[i].tx, t.ledger[j].tx, score).Some?
    requires FirstFit(t.ledger, t.bank[i].tx, rule, score, j) == FirstFit(t.ledger, t.bank[i].tx, rule, score, 0)
    ensures PairStep(t, i, |t.matches| + 1, rule, score)
      == Claim(t, PairRecord(t, i, j, |t.matches| + 1, Fits(rule, t.bank[i].tx, t.ledger[j].tx, score).value))
  {
  }

  lemma ReconciledUnfold(bankTxs: seq<Tx>, ledgerTxs: seq<Tx>, tolDays: int, tolText: int, score: Scorer)
    ensures var t := Matched(Tables(Fresh(bankTxs), Fresh(ledgerTxs), []), tolDays, tolText, score);
      Reconciled(bankTxs, ledgerTxs, tolDays, tolText, score) == Outcome(t, Discrepancies(t.bank, t.ledger, score))
  {
  }

  lemma MatchedUnfold(t0: Tables, tolDays: int, tolText: int, score: Scorer)
    ensures var t1 := PairPass(t0, 0, |t0.matches| + 1, ExactRule(tolText), score);
      var t2 := PairPass(t1, 0, |t1.matches| + 1, WindowRule(tolDays), score);
      Matched(t0, tolDays, tolText, score) == GroupAll(t2, tolDays)
  {
  }

  lemma PairPassAdvance(cur: Tables, next: Tables, i: nat, rule: Rule, score: Scorer)
    requires i < |cur.bank| && next == PairStep(cur, i, |cur.matches| + 1, rule, score)
    ensures PairPass(cur, i, |cur.matches| + 1, rule, score) == PairPass(next, i + 1, |next.matches| + 1, rule, score)
  {
    PairPassUnfold(cur, i, rule, score);
  }

  lemma PairPassDone(t: Tables, rule: Rule, score: Scorer)
    ensures PairPass(t, |t.bank|, |t.matches| + 1, rule, score) == t
  {
  }

  lemma MarkExtend(rows: seq<Row>, idx: seq<nat>, n: nat, id: nat)
    requires n < |idx| && idx[n] < |rows|
    ensures Mark(rows, idx[..n + 1], id) == Mark(rows, idx[..n], id)[idx[n] := Row(rows[idx[n]].tx, true, Some(id))]
  {
    assert idx[..n + 1] == idx[..n] + [idx[n]];
  }

  lemma FilterStep<T>(s: seq<T>, i: nat, p: T -> bool)
    requires i < |s|
    ensures Filter(s[..i + 1], p) == Filter(s[..i], p) + (if p(s[i]) then [s[i]] else [])
  {
    assert s[..i + 1] == s[..i] + [s[i]];
    FilterAppend(s[..i], [s[i]], p);
  }

  lemma MapTxsAppend(a: seq<Tx>, b: seq<Tx>, f: Tx -> Suggestion)
    ensures MapTxs(a + b, f) == MapTxs(a, f) + MapTxs(b, f)
  {
  }

  lemma ReportedStep(rows: seq<Row>, i: nat, others: seq<Tx>, side: Suggestions.Side, score: Scorer)
    requires i < |rows|
    ensures Reported(rows[..i + 1], others, side, score)
      == Reported(rows[..i], others, side, score)
         + (if !rows[i].matched then [Discrepancy(rows[i].tx, side, Suggest(rows[i].tx, others, side, score))] else [])
  {
    hide Suggest;
    var pre, ext := rows[..i], rows[..i + 1];
    assert ext[..|ext| - 1] == pre;
    var u, v := Unmatched(pre), Unmatched(ext);
    assert v == if !rows[i].matched then u + [i] else u;
  }

  lemma UnmatchedDatesStep(rows: seq<Row>, i: nat)
    requires i < |rows|
    ensures UnmatchedDates(rows[..i + 1])
      == var ds := UnmatchedDates(rows[..i]);
         if !rows[i].matched && rows[i].tx.date !in ds then ds + [rows[i].tx.date] else ds
  {
    assert rows[..i + 1][..i] == rows[..i];
  }

  // ---------------------------------------------------------------------
  // The loops

  /** Sets `conciliado` and `id_conciliacao` on the rows at `idx`. */
  method MarkRows(rows: array<Row>, idx: seq<nat>, id: nat)
    requires InRange(idx, rows.Length)
    modifies rows
    ensures rows[..] == Mark(old(rows[..]), idx, id)
  {
    ghost var before := rows[..];
    for n := 0 to |idx|
      invariant rows[..] == Mark(before, idx[..n], id)
    {
      MarkExtend(before, idx, n, id);
      rows[idx[n]] := Row(rows[idx[n]].tx, true, Some(id));
    }
    assert idx[..|idx|] == idx;
  }

  /** The working copy of a table, with the control columns added. */
  method FreshRows(txs: seq<Tx>) returns (rows: array<Row>)
    ensures fresh(rows) && rows[..] == Fresh(txs)
  {
    rows := new Row[|txs|](i requires 0 <= i < |txs| => Row(txs[i], false, None));
    assert rows[..] == Fresh(txs);
  }

  /** One of the three collecting loops of `_gerar_sugestao_correcao`. */
  method Collect(others: seq<Tx>, test: Tx -> bool, make: Tx -> Suggestion) returns (r: seq<Suggestion>)
    ensures r == MapTxs(Filter(others, test), make)
  {
    r := [];
    for i := 0 to |others|
      invariant r == MapTxs(Filter(others[..i], test), make)
    {
      FilterStep(others, i, test);
      MapTxsAppend(Filter(others[..i], test), if test(others[i]) then [others[i]] else [], make);
      if test(others[i]) {
        r := r + [make(others[i])];
      }
    }
    assert others[..|others|] == others;
  }

  /** `_gerar_sugestao_correcao`: collect, rank, keep three. */
  method SuggestFor(t: Tx, others: seq<Tx>, side: Suggestions.Side, score: Scorer) returns (r: seq<Suggestion>)
    ensures r == Suggest(t, others, side, score)
    ensures 1 <= |r| <= 3
  {
    var byValue := Collect(others, ValueTest(t), ValueMaker(t));
    var byDate := Collect(others, DateTest(t), DateMaker(t));
    var byText := Collect(others, TextTest(t, score), TextMaker(t, score));
    var cands := byValue + byDate + byText;
    SuggestShape(t, others, side, score);
    if cands == [] {
      r := [Generic(side)];
    } else {
      r := Take(SortByKey(cands, Rank), 3);
    }
  }

  /** `banco_nao_conciliado['data'].dt.date.unique()`. */
  method FreeDates(rows: array<Row>) returns (dates: seq<Date>)
    ensures dates == UnmatchedDates(rows[..])
  {
    dates := [];
    for i := 0 to rows.Length
      invariant dates == UnmatchedDates(rows[..i])
    {
      UnmatchedDatesStep(rows[..], i);
      if !rows[i].matched && rows[i].tx.date !in dates {
        dates := dates + [rows[i].tx.date];
      }
    }
    assert rows[..rows.Length] == rows[..];
  }

  class Reconciler {
    /** `transacoes_conciliadas` */
    var matches: seq<MatchRecord>
    /** `discrepancias` */
    var discrepancies: seq<Discrepancy>
    /** `contabilidade` */
    const books: Books

    constructor (books: Books)
      ensures this.books == books && matches == [] && discrepancies == []
    {
      this.books := books;
      matches, discrepancies := [], [];
    }

    /** `conciliar_automaticamente`, on working copies of the tables whose
      * rows start unmatched. */
    method Reconcile(bankTxs: seq<Tx>, ledgerTxs: seq<Tx>, tolDays: int, tolText: int, sim: (string, string) -> Score)
      returns (ms: seq<MatchRecord>, ds: seq<Discrepancy>)
      modifies this`matches, this`discrepancies
      ensures var o := Reconciled(bankTxs, ledgerTxs, tolDays, tolText, Scoring(sim));
        matches == o.tables.matches && discrepancies == o.discrepancies && ms == matches && ds == discrepancies
    {
      matches, discrepancies := [], [];
      var bank := FreshRows(bankTxs);
      var ledger := FreshRows(ledgerTxs);
      var score := Scoring(sim);
      ReconciledUnfold(bankTxs, ledgerTxs, tolDays, tolText, score);
      RunOn(bank, ledger, tolDays, tolText, score);
      ms, ds := matches, discrepancies;
    }

    /** The passes and the report, on working copies of the two tables. */
    method RunOn(bank: array<Row>, ledger: array<Row>, tolDays: int, tolText: int, score: Scorer)
      requires bank != ledger
      modifies bank, ledger, this`matches, this`discrepancies
      ensures var t := Matched(Tables(old(bank[..]), old(ledger[..]), old(matches)), tolDays, tolText, score);
        matches == t.matches && discrepancies == old(discrepancies) + Discrepancies(t.bank, t.ledger, score)
    {
      MatchAll(bank, ledger, tolDays, tolText, score);
      IdentifyDiscrepancies(bank, ledger, score);
    }

    /** The three passes, in order, on the working copies. */
    method MatchAll(bank: array<Row>, ledger: array<Row>, tolDays: int, tolText: int, score: Scorer)
      requires bank != ledger
      modifies bank, ledger, this`matches
      ensures Tables(bank[..], ledger[..], matches)
        == Matched(Tables(old(bank[..]), old(ledger[..]), old(matches)), tolDays, tolText, score)
    {
      // Only the contracts of the passes are needed here, not the bodies of
      // the functions they are specified by.
      hide *;
      MatchedUnfold(Tables(bank[..], ledger[..], matches), tolDays, tolText, score);
      PairRows(bank, ledger, ExactRule(tolText), score);
      PairRows(bank, ledger, WindowRule(tolDays), score);
      GroupRows(bank, ledger, tolDays);
    }

    /** `_matching_exato` and `_matching_por_valor_data`: each free bank row
      * claims the first free ledger row that fits the rule. */
    method PairRows(bank: array<Row>, ledger: array<Row>, rule: Rule, score: Scorer)
      requires bank != ledger
      modifies bank, ledger, this`matches
      ensures Tables(bank[..], ledger[..], matches)
        == PairPass(Tables(old(bank[..]), old(ledger[..]), old(matches)), 0, |old(matches)| + 1, rule, score)
    {
      ghost var target := PairPass(Tables(bank[..], ledger[..], matches), 0, |matches| + 1, rule, score);
      var i := 0;
      while i < bank.Length
        invariant 0 <= i <= bank.Length
        invariant PairPass(Tables(bank[..], ledger[..], matches), i, |matches| + 1, rule, score) == target
      {
        NextRow(bank, ledger, i, rule, score);
        i := i + 1;
      }
      PairPassDone(Tables(bank[..], ledger[..], matches), rule, score);
    }

    /** One turn of the outer loop, as a step of the pass. */
    method NextRow(bank: array<Row>, ledger: array<Row>, i: nat, rule: Rule, score: Scorer)
      requires bank != ledger && i < bank.Length
      modifies bank, ledger, this`matches
      ensures PairPass(Tables(bank[..], ledger[..], matches), i + 1, |matches| + 1, rule, score)
        == PairPass(Tables(old(bank[..]), old(ledger[..]), old(matches)), i, |old(matches)| + 1, rule, score)
    {
      ghost var cur := Tables(bank[..], ledger[..], matches);
      PairRow(bank, ledger, i, rule, score);
      PairPassAdvance(cur, Tables(bank[..], ledger[..], matches), i, rule, score);
    }

    /** The inner loop for bank row `i`. */
    method PairRow(bank: array<Row>, ledger: array<Row>, i: nat, rule: Rule, score: Scorer)
      requires bank != ledger && i < bank.Length
      modifies bank, ledger, this`matches
      ensures Tables(bank[..], ledger[..], matches)
        == PairStep(Tables(old(bank[..]), old(ledger[..]), old(matches)), i, |old(matches)| + 1, rule, score)
    {
      ghost var before := Tables(bank[..], ledger[..], matches);
      if bank[i].matched {
        return;
      }
      var b := bank[i].tx;
      for j := 0 to ledger.Length
        invariant bank[..] == before.bank && ledger[..] == before.ledger && matches == before.matches
        invariant FirstFit(before.ledger, b, rule, score, j) == FirstFit(before.ledger, b, rule, score, 0)
      {
        if !ledger[j].matched {
          var fit := Fits(rule, b, ledger[j].tx, score);
          if fit.Some? {
            var rec := MatchRecord(|matches| + 1, [i], [j], b.date, ledger[j].tx.date, b.amount, ledger[j].tx.amount, fit.value);
            PairStepClaims(before, i, j, rule, score);
            MarkRows(bank, [i], rec.id);
            MarkRows(ledger, [j], rec.id);
            matches := matches + [rec];
            return;
          }
        }
      }
    }

    /** `_matching_por_agrupamento` (with the correction described in the
      * findings): one date after another, over the dates of the bank rows
      * free when the pass starts. */
    method GroupRows(bank: array<Row>, ledger: array<Row>, tol: int)
      requires bank != ledger
      modifies bank, ledger, this`matches
      ensures Tables(bank[..], ledger[..], matches) == GroupAll(Tables(old(bank[..]), old(ledger[..]), old(matches)), tol)
    {
      var dates := FreeDates(bank);
      ghost var target := GroupPass(Tables(bank[..], ledger[..], matches), dates, tol);
      for k := 0 to |dates|
        invariant GroupPass(Tables(bank[..], ledger[..], matches), dates[k..], tol) == target
      {
        assert dates[k..][1..] == dates[k + 1..];
        GroupDate(bank, ledger, dates[k], tol);
      }
    }

    /** One date of the grouping pass: skipped when either side has no free
      * row, otherwise the loop over bank group sizes 1 to 3. Each turn
      * claims the first agreeing pair of groups of rows still free, if any. */
    method GroupDate(bank: array<Row>, ledger: array<Row>, d: Date, tol: int)
      requires bank != ledger
      modifies bank, ledger, this`matches
      ensures Tables(bank[..], ledger[..], matches) == GroupOnDate(Tables(old(bank[..]), old(ledger[..]), old(matches)), d, tol)
    {
      hide GroupOnDate, SizesUpTo, TrySize, Search, Candidates, BankOn, LedgerNear, Claim,
        Pairs, Combos, Choices, Select, FirstAgreeing, SumOf;
      var t := Tables(bank[..], ledger[..], matches);
      GroupOnDateUnfold(t, d, tol);
      if BankOn(t, d) == [] || LedgerNear(t, d, tol) == [] {
        return;
      }
      SizesUpToZero(t, d, tol);
      for n := 1 to 4
        invariant Tables(bank[..], ledger[..], matches) == SizesUpTo(t, d, tol, n - 1)
      {
        var cur := Tables(bank[..], ledger[..], matches);
        SizesUpToUnfold(t, d, tol, n);
        TrySizeUnfold(cur, d, tol, n);
        var found := FindGroup(cur, d, tol, n);
        if found.Some? {
          ClaimRows(bank, ledger, GroupRecord(cur, found.value, d));
        }
      }
    }

    /** The four nested loops of one turn, over the groups of `n` rows of
      * `banco_data` and the groups of `livro_periodo`, flattened: the first
      * pair whose sums agree. */
    method FindGroup(t: Tables, d: Date, tol: int, n: nat) returns (found: Option<(seq<nat>, seq<nat>)>)
      requires 1 <= n <= 3
      ensures found == Search(t, d, tol, n)
    {
      var cands := Candidates(t, d, tol, n);
      CandidatesInRange(t, d, tol, n);
      var bankTxs, ledgerTxs := Txs(t.bank), Txs(t.ledger);
      for k := 0 to |cands|
        invariant FirstAgreeing(bankTxs, ledgerTxs, cands, k) == FirstAgreeing(bankTxs, ledgerTxs, cands, 0)
      {
        if Agree(bankTxs, ledgerTxs, cands[k]) {
          return Some(cands[k]);
        }
      }
      return None;
    }

    /** Marks the record's rows on both sides and appends the record. */
    method ClaimRows(bank: array<Row>, ledger: array<Row>, rec: MatchRecord)
      requires bank != ledger && InRange(rec.bankRows, bank.Length) && InRange(rec.ledgerRows, ledger.Length)
      modifies bank, ledger, this`matches
      ensures Tables(bank[..], ledger[..], matches) == Claim(Tables(old(bank[..]), old(ledger[..]), old(matches)), rec)
    {
      MarkRows(bank, rec.bankRows, rec.id);
      MarkRows(ledger, rec.ledgerRows, rec.id);
      matches := matches + [rec];
    }

    /** `_identificar_discrepancias` */
    method IdentifyDiscrepancies(bank: array<Row>, ledger: array<Row>, score: Scorer)
      modifies this`discrepancies
      ensures discrepancies == old(discrepancies) + Discrepancies(bank[..], ledger[..], score)
    {
      hide Reported, Txs;
      ReportRows(bank, Txs(ledger[..]), Bank, score);
      ReportRows(ledger, Txs(bank[..]), Suggestions.Side.Ledger, score);
    }

    /** One of its two loops: a report per free row, with suggestions drawn
      * from the other table. */
    method ReportRows(rows: array<Row>, others: seq<Tx>, side: Suggestions.Side, score: Scorer)
      modifies this`discrepancies
      ensures discrepancies == old(discrepancies) + Reported(rows[..], others, side, score)
    {
      hide Suggest;
      for i := 0 to rows.Length
        invariant discrepancies == old(discrepancies) + Reported(rows[..i], others, side, score)
      {
        ReportedStep(rows[..], i, others, side, score);
        if !rows[i].matched {
          var sugs := SuggestFor(rows[i].tx, others, side, score);
          discrepancies := discrepancies + [Discrepancy(rows[i].tx, side, sugs)];
        }
      }
      assert rows[..rows.Length] == rows[..];
    }

    /** `aplicar_sugestao`: on success the entries are those `Applying`
      * gives and the discrepancy is removed; otherwise nothing changes. */
    method ApplySuggestion(di: int, si: int) returns (ok: bool)
      modifies this`discrepancies, books`entries
      ensures var outcome := Applying(old(books.entries), old(discrepancies), di, si);
        && ok == outcome.Some?
        && (ok ==> books.entries == outcome.value && discrepancies == old(discrepancies)[..di] + old(discrepancies)[di + 1..])
        && (!ok ==> books.entries == old(books.entries) && discrepancies == old(discrepancies))
    {
      if di < 0 || di >= |discrepancies| {
        return false;
      }
      var d := discrepancies[di];
      if si < 0 || si >= |d.suggestions| {
        return false;
      }
      var s := d.suggestions[si];
      if (d.side.Bank? && s.Generic?) || (s.Candidate? && !s.kind.ValueSimilar?) {
        if !d.tx.desc.Str? {
          return false;
        }
        books.entries := books.entries + [BankEntry(|books.entries| + 1, d.tx)];
        discrepancies := discrepancies[..di] + discrepancies[di + 1..];
        return true;
      } else if s.Candidate? {
        ghost var entries := books.entries;
        for k := 0 to |books.entries|
          invariant books.entries == entries
          invariant FirstReferred(entries, s.tx, k) == FirstReferred(entries, s.tx, 0)
        {
          var e := books.entries[k];
          if e.date == s.tx.date && s.tx.desc == Str(e.desc) {
            var ms := AdjustMovements(e.movements, d.tx.amount);
            books.entries := books.entries[k := e.(movements := ms)];
            discrepancies := discrepancies[..di] + discrepancies[di + 1..];
            return true;
          }
        }
      }
      return false;
    }
  }

  /** The loop over one entry's movements in the value-similar branch. */
  method AdjustMovements(ms: seq<Movement>, v: real) returns (r: seq<Movement>)
    ensures r == Adjusted(ms, v)
  {
    r := ms;
    for k := 0 to |ms|
      invariant |r| == |ms|
      invariant r[..k] == Adjusted(ms, v)[..k] && r[k..] == ms[k..]
    {
      var m := r[k];
      if m.debit > 0.0 {
        m := m.(debit := v);
      }
      if m.credit > 0.0 {
        m := m.(credit := v);
      }
      r := r[k := m];
    }
  }
}
