// `_matching_por_agrupamento` of conciliacao_automatica.py as written. The
// candidate lists of a date (`banco_data`, `livro_periodo`) are taken once,
// before the search; after a match only the loop over ledger groups stops,
// and the loop over bank group sizes goes on with the old lists. A later,
// larger bank group can then take rows an earlier match already claimed.
module GroupingAsWritten {
  import opened Util
  import opened Calendar
  import opened Normalization
  import opened MatchState
  import opened Grouping

  predicate AllInRange(cs: seq<seq<nat>>, n: nat)
  {
    forall i :: 0 <= i < |cs| ==> InRange(cs[i], n)
  }

  lemma {:induction false} CombosInRange(xs: seq<nat>, k: nat, n: nat)
    requires InRange(xs, n)
    ensures AllInRange(Combos(xs, k), n)
    decreases |xs|
  {
    if k == 0 {
      assert Combos(xs, k) == [[]];
    } else if |xs| >= k {
      assert InRange(xs[1..], n) by {
        forall m | 0 <= m < |xs[1..]| ensures xs[1..][m] < n { assert xs[1..][m] == xs[m + 1]; }
      }
      var a, b := Combos(xs[1..], k - 1), Combos(xs[1..], k);
      CombosInRange(xs[1..], k - 1, n);
      CombosInRange(xs[1..], k, n);
      var first := Prepend(xs[0], a);
      assert Combos(xs, k) == first + b;
      forall i | 0 <= i < |first + b| ensures InRange((first + b)[i], n) {
        if i < |first| {
          assert (first + b)[i] == [xs[0]] + a[i];
          PrependInRange(xs[0], a[i], n);
        } else {
          assert (first + b)[i] == b[i - |first|];
        }
      }
    }
  }

  lemma PrependInRange(x: nat, c: seq<nat>, n: nat)
    requires x < n && InRange(c, n)
    ensures InRange([x] + c, n)
  {
    forall m | 0 <= m < |[x] + c| ensures ([x] + c)[m] < n {
      if m > 0 { assert ([x] + c)[m] == c[m - 1]; }
    }
  }

  /** `all(banco_df.loc[combinacao_banco.index, 'conciliado'])` */
  predicate AllMatched(rows: seq<Row>, idx: seq<nat>)
    requires InRange(idx, |rows|)
  {
    forall n :: 0 <= n < |idx| ==> rows[idx[n]].matched
  }

  /** The innermost loop: the first ledger group of this size whose sum agrees
    * with the bank group's is claimed with it, whatever either already holds. */
  function TryLedger(t: Tables, cb: seq<nat>, cls: seq<seq<nat>>, d: Date): (r: Tables)
    requires InRange(cb, |t.bank|) && AllInRange(cls, |t.ledger|)
    ensures |r.bank| == |t.bank| && |r.ledger| == |t.ledger|
  {
    if cls == [] then t
    else if cls[0] != [] && Agree(Txs(t.bank), Txs(t.ledger), (cb, cls[0])) then Claim(t, GroupRecord(t, (cb, cls[0]), d))
    else TryLedger(t, cb, cls[1..], d)
  }

  /** The loop over ledger group sizes: it stops once the bank group's rows
    * are all matched. */
  function LedgerSizes(t: Tables, cb: seq<nat>, lp: seq<nat>, nl: nat, d: Date): (r: Tables)
    requires InRange(cb, |t.bank|) && InRange(lp, |t.ledger|)
    ensures |r.bank| == |t.bank| && |r.ledger| == |t.ledger|
    decreases 4 - nl
  {
    if nl > 3 || nl > |lp| then t
    else
      CombosInRange(lp, nl, |t.ledger|);
      var next := TryLedger(t, cb, Combos(lp, nl), d);
      if AllMatched(next.bank, cb) then next else LedgerSizes(next, cb, lp, nl + 1, d)
  }

  /** The loop over the bank groups of one size, with the same stop test. */
  function BankGroups(t: Tables, cbs: seq<seq<nat>>, lp: seq<nat>, d: Date): (r: Tables)
    requires AllInRange(cbs, |t.bank|) && InRange(lp, |t.ledger|)
    ensures |r.bank| == |t.bank| && |r.ledger| == |t.ledger|
    decreases |cbs|
  {
    if cbs == [] then t
    else
      var next := LedgerSizes(t, cbs[0], lp, 1, d);
      if AllMatched(next.bank, cbs[0]) then next else BankGroups(next, cbs[1..], lp, d)
  }

  /** The loop over bank group sizes: it never stops early. */
  function BankSizes(t: Tables, bd: seq<nat>, lp: seq<nat>, nb: nat, d: Date): (r: Tables)
    requires InRange(bd, |t.bank|) && InRange(lp, |t.ledger|)
    ensures |r.bank| == |t.bank| && |r.ledger| == |t.ledger|
    decreases 4 - nb
  {
    if nb > 3 || nb > |bd| then t
    else
      CombosInRange(bd, nb, |t.bank|);
      BankSizes(BankGroups(t, Combos(bd, nb), lp, d), bd, lp, nb + 1, d)
  }

  /** One date: the candidate lists are taken here, once. */
  function DateAsWritten(t: Tables, d: Date, tol: int): (r: Tables)
    ensures |r.bank| == |t.bank| && |r.ledger| == |t.ledger|
  {
    var bd, lp := BankOn(t, d), LedgerNear(t, d, tol);
    if bd == [] || lp == [] then t else BankSizes(t, bd, lp, 1, d)
  }

  function PassAsWritten(t: Tables, dates: seq<Date>, tol: int): Tables
    decreases |dates|
  {
    if dates == [] then t else PassAsWritten(DateAsWritten(t, dates[0], tol), dates[1..], tol)
  }

  function GroupAllAsWritten(t: Tables, tol: int): Tables
  {
    PassAsWritten(t, UnmatchedDates(t.bank), tol)
  }

  function ExampleBank(d: Date): seq<Tx>
  {
    [Tx(d, NonText, 100.0), Tx(d, NonText, 50.0)]
  }

  function ExampleLedger(d: Date): seq<Tx>
  {
    [Tx(d, NonText, 60.0), Tx(d, NonText, 40.0), Tx(d, NonText, 90.0)]
  }

  function ExampleStart(d: Date): Tables
  {
    Tables(Fresh(ExampleBank(d)), Fresh(ExampleLedger(d)), [])
  }

  /** After the first match: bank row 0 with ledger rows 0 and 1. */
  function ExampleFirst(d: Date): Tables
  {
    var t0 := ExampleStart(d);
    Claim(t0, GroupRecord(t0, ([0], [0, 1]), d))
  }

  /** After the second match: bank rows 0 and 1 with ledger rows 0 and 2. */
  function ExampleSecond(d: Date): Tables
  {
    var t1 := ExampleFirst(d);
    Claim(t1, GroupRecord(t1, ([0, 1], [0, 2]), d))
  }

  lemma ExampleLists(d: Date)
    ensures UnmatchedDates(ExampleStart(d).bank) == [d]
    ensures BankOn(ExampleStart(d), d) == [0, 1]
    ensures LedgerNear(ExampleStart(d), d, 3) == [0, 1, 2]
  {
    ExampleDates(d);
    ExampleBankOn(d);
    ExampleLedgerNear(d);
  }

  lemma ExampleDates(d: Date)
    ensures UnmatchedDates(ExampleStart(d).bank) == [d]
  {
    var b := ExampleStart(d).bank;
    assert b[..1][..0] == [];
    assert UnmatchedDates(b[..1]) == [d];
    assert b[..2][..1] == b[..1] && b[..2] == b;
  }

  lemma ExampleBankOn(d: Date)
    ensures BankOn(ExampleStart(d), d) == [0, 1]
  {
    SelectEvery(ExampleStart(d).bank, FreeOn(d));
    assert seq(2, i => i) == [0, 1];
  }

  lemma ExampleLedgerNear(d: Date)
    ensures LedgerNear(ExampleStart(d), d, 3) == [0, 1, 2]
  {
    assert DayDiff(d, d) == 0;
    SelectEvery(ExampleStart(d).ledger, FreeNear(d, 3));
    assert seq(3, i => i) == [0, 1, 2];
  }

  /** When every row satisfies `p`, all positions are selected. */
  lemma {:induction false} SelectEvery(rows: seq<Row>, p: Row -> bool)
    requires forall i :: 0 <= i < |rows| ==> p(rows[i])
    ensures Select(rows, p) == seq(|rows|, i => i)
  {
    if rows != [] {
      var init := rows[..|rows| - 1];
      assert forall i :: 0 <= i < |init| ==> init[i] == rows[i];
      SelectEvery(init, p);
      assert seq(|init|, i => i) + [|rows| - 1] == seq(|rows|, i => i);
    }
  }

  lemma ExampleCombos()
    ensures Combos([0, 1, 2], 1) == [[0], [1], [2]]
    ensures Combos([0, 1, 2], 2) == [[0, 1], [0, 2], [1, 2]]
    ensures Combos([0, 1], 1) == [[0], [1]]
    ensures Combos([0, 1], 2) == [[0, 1]]
  {
    assert [2][1..] == [] && [1, 2][1..] == [2] && [0, 1, 2][1..] == [1, 2] && [1][1..] == [] && [0, 1][1..] == [1];
    assert Combos([], 0) == [[]] && Combos([], 1) == [];
    assert Prepend(2, [[]])[0] == [2];
    assert Prepend(2, [[]]) == [[2]];
    assert Combos([2], 1) == [[2]];
    assert Prepend(1, [[]])[0] == [1];
    assert Prepend(1, [[]]) == [[1]];
    assert Combos([1, 2], 1) == [[1], [2]];
    assert Combos([2], 2) == [];
    assert Prepend(1, [[2]])[0] == [1, 2];
    assert Prepend(1, [[2]]) == [[1, 2]];
    assert Combos([1, 2], 2) == [[1, 2]];
    assert Prepend(0, [[]])[0] == [0];
    assert Prepend(0, [[]]) == [[0]];
    assert Combos([0, 1, 2], 1) == [[0], [1], [2]];
    assert Prepend(0, [[1], [2]])[0] == [0, 1] && Prepend(0, [[1], [2]])[1] == [0, 2];
    assert Prepend(0, [[1], [2]]) == [[0, 1], [0, 2]];
    assert Combos([0, 1, 2], 2) == [[0, 1], [0, 2], [1, 2]];
    assert Combos([1], 1) == [[1]];
    assert Combos([0, 1], 1) == [[0], [1]];
    assert Combos([1], 2) == [];
    assert Prepend(0, [[1]]) == [[0, 1]];
  }

  lemma ExampleSums(d: Date)
    ensures forall x: nat :: x < 2 ==> SumOf(ExampleBank(d), [x]) == ExampleBank(d)[x].amount
    ensures forall x: nat :: x < 3 ==> SumOf(ExampleLedger(d), [x]) == ExampleLedger(d)[x].amount
    ensures SumOf(ExampleLedger(d), [0, 1]) == 100.0
    ensures SumOf(ExampleLedger(d), [0, 2]) == 150.0
    ensures SumOf(ExampleLedger(d), [1, 2]) == 130.0
    ensures SumOf(ExampleBank(d), [0, 1]) == 150.0
  {
    forall x: nat | x < 2 ensures SumOf(ExampleBank(d), [x]) == ExampleBank(d)[x].amount { assert [x][..0] == []; }
    forall x: nat | x < 3 ensures SumOf(ExampleLedger(d), [x]) == ExampleLedger(d)[x].amount { assert [x][..0] == []; }
    assert [0, 1][..1] == [0];
    assert [0, 2][..1] == [0];
    assert [1, 2][..1] == [1];
    assert SumOf(ExampleLedger(d), [0]) == 60.0 && SumOf(ExampleLedger(d), [1]) == 40.0;
    assert SumOf(ExampleBank(d), [0]) == 100.0;
  }

  lemma ExampleSinglesMiss(t: Tables, cb: seq<nat>, d: Date)
    requires Txs(t.bank) == ExampleBank(d) && Txs(t.ledger) == ExampleLedger(d)
    requires cb == [0] || cb == [0, 1]
    ensures TryLedger(t, cb, [[0], [1], [2]], d) == t
  {
    ExampleSums(d);
    assert TryLedger(t, cb, [[2]], d) == t;
    assert TryLedger(t, cb, [[1], [2]], d) == t;
  }

  lemma ExampleFirstPair(d: Date)
    ensures TryLedger(ExampleStart(d), [0], [[0, 1], [0, 2], [1, 2]], d) == ExampleFirst(d)
  {
    var t0 := ExampleStart(d);
    ExampleSums(d);
    assert Txs(t0.bank) == ExampleBank(d) && Txs(t0.ledger) == ExampleLedger(d);
  }

  lemma ExampleSecondPair(d: Date)
    ensures TryLedger(ExampleFirst(d), [0, 1], [[0, 1], [0, 2], [1, 2]], d) == ExampleSecond(d)
  {
    var t1 := ExampleFirst(d);
    ExampleSums(d);
    assert Txs(t1.bank) == ExampleBank(d) && Txs(t1.ledger) == ExampleLedger(d);
    assert TryLedger(t1, [0, 1], [[0, 2], [1, 2]], d) == ExampleSecond(d);
  }

  lemma ExampleFirstMatch(d: Date)
    ensures BankGroups(ExampleStart(d), [[0], [1]], [0, 1, 2], d) == ExampleFirst(d)
  {
    hide TryLedger, Combos, SumOf, Agree, Prepend;
    var t0, t1 := ExampleStart(d), ExampleFirst(d);
    ExampleCombos();
    assert Txs(t0.bank) == ExampleBank(d) && Txs(t0.ledger) == ExampleLedger(d);
    ExampleSinglesMiss(t0, [0], d);
    ExampleFirstPair(d);
    assert t1.bank[0].matched;
    assert LedgerSizes(t0, [0], [0, 1, 2], 2, d) == t1;
    assert LedgerSizes(t0, [0], [0, 1, 2], 1, d) == t1;
  }

  lemma ExampleSecondMatch(d: Date)
    ensures BankGroups(ExampleFirst(d), [[0, 1]], [0, 1, 2], d) == ExampleSecond(d)
  {
    hide TryLedger, Combos, SumOf, Agree, Prepend;
    var t1, t2 := ExampleFirst(d), ExampleSecond(d);
    ExampleCombos();
    assert Txs(t1.bank) == ExampleBank(d) && Txs(t1.ledger) == ExampleLedger(d);
    ExampleSinglesMiss(t1, [0, 1], d);
    ExampleSecondPair(d);
    assert !t1.bank[1].matched;
    assert t2.bank[0].matched && t2.bank[1].matched;
    assert LedgerSizes(t1, [0, 1], [0, 1, 2], 2, d) == t2;
    assert LedgerSizes(t1, [0, 1], [0, 1, 2], 1, d) == t2;
  }

  lemma ExampleDate(d: Date)
    ensures DateAsWritten(ExampleStart(d), d, 3) == ExampleSecond(d)
  {
    var t0, t1, t2 := ExampleStart(d), ExampleFirst(d), ExampleSecond(d);
    ExampleLists(d);
    ExampleCombos();
    ExampleFirstMatch(d);
    ExampleSecondMatch(d);
    assert BankSizes(t1, [0, 1], [0, 1, 2], 2, d) == t2;
    assert BankSizes(t0, [0, 1], [0, 1, 2], 1, d) == t2;
  }

  lemma ExampleSecondBroken(d: Date)
    ensures var r := ExampleSecond(d);
      && |r.matches| == 2
      && r.matches[0].bankRows == [0] && r.matches[0].ledgerRows == [0, 1]
      && r.matches[1].bankRows == [0, 1] && r.matches[1].ledgerRows == [0, 2]
      && !WellFormed(r)
  {
    var r := ExampleSecond(d);
    assert r.bank[0].matchId == Some(2) && r.matches[0].bankRows[0] == 0;
  }

  /** Two bank rows of 100 and 50 and ledger rows of 60, 40 and 90, all on one
    * date: bank row 0 first matches ledger rows 0 and 1 (100 = 60 + 40); the
    * size-2 bank group then matches ledger rows 0 and 2 (150 = 60 + 90), so
    * bank row 0 and ledger row 0 sit in two matches and the invariant breaks. */
  lemma GroupingReclaimsRows(d: Date)
    ensures var r := GroupAllAsWritten(ExampleStart(d), 3);
      && |r.matches| == 2
      && r.matches[0].bankRows == [0] && r.matches[0].ledgerRows == [0, 1]
      && r.matches[1].bankRows == [0, 1] && r.matches[1].ledgerRows == [0, 2]
      && !WellFormed(r)
  {
    ExamplePass(d);
    ExampleSecondBroken(d);
  }

  lemma ExamplePass(d: Date)
    ensures GroupAllAsWritten(ExampleStart(d), 3) == ExampleSecond(d)
  {
    ExampleLists(d);
    ExampleDate(d);
    assert [d][1..] == [];
    assert PassAsWritten(ExampleStart(d), [d], 3) == PassAsWritten(ExampleSecond(d), [], 3);
  }
}
