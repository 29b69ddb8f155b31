// The working state of conciliacao_automatica.py's matcher: the two tables
// with their `conciliado` / `id_conciliacao` columns, and the list
// `transacoes_conciliadas` the passes append to.
module MatchState {
  import opened Util
  import opened Calendar
  import opened Normalization

  /** A similarity score, as `fuzz.token_sort_ratio` returns it. */
  type Score = x: int | 0 <= x <= 100

  /** How the matcher scores two descriptions. */
  type Scorer = (Cell, Cell) -> Score

  /** The similarity measure (`fuzz.token_sort_ratio`, a parameter of the
    * model) applied to both normalized texts, as every caller of it does. */
  function Scoring(sim: (string, string) -> Score): (score: Scorer)
    ensures forall a, b :: score(a, b) == sim(Normalize(a), Normalize(b))
  {
    (a: Cell, b: Cell) => sim(Normalize(a), Normalize(b))
  }

  /** One row of a statement or of the ledger: `data`, `descricao`, `valor`. */
  datatype Tx = Tx(date: Date, desc: Cell, amount: real)

  /** A row of a working table: the transaction, `conciliado` and `id_conciliacao`. */
  datatype Row = Row(tx: Tx, matched: bool, matchId: Option<nat>)

  /** `metodo`, with what each method records: `similaridade`, `dias_diferenca`. */
  datatype Method = Exact(similarity: Score) | ValueDate(dayDiff: nat) | Grouping

  /** An entry of `transacoes_conciliadas`. Rows are named by their position
    * in the tables; for a group the amounts are the two sums. */
  datatype MatchRecord = MatchRecord(
    id: nat,
    bankRows: seq<nat>, ledgerRows: seq<nat>,
    bankDate: Date, ledgerDate: Date,
    bankAmount: real, ledgerAmount: real,
    how: Method)

  datatype Tables = Tables(bank: seq<Row>, ledger: seq<Row>, matches: seq<MatchRecord>)

  /** The working copy of a table: every row unmatched, without an id. */
  function Fresh(txs: seq<Tx>): (r: seq<Row>)
    ensures |r| == |txs|
    ensures forall i :: 0 <= i < |r| ==> r[i] == Row(txs[i], false, None)
  {
    seq(|txs|, i requires 0 <= i < |txs| => Row(txs[i], false, None))
  }

  function Txs(rows: seq<Row>): (r: seq<Tx>)
    ensures |r| == |rows| && forall i :: 0 <= i < |rows| ==> r[i] == rows[i].tx
  {
    seq(|rows|, i requires 0 <= i < |rows| => rows[i].tx)
  }

  /** Whole days between two dates, `abs((a - b).days)`. */
  function DayDiff(a: Date, b: Date): nat
  {
    AbsInt(Ordinal(a) - Ordinal(b))
  }

  /** The amount test every pass uses: `abs(a - b) < 0.01`. */
  predicate SameAmount(x: real, y: real)
  {
    Abs(x - y) < 0.01
  }

  predicate Increasing(s: seq<nat>)
  {
    forall a, b :: 0 <= a < b < |s| ==> s[a] < s[b]
  }

  predicate InRange(idx: seq<nat>, n: nat)
  {
    forall k :: 0 <= k < |idx| ==> idx[k] < n
  }

  /** `sum(rows['valor'])` over the rows at the given positions. */
  function SumOf(txs: seq<Tx>, idx: seq<nat>): real
    requires InRange(idx, |txs|)
  {
    if idx == [] then 0.0 else SumOf(txs, idx[..|idx| - 1]) + txs[idx[|idx| - 1]].amount
  }

  /** The positions of the rows that satisfy `p`, in table order. */
  function Select(rows: seq<Row>, p: Row -> bool): (r: seq<nat>)
    ensures Increasing(r) && InRange(r, |rows|)
    ensures forall k :: 0 <= k < |r| ==> p(rows[r[k]])
    ensures forall i :: 0 <= i < |rows| && p(rows[i]) ==> i in r
  {
    if rows == [] then []
    else
      var s := Select(rows[..|rows| - 1], p);
      if p(rows[|rows| - 1]) then s + [|rows| - 1] else s
  }

  predicate Free(r: Row) { !r.matched }

  /** The rows still unmatched: `df[~df['conciliado']]`. */
  function Unmatched(rows: seq<Row>): seq<nat>
  {
    Select(rows, Free)
  }

  /** A row is listed as unmatched exactly when it is not marked. */
  lemma UnmatchedIff(rows: seq<Row>, i: nat)
    requires i < |rows|
    ensures i in Unmatched(rows) <==> !rows[i].matched
  {
    var u := Unmatched(rows);
    if i in u {
      var k :| 0 <= k < |u| && u[k] == i;
    }
  }

  /** Sets `conciliado` and `id_conciliacao` on the rows at the given positions. */
  function Mark(rows: seq<Row>, idx: seq<nat>, id: nat): (r: seq<Row>)
    ensures |r| == |rows| && Txs(r) == Txs(rows)
    ensures forall i :: 0 <= i < |rows| ==>
      r[i] == if i in idx then Row(rows[i].tx, true, Some(id)) else rows[i]
  {
    seq(|rows|, i requires 0 <= i < |rows| => if i in idx then Row(rows[i].tx, true, Some(id)) else rows[i])
  }

  /** Marks both sides' rows with the record's id and appends the record. */
  function Claim(t: Tables, rec: MatchRecord): (r: Tables)
    ensures |r.bank| == |t.bank| && |r.ledger| == |t.ledger|
    ensures Txs(r.bank) == Txs(t.bank) && Txs(r.ledger) == Txs(t.ledger)
    ensures r.matches == t.matches + [rec]
  {
    Tables(Mark(t.bank, rec.bankRows, rec.id), Mark(t.ledger, rec.ledgerRows, rec.id), t.matches + [rec])
  }

  /** What a record says about the transactions it joins: at least one row on
    * each side, the amounts are the sums and agree within a cent, the dates
    * are the first rows' dates, and the method's own condition. */
  predicate RecordFits(bank: seq<Tx>, ledger: seq<Tx>, rec: MatchRecord)
  {
    && 1 <= |rec.bankRows| && 1 <= |rec.ledgerRows|
    && Increasing(rec.bankRows) && Increasing(rec.ledgerRows)
    && InRange(rec.bankRows, |bank|) && InRange(rec.ledgerRows, |ledger|)
    && rec.bankAmount == SumOf(bank, rec.bankRows)
    && rec.ledgerAmount == SumOf(ledger, rec.ledgerRows)
    && SameAmount(rec.bankAmount, rec.ledgerAmount)
    && rec.bankDate == bank[rec.bankRows[0]].date
    && rec.ledgerDate == ledger[rec.ledgerRows[0]].date
    && match rec.how
       case Exact(_) => |rec.bankRows| == 1 && |rec.ledgerRows| == 1 && rec.bankDate == rec.ledgerDate
       case ValueDate(days) => |rec.bankRows| == 1 && |rec.ledgerRows| == 1 && days == DayDiff(rec.bankDate, rec.ledgerDate)
       case Grouping =>
         && |rec.bankRows| <= 3 && |rec.ledgerRows| <= 3
         && forall n :: 0 <= n < |rec.bankRows| ==> bank[rec.bankRows[n]].date == rec.bankDate
  }

  /** `conciliado` is set exactly when `id_conciliacao` is. */
  predicate Tagged(rows: seq<Row>)
  {
    forall i :: 0 <= i < |rows| ==> (rows[i].matched <==> rows[i].matchId.Some?)
  }

  /** Every row a record names carries the record's id. */
  predicate Carries(rows: seq<Row>, matches: seq<MatchRecord>, bankSide: bool)
  {
    forall k, n :: 0 <= k < |matches| && 0 <= n < |Side(matches[k], bankSide)| ==>
      Side(matches[k], bankSide)[n] < |rows| && rows[Side(matches[k], bankSide)[n]].matchId == Some(k + 1)
  }

  /** Every id a row carries names a record that lists the row. */
  predicate Listed(rows: seq<Row>, matches: seq<MatchRecord>, bankSide: bool)
  {
    forall i :: 0 <= i < |rows| && rows[i].matchId.Some? ==>
      1 <= rows[i].matchId.value <= |matches| && i in Side(matches[rows[i].matchId.value - 1], bankSide)
  }

  function Side(rec: MatchRecord, bankSide: bool): seq<nat>
  {
    if bankSide then rec.bankRows else rec.ledgerRows
  }

  /** The matcher's invariant: ids run 1, 2, ..., every record fits its rows,
    * and rows and records point at each other. */
  predicate WellFormed(t: Tables)
  {
    && Tagged(t.bank) && Tagged(t.ledger)
    && (forall k :: 0 <= k < |t.matches| ==>
          t.matches[k].id == k + 1 && RecordFits(Txs(t.bank), Txs(t.ledger), t.matches[k]))
    && Carries(t.bank, t.matches, true) && Carries(t.ledger, t.matches, false)
    && Listed(t.bank, t.matches, true) && Listed(t.ledger, t.matches, false)
  }

  /** Before any pass runs. */
  lemma StartWellFormed(bank: seq<Tx>, ledger: seq<Tx>)
    ensures WellFormed(Tables(Fresh(bank), Fresh(ledger), []))
  {
  }

  /** No row belongs to two matches: a row in records k1 and k2 means k1 == k2. */
  lemma NoRowClaimedTwice(t: Tables, bankSide: bool, k1: nat, k2: nat, n1: nat, n2: nat)
    requires WellFormed(t)
    requires k1 < |t.matches| && k2 < |t.matches|
    requires n1 < |Side(t.matches[k1], bankSide)| && n2 < |Side(t.matches[k2], bankSide)|
    requires Side(t.matches[k1], bankSide)[n1] == Side(t.matches[k2], bankSide)[n2]
    ensures k1 == k2
  {
    hide RecordFits, SumOf;
    var i := Side(t.matches[k1], bankSide)[n1];
    if bankSide {
      assert t.bank[i].matchId == Some(k1 + 1) && t.bank[i].matchId == Some(k2 + 1);
    } else {
      assert t.ledger[i].matchId == Some(k1 + 1) && t.ledger[i].matchId == Some(k2 + 1);
    }
  }

  /** A row is matched exactly when some record lists it. */
  lemma MatchedIffListed(rows: seq<Row>, matches: seq<MatchRecord>, bankSide: bool, i: nat)
    requires Tagged(rows) && Carries(rows, matches, bankSide) && Listed(rows, matches, bankSide)
    requires i < |rows|
    ensures rows[i].matched <==> exists k :: 0 <= k < |matches| && i in Side(matches[k], bankSide)
  {
    forall k | 0 <= k < |matches| && i in Side(matches[k], bankSide) ensures rows[i].matched {
      ListedRowMatched(rows, matches, bankSide, i, k);
    }
    if rows[i].matched {
      var k := rows[i].matchId.value - 1;
      assert i in Side(matches[k], bankSide);
    }
  }

  lemma ListedRowMatched(rows: seq<Row>, matches: seq<MatchRecord>, bankSide: bool, i: nat, k: nat)
    requires Tagged(rows) && Carries(rows, matches, bankSide)
    requires i < |rows| && k < |matches| && i in Side(matches[k], bankSide)
    ensures rows[i].matched
  {
    var n :| 0 <= n < |Side(matches[k], bankSide)| && Side(matches[k], bankSide)[n] == i;
    assert rows[i].matchId == Some(k + 1);
  }

  /** The rows a claim takes are free, distinct and in range. */
  predicate Claimable(rows: seq<Row>, idx: seq<nat>)
  {
    Increasing(idx) && InRange(idx, |rows|) && forall n :: 0 <= n < |idx| ==> !rows[idx[n]].matched
  }

  lemma {:induction false} ClaimSide(rows: seq<Row>, matches: seq<MatchRecord>, rec: MatchRecord, bankSide: bool)
    requires Tagged(rows) && Carries(rows, matches, bankSide) && Listed(rows, matches, bankSide)
    requires rec.id == |matches| + 1 && Claimable(rows, Side(rec, bankSide))
    ensures var r := Mark(rows, Side(rec, bankSide), rec.id);
      Tagged(r) && Carries(r, matches + [rec], bankSide) && Listed(r, matches + [rec], bankSide)
  {
    var idx := Side(rec, bankSide);
    var r := Mark(rows, idx, rec.id);
    var ms := matches + [rec];
    forall k, n | 0 <= k < |ms| && 0 <= n < |Side(ms[k], bankSide)|
      ensures Side(ms[k], bankSide)[n] < |r| && r[Side(ms[k], bankSide)[n]].matchId == Some(k + 1)
    {
      var i := Side(ms[k], bankSide)[n];
      if k < |matches| {
        assert ms[k] == matches[k];
        assert rows[i].matchId == Some(k + 1);
      } else {
        assert ms[k] == rec;
      }
    }
    forall i | 0 <= i < |r| && r[i].matchId.Some?
      ensures 1 <= r[i].matchId.value <= |ms| && i in Side(ms[r[i].matchId.value - 1], bankSide)
    {
      if i in idx {
        assert ms[|matches|] == rec;
      } else {
        assert ms[rows[i].matchId.value - 1] == matches[rows[i].matchId.value - 1];
      }
    }
  }

  /** Claiming free rows with the next id keeps the invariant. */
  lemma ClaimKeepsWellFormed(t: Tables, rec: MatchRecord)
    requires WellFormed(t)
    requires rec.id == |t.matches| + 1
    requires RecordFits(Txs(t.bank), Txs(t.ledger), rec)
    requires Claimable(t.bank, rec.bankRows) && Claimable(t.ledger, rec.ledgerRows)
    ensures WellFormed(Claim(t, rec))
  {
    ClaimSide(t.bank, t.matches, rec, true);
    ClaimSide(t.ledger, t.matches, rec, false);
    var r := Claim(t, rec);
    forall k | 0 <= k < |r.matches|
      ensures r.matches[k].id == k + 1 && RecordFits(Txs(r.bank), Txs(r.ledger), r.matches[k])
    {
      if k < |t.matches| {
        assert r.matches[k] == t.matches[k];
      }
    }
  }

  /** `r` is `t` after some passes: same transactions, the old records kept
    * as a prefix, and no row unmatched. */
  predicate Grows(t: Tables, r: Tables)
  {
    && Txs(r.bank) == Txs(t.bank) && Txs(r.ledger) == Txs(t.ledger)
    && |t.matches| <= |r.matches| && r.matches[..|t.matches|] == t.matches
    && (forall k :: 0 <= k < |t.bank| && t.bank[k].matched ==> r.bank[k].matched)
    && (forall k :: 0 <= k < |t.ledger| && t.ledger[k].matched ==> r.ledger[k].matched)
  }

  lemma GrowsTrans(a: Tables, b: Tables, c: Tables)
    requires Grows(a, b) && Grows(b, c)
    ensures Grows(a, c)
  {
    assert |Txs(a.bank)| == |Txs(b.bank)| && |Txs(a.ledger)| == |Txs(b.ledger)|;
    assert c.matches[..|a.matches|] == c.matches[..|b.matches|][..|a.matches|];
  }

  lemma GrowsRefl(t: Tables)
    ensures Grows(t, t)
  {
    assert t.matches[..|t.matches|] == t.matches;
  }

  lemma ClaimGrows(t: Tables, rec: MatchRecord)
    ensures Grows(t, Claim(t, rec))
  {
    var r := Claim(t, rec);
    assert r.matches[..|t.matches|] == t.matches;
  }

  /** Marking rows never unmarks one. */
  lemma MarkOnlyAdds(rows: seq<Row>, idx: seq<nat>, id: nat, i: nat)
    requires i < |rows| && rows[i].matched
    ensures Mark(rows, idx, id)[i].matched
  {
  }

  /** Claiming at least one free bank row leaves fewer free bank rows. */
  lemma {:induction false} MarkShrinksFree(rows: seq<Row>, idx: seq<nat>, id: nat)
    requires Claimable(rows, idx) && idx != []
    ensures |Unmatched(Mark(rows, idx, id))| < |Unmatched(rows)|
  {
    FewerFree(rows, Mark(rows, idx, id), idx[0]);
  }

  lemma {:induction false} FewerFree(a: seq<Row>, b: seq<Row>, w: nat)
    requires |a| == |b|
    requires forall i :: 0 <= i < |a| && a[i].matched ==> b[i].matched
    requires w < |a| && !a[w].matched && b[w].matched
    ensures |Unmatched(b)| < |Unmatched(a)|
  {
    var n := |a| - 1;
    var a', b' := a[..n], b[..n];
    assert forall i :: 0 <= i < |a'| ==> a'[i] == a[i] && b'[i] == b[i];
    if w < n {
      FewerFree(a', b', w);
    } else {
      NoMoreFree(a', b');
    }
  }

  lemma {:induction false} NoMoreFree(a: seq<Row>, b: seq<Row>)
    requires |a| == |b|
    requires forall i :: 0 <= i < |a| && a[i].matched ==> b[i].matched
    ensures |Unmatched(b)| <= |Unmatched(a)|
  {
    if a != [] {
      var n := |a| - 1;
      assert forall i :: 0 <= i < n ==> a[..n][i] == a[i] && b[..n][i] == b[i];
      NoMoreFree(a[..n], b[..n]);
    }
  }
}
