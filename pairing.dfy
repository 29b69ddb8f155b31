// The two one-to-one passes of conciliacao_automatica.py: `_matching_exato`
// (same date, same amount, similar description) and
// `_matching_por_valor_data` (same amount, dates within a tolerance).
// Both walk the free bank rows in order and give each the first free ledger
// row that fits.
module Pairing {
  import opened Util
  import opened Calendar
  import opened Normalization
  import opened MatchState

  /** The test of one pass: the similarity threshold (`tolerancia_texto`) or
    * the date tolerance (`tolerancia_dias`). */
  datatype Rule = ExactRule(threshold: int) | WindowRule(toleranceDays: int)

  /** Whether ledger transaction `l` fits bank transaction `b`, and what the
    * match records about it. */
  function Fits(rule: Rule, b: Tx, l: Tx, score: Scorer): Option<Method>
  {
    match rule
    case ExactRule(threshold) =>
      if b.date == l.date && SameAmount(b.amount, l.amount) then
        var s := score(b.desc, l.desc);
        if s >= threshold then Some(Exact(s)) else None
      else None
    case WindowRule(tolerance) =>
      if SameAmount(b.amount, l.amount) && DayDiff(b.date, l.date) <= tolerance
      then Some(ValueDate(DayDiff(b.date, l.date)))
      else None
  }

  /** A fit is what the pass's rule asks for, and the record it produces fits. */
  lemma FitsMeaning(rule: Rule, b: Tx, l: Tx, score: Scorer)
    ensures Fits(rule, b, l, score).Some? <==>
      SameAmount(b.amount, l.amount) &&
      match rule
      case ExactRule(threshold) =>
        b.date == l.date && score(b.desc, l.desc) >= threshold
      case WindowRule(tolerance) => DayDiff(b.date, l.date) <= tolerance
    ensures Fits(rule, b, l, score).Some? && rule.ExactRule? ==>
      Fits(rule, b, l, score).value == Exact(score(b.desc, l.desc))
  {
  }

  /** The first ledger row at or after `j` that is free and fits `b`. */
  function FirstFit(ledger: seq<Row>, b: Tx, rule: Rule, score: Scorer, j: nat): (r: Option<nat>)
    decreases |ledger| - j
    ensures r.Some? ==> j <= r.value < |ledger| && !ledger[r.value].matched
    ensures r.Some? ==> Fits(rule, b, ledger[r.value].tx, score).Some?
    ensures r.Some? ==> forall k :: j <= k < r.value ==> ledger[k].matched || Fits(rule, b, ledger[k].tx, score).None?
    ensures r.None? ==> forall k :: j <= k < |ledger| ==> ledger[k].matched || Fits(rule, b, ledger[k].tx, score).None?
  {
    if j >= |ledger| then None
    else if !ledger[j].matched && Fits(rule, b, ledger[j].tx, score).Some? then Some(j)
    else FirstFit(ledger, b, rule, score, j + 1)
  }

  function PairRecord(t: Tables, i: nat, j: nat, id: nat, how: Method): MatchRecord
    requires i < |t.bank| && j < |t.ledger|
  {
    MatchRecord(id, [i], [j], t.bank[i].tx.date, t.ledger[j].tx.date, t.bank[i].tx.amount, t.ledger[j].tx.amount, how)
  }

  /** The inner loop for bank row `i`: claim the first fitting free ledger row. */
  function PairStep(t: Tables, i: nat, id: nat, rule: Rule, score: Scorer): (r: Tables)
    requires i < |t.bank|
    ensures |r.bank| == |t.bank| && |r.ledger| == |t.ledger|
  {
    if t.bank[i].matched then t
    else match FirstFit(t.ledger, t.bank[i].tx, rule, score, 0)
      case None => t
      case Some(j) => Claim(t, PairRecord(t, i, j, id, Fits(rule, t.bank[i].tx, t.ledger[j].tx, score).value))
  }

  /** The outer loop from bank row `i` on; `id` is the next `id_conciliacao`. */
  function PairPass(t: Tables, i: nat, id: nat, rule: Rule, score: Scorer): (r: Tables)
    requires i <= |t.bank|
    decreases |t.bank| - i
    ensures |r.bank| == |t.bank| && |r.ledger| == |t.ledger|
  {
    if i == |t.bank| then t
    else
      var next := PairStep(t, i, id, rule, score);
      PairPass(next, i + 1, if |next.matches| > |t.matches| then id + 1 else id, rule, score)
  }

  /** One turn of the outer loop. */
  lemma PairPassUnfold(t: Tables, i: nat, rule: Rule, score: Scorer)
    requires i < |t.bank|
    ensures var next := PairStep(t, i, |t.matches| + 1, rule, score);
      PairPass(t, i, |t.matches| + 1, rule, score) == PairPass(next, i + 1, |next.matches| + 1, rule, score)
  {
    var next := PairStep(t, i, |t.matches| + 1, rule, score);
    assert |next.matches| == |t.matches| || |next.matches| == |t.matches| + 1;
  }

  lemma PairStepKeeps(t: Tables, i: nat, rule: Rule, score: Scorer)
    requires WellFormed(t) && i < |t.bank|
    ensures var r := PairStep(t, i, |t.matches| + 1, rule, score);
      WellFormed(r) && Grows(t, r) && |r.matches| <= |t.matches| + 1
  {
    var id := |t.matches| + 1;
    if !t.bank[i].matched {
      match FirstFit(t.ledger, t.bank[i].tx, rule, score, 0)
      case None =>
        assert t.matches[..|t.matches|] == t.matches;
      case Some(j) =>
        var rec := PairRecord(t, i, j, id, Fits(rule, t.bank[i].tx, t.ledger[j].tx, score).value);
        PairRecordFits(t, i, j, rule, score);
        ClaimKeepsWellFormed(t, rec);
        ClaimGrows(t, rec);
    } else {
      assert t.matches[..|t.matches|] == t.matches;
    }
  }

  lemma PairRecordFits(t: Tables, i: nat, j: nat, rule: Rule, score: Scorer)
    requires i < |t.bank| && j < |t.ledger|
    requires !t.bank[i].matched && !t.ledger[j].matched
    requires Fits(rule, t.bank[i].tx, t.ledger[j].tx, score).Some?
    ensures var rec := PairRecord(t, i, j, |t.matches| + 1, Fits(rule, t.bank[i].tx, t.ledger[j].tx, score).value);
      RecordFits(Txs(t.bank), Txs(t.ledger), rec) && Claimable(t.bank, [i]) && Claimable(t.ledger, [j])
  {
    var bank, ledger := Txs(t.bank), Txs(t.ledger);
    assert SumOf(bank, [i]) == bank[i].amount by { assert [i][..0] == []; }
    assert SumOf(ledger, [j]) == ledger[j].amount by { assert [j][..0] == []; }
  }

  /** Every pass keeps the matcher's invariant, only adds records (numbered
    * on from the ones before) and never unmatches a row. */
  lemma {:induction false} PairPassKeeps(t: Tables, i: nat, rule: Rule, score: Scorer)
    requires WellFormed(t) && i <= |t.bank|
    ensures var r := PairPass(t, i, |t.matches| + 1, rule, score);
      WellFormed(r) && Grows(t, r)
    decreases |t.bank| - i
  {
    if i < |t.bank| {
      var id := |t.matches| + 1;
      var next := PairStep(t, i, id, rule, score);
      PairStepKeeps(t, i, rule, score);
      PairPassKeeps(next, i + 1, rule, score);
      PairPassUnfold(t, i, rule, score);
      GrowsTrans(t, next, PairPass(next, i + 1, |next.matches| + 1, rule, score));
    } else {
      assert t.matches[..|t.matches|] == t.matches;
    }
  }

  /** No free bank row before `i` fits a free ledger row. */
  predicate Saturated(t: Tables, i: nat, rule: Rule, score: Scorer)
    requires i <= |t.bank|
  {
    forall b, l :: 0 <= b < i && 0 <= l < |t.ledger| && !t.bank[b].matched && !t.ledger[l].matched ==>
      Fits(rule, t.bank[b].tx, t.ledger[l].tx, score).None?
  }

  lemma PairStepSaturates(t: Tables, i: nat, rule: Rule, score: Scorer)
    requires i < |t.bank| && Saturated(t, i, rule, score)
    ensures Saturated(PairStep(t, i, |t.matches| + 1, rule, score), i + 1, rule, score)
  {
    hide Fits, FirstFit;
    var r := PairStep(t, i, |t.matches| + 1, rule, score);
    if !t.bank[i].matched {
      match FirstFit(t.ledger, t.bank[i].tx, rule, score, 0)
      case None =>
        assert r == t;
      case Some(j) =>
        var rec := PairRecord(t, i, j, |t.matches| + 1, Fits(rule, t.bank[i].tx, t.ledger[j].tx, score).value);
        assert r == Claim(t, rec);
        forall b, l | 0 <= b < i + 1 && 0 <= l < |r.ledger| && !r.bank[b].matched && !r.ledger[l].matched
          ensures Fits(rule, r.bank[b].tx, r.ledger[l].tx, score).None?
        {
          assert r.bank[b] == t.bank[b] && r.ledger[l] == t.ledger[l];
        }
    }
  }

  /** After a pass, no free bank row fits any free ledger row: the pass
    * leaves nothing it could still have matched. */
  lemma {:induction false} PairPassSaturates(t: Tables, i: nat, rule: Rule, score: Scorer)
    requires i <= |t.bank| && Saturated(t, i, rule, score)
    ensures Saturated(PairPass(t, i, |t.matches| + 1, rule, score), |t.bank|, rule, score)
    decreases |t.bank| - i
  {
    if i < |t.bank| {
      hide PairStep, PairPass, Saturated, Fits;
      var next := PairStep(t, i, |t.matches| + 1, rule, score);
      PairStepSaturates(t, i, rule, score);
      PairPassSaturates(next, i + 1, rule, score);
      PairPassUnfold(t, i, rule, score);
      assert |next.bank| == |t.bank|;
      assert Saturated(PairPass(t, i, |t.matches| + 1, rule, score), |t.bank|, rule, score);
    } else {
      hide Saturated, Fits;
      assert PairPass(t, i, |t.matches| + 1, rule, score) == t;
      assert Saturated(PairPass(t, i, |t.matches| + 1, rule, score), |t.bank|, rule, score);
    }
  }
}
