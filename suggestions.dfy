// `_identificar_discrepancias` and `_gerar_sugestao_correcao` of
// conciliacao_automatica.py: every row left unmatched is reported, with up to
// three ranked suggestions drawn from the whole table of the other side.
module Suggestions {
  import opened Util
  import opened Calendar
  import opened Sorting
  import opened MatchState

  /** `origem`: which table the unmatched row came from. */
  datatype Side = Bank | Ledger

  /** `tipo` of a suggestion drawn from the other table. */
  datatype Kind = ValueSimilar | SameDate | DescriptionSimilar

  /** A suggestion: a row of the other table with `diferenca_valor` and, for
    * some kinds, `dias_diferenca` and `similaridade`; or the generic advice,
    * whose `mensagem` is `GenericMessage(forSide)`. */
  datatype Suggestion =
    | Candidate(kind: Kind, tx: Tx, difference: real, dayDiff: Option<nat>, similarity: Option<Score>)
    | Generic(forSide: Side)

  /** An entry of `discrepancias`; `tipo` is always `nao_conciliado`. */
  datatype Discrepancy = Discrepancy(tx: Tx, side: Side, suggestions: seq<Suggestion>)

  function GenericMessage(side: Side): string
  {
    match side
    case Ledger => "Lançamento contábil sem correspondência no extrato bancário. Verificar se a transação bancária ainda não ocorreu ou se há erro no lançamento."
    case Bank => "Transação bancária sem correspondência no livro contábil. Registrar o lançamento contábil correspondente."
  }

  function MapTxs(txs: seq<Tx>, f: Tx -> Suggestion): (r: seq<Suggestion>)
    ensures |r| == |txs| && forall i :: 0 <= i < |txs| ==> r[i] == f(txs[i])
  {
    seq(|txs|, i requires 0 <= i < |txs| => f(txs[i]))
  }

  /** Within 5% of the amount, both bounds strict. */
  predicate NearValue(t: Tx, o: Tx)
  {
    o.amount > t.amount * 0.95 && o.amount < t.amount * 1.05
  }

  predicate NearText(t: Tx, o: Tx, score: Scorer)
  {
    score(t.desc, o.desc) >= 70
  }

  function ValueTest(t: Tx): Tx -> bool { (o: Tx) => NearValue(t, o) }

  function DateTest(t: Tx): Tx -> bool { (o: Tx) => o.date == t.date }

  function TextTest(t: Tx, score: Scorer): Tx -> bool { (o: Tx) => NearText(t, o, score) }

  function ValueMaker(t: Tx): Tx -> Suggestion
  {
    (o: Tx) => Candidate(ValueSimilar, o, o.amount - t.amount, Some(DayDiff(o.date, t.date)), None)
  }

  function DateMaker(t: Tx): Tx -> Suggestion
  {
    (o: Tx) => Candidate(SameDate, o, o.amount - t.amount, None, None)
  }

  function TextMaker(t: Tx, score: Scorer): Tx -> Suggestion
  {
    (o: Tx) => Candidate(DescriptionSimilar, o, o.amount - t.amount, Some(DayDiff(o.date, t.date)), Some(score(t.desc, o.desc)))
  }

  function ValueSimilarOf(t: Tx, others: seq<Tx>): seq<Suggestion>
  {
    MapTxs(Filter(others, ValueTest(t)), ValueMaker(t))
  }

  function SameDateOf(t: Tx, others: seq<Tx>): seq<Suggestion>
  {
    MapTxs(Filter(others, DateTest(t)), DateMaker(t))
  }

  function DescriptionSimilarOf(t: Tx, others: seq<Tx>, score: Scorer): seq<Suggestion>
  {
    MapTxs(Filter(others, TextTest(t, score)), TextMaker(t, score))
  }

  /** All suggestions before ranking, in the order they are collected. */
  function CandidatesFor(t: Tx, others: seq<Tx>, score: Scorer): seq<Suggestion>
  {
    ValueSimilarOf(t, others) + SameDateOf(t, others) + DescriptionSimilarOf(t, others, score)
  }

  /** The sort key: very similar descriptions first, then the smaller amount
    * difference, then the fewer days (999 when not recorded). */
  function Rank(s: Suggestion): seq<real>
  {
    match s
    case Generic(_) => []
    case Candidate(_, _, difference, dayDiff, similarity) =>
      [if similarity.Some? && similarity.value > 85 then -1.0 else 0.0,
       Abs(difference),
       (dayDiff.GetOr(999)) as real]
  }

  function Take(s: seq<Suggestion>, n: nat): seq<Suggestion>
  {
    if |s| <= n then s else s[..n]
  }

  /** Sorting and the cut to three, or the generic advice when there is
    * nothing to rank. */
  function Ranked(cands: seq<Suggestion>, side: Side): seq<Suggestion>
  {
    if cands == [] then [Generic(side)] else Take(SortByKey(cands, Rank), 3)
  }

  /** `_gerar_sugestao_correcao` */
  function Suggest(t: Tx, others: seq<Tx>, side: Side, score: Scorer): seq<Suggestion>
  {
    Ranked(CandidatesFor(t, others, score), side)
  }

  /** One report per unmatched row of `rows`, in table order. */
  function Reported(rows: seq<Row>, others: seq<Tx>, side: Side, score: Scorer): seq<Discrepancy>
  {
    var idx := Unmatched(rows);
    seq(|idx|, k requires 0 <= k < |idx| => Discrepancy(rows[idx[k]].tx, side, Suggest(rows[idx[k]].tx, others, side, score)))
  }

  /** `_identificar_discrepancias`: unmatched bank rows first, then unmatched
    * ledger rows, each compared with the whole other table. */
  function Discrepancies(bank: seq<Row>, ledger: seq<Row>, score: Scorer): seq<Discrepancy>
  {
    Reported(bank, Txs(ledger), Bank, score) + Reported(ledger, Txs(bank), Ledger, score)
  }

  /** A suggestion list is never empty and never longer than three, and it is
    * the generic advice exactly when there are no candidates. */
  lemma RankedShape(cands: seq<Suggestion>, side: Side)
    requires forall k :: 0 <= k < |cands| ==> cands[k].Candidate?
    ensures var r := Ranked(cands, side);
      && 1 <= |r| <= 3
      && (r == [Generic(side)] <==> cands == [])
      && (cands != [] ==> forall k :: 0 <= k < |r| ==> r[k].Candidate?)
  {
    if cands != [] {
      SortByKeySortsAndPermutes(cands, Rank);
      var s := SortByKey(cands, Rank);
      forall k | 0 <= k < |s| ensures s[k].Candidate? {
        assert s[k] in multiset(cands);
      }
      var r := Ranked(cands, side);
      assert r[0] == s[0];
    }
  }

  /** The suggestions kept are the best-ranked candidates, in rank order: each
    * is a candidate, and no candidate left out ranks before a kept one. */
  lemma RankedKeepsBest(cands: seq<Suggestion>, side: Side)
    requires cands != []
    ensures var r := Ranked(cands, side);
      && SortedBy(r, Rank)
      && multiset(r) <= multiset(cands)
      && (|cands| <= 3 ==> multiset(r) == multiset(cands))
      && forall c, k :: c in multiset(cands) - multiset(r) && 0 <= k < |r| ==> KeyLe(Rank(r[k]), Rank(c))
  {
    SortByKeySortsAndPermutes(cands, Rank);
    var s := SortByKey(cands, Rank);
    var m := if |s| <= 3 then |s| else 3;
    assert Ranked(cands, side) == s[..m];
    SortedPrefix(s, m, Rank);
  }

  lemma CandidatesAreCandidates(t: Tx, others: seq<Tx>, score: Scorer)
    ensures forall k :: 0 <= k < |CandidatesFor(t, others, score)| ==> CandidatesFor(t, others, score)[k].Candidate?
  {
    var v, s, d := ValueSimilarOf(t, others), SameDateOf(t, others), DescriptionSimilarOf(t, others, score);
    assert forall k :: 0 <= k < |v| ==> v[k].Candidate?;
    assert forall k :: 0 <= k < |s| ==> s[k].Candidate?;
    assert forall k :: 0 <= k < |d| ==> d[k].Candidate?;
  }

  /** `_gerar_sugestao_correcao` returns one to three suggestions, the
    * generic advice exactly when no row of the other table qualifies. */
  lemma SuggestShape(t: Tx, others: seq<Tx>, side: Side, score: Scorer)
    ensures var r := Suggest(t, others, side, score);
      && 1 <= |r| <= 3
      && (r == [Generic(side)] <==> CandidatesFor(t, others, score) == [])
  {
    CandidatesAreCandidates(t, others, score);
    RankedShape(CandidatesFor(t, others, score), side);
  }

  /** Each candidate is a row of the other table that meets its kind's test,
    * with the amount difference measured from the unmatched row. */
  lemma CandidatesQualify(t: Tx, others: seq<Tx>, score: Scorer, c: Suggestion)
    requires c in CandidatesFor(t, others, score)
    ensures c.Candidate? && c.tx in others && c.difference == c.tx.amount - t.amount
    ensures c.kind == ValueSimilar ==> NearValue(t, c.tx) && c.dayDiff == Some(DayDiff(c.tx.date, t.date))
    ensures c.kind == SameDate ==> c.tx.date == t.date
    ensures c.kind == DescriptionSimilar ==> c.similarity == Some(score(t.desc, c.tx.desc)) && score(t.desc, c.tx.desc) >= 70
  {
  }

  lemma ValueSimilarAppears(t: Tx, others: seq<Tx>, i: nat)
    requires i < |others| && NearValue(t, others[i])
    ensures Candidate(ValueSimilar, others[i], others[i].amount - t.amount, Some(DayDiff(others[i].date, t.date)), None)
      in ValueSimilarOf(t, others)
  {
    var v := Filter(others, ValueTest(t));
    var k :| 0 <= k < |v| && v[k] == others[i];
    assert ValueSimilarOf(t, others)[k] == Candidate(ValueSimilar, others[i], others[i].amount - t.amount, Some(DayDiff(others[i].date, t.date)), None);
  }

  lemma SameDateAppears(t: Tx, others: seq<Tx>, i: nat)
    requires i < |others| && others[i].date == t.date
    ensures Candidate(SameDate, others[i], others[i].amount - t.amount, None, None) in SameDateOf(t, others)
  {
    var s := Filter(others, DateTest(t));
    var k :| 0 <= k < |s| && s[k] == others[i];
    assert SameDateOf(t, others)[k] == Candidate(SameDate, others[i], others[i].amount - t.amount, None, None);
  }

  lemma DescriptionSimilarAppears(t: Tx, others: seq<Tx>, score: Scorer, i: nat)
    requires i < |others| && NearText(t, others[i], score)
    ensures Candidate(DescriptionSimilar, others[i], others[i].amount - t.amount, Some(DayDiff(others[i].date, t.date)), Some(score(t.desc, others[i].desc)))
      in DescriptionSimilarOf(t, others, score)
  {
    var d := Filter(others, TextTest(t, score));
    var k :| 0 <= k < |d| && d[k] == others[i];
    assert DescriptionSimilarOf(t, others, score)[k] == Candidate(DescriptionSimilar, others[i], others[i].amount - t.amount, Some(DayDiff(others[i].date, t.date)), Some(score(t.desc, others[i].desc)));
  }

  /** Every row of the other table that meets a test yields a candidate. */
  lemma QualifyingRowsAppear(t: Tx, others: seq<Tx>, score: Scorer, i: nat)
    requires i < |others|
    ensures NearValue(t, others[i]) ==>
      Candidate(ValueSimilar, others[i], others[i].amount - t.amount, Some(DayDiff(others[i].date, t.date)), None) in CandidatesFor(t, others, score)
    ensures others[i].date == t.date ==>
      Candidate(SameDate, others[i], others[i].amount - t.amount, None, None) in CandidatesFor(t, others, score)
    ensures NearText(t, others[i], score) ==>
      Candidate(DescriptionSimilar, others[i], others[i].amount - t.amount, Some(DayDiff(others[i].date, t.date)), Some(score(t.desc, others[i].desc)))
        in CandidatesFor(t, others, score)
  {
    if NearValue(t, others[i]) { ValueSimilarAppears(t, others, i); }
    if others[i].date == t.date { SameDateAppears(t, others, i); }
    if NearText(t, others[i], score) { DescriptionSimilarAppears(t, others, score, i); }
  }

  /** A non-positive amount has no value-similar rows: the 5% window is empty. */
  lemma NoValueSimilarForNonPositive(t: Tx, others: seq<Tx>)
    requires t.amount <= 0.0
    ensures ValueSimilarOf(t, others) == []
  {
    FilterNone(others, ValueTest(t));
  }

  /** Every unmatched row is reported exactly once, on its side, in table
    * order; matched rows are not reported. */
  lemma DiscrepanciesCoverUnmatched(bank: seq<Row>, ledger: seq<Row>, score: Scorer)
    ensures var ds := Discrepancies(bank, ledger, score);
      var ub, ul := Unmatched(bank), Unmatched(ledger);
      && |ds| == |ub| + |ul|
      && (forall k :: 0 <= k < |ub| ==> ds[k].side == Bank && ds[k].tx == bank[ub[k]].tx)
      && (forall k :: 0 <= k < |ul| ==> ds[|ub| + k].side == Ledger && ds[|ub| + k].tx == ledger[ul[k]].tx)
      && (forall i :: 0 <= i < |bank| ==> (i in ub <==> !bank[i].matched))
      && (forall i :: 0 <= i < |ledger| ==> (i in ul <==> !ledger[i].matched))
      && Increasing(ub) && Increasing(ul)
  {
    var ub, ul := Unmatched(bank), Unmatched(ledger);
    forall i | 0 <= i < |bank| ensures i in ub <==> !bank[i].matched {
      if i in ub { var k :| 0 <= k < |ub| && ub[k] == i; }
    }
    forall i | 0 <= i < |ledger| ensures i in ul <==> !ledger[i].matched {
      if i in ul { var k :| 0 <= k < |ul| && ul[k] == i; }
    }
  }
}
