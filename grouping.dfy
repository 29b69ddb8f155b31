// `_matching_por_agrupamento` of conciliacao_automatica.py, as its authors
// meant it: for each date that has free bank rows, the loop over bank group
// sizes 1 to 3 gives each size one turn. A turn claims the first group of that
// many free bank rows of the date whose sum agrees with that of one to three
// free ledger rows within the date tolerance, and the `break`s then end the
// turn. Candidate rows are taken afresh for every turn, so no row is claimed
// twice. The code as written keeps stale candidate lists;
// grouping_as_written.dfy models that.
module Grouping {
  import opened Util
  import opened Calendar
  import opened MatchState

  /** `itertools.combinations(xs, k)`, in the order it yields them. */
  function Combos(xs: seq<nat>, k: nat): seq<seq<nat>>
    decreases |xs|
  {
    if k == 0 then [[]]
    else if |xs| < k then []
    else Prepend(xs[0], Combos(xs[1..], k - 1)) + Combos(xs[1..], k)
  }

  function Prepend(x: nat, cs: seq<seq<nat>>): (r: seq<seq<nat>>)
    ensures |r| == |cs| && forall i :: 0 <= i < |cs| ==> r[i] == [x] + cs[i]
  {
    seq(|cs|, i requires 0 <= i < |cs| => [x] + cs[i])
  }

  /** `c` is `xs` with some elements left out. */
  predicate SubsequenceOf(c: seq<nat>, xs: seq<nat>)
    decreases |xs|
  {
    c == [] || (xs != [] && ((c[0] == xs[0] && SubsequenceOf(c[1..], xs[1..])) || SubsequenceOf(c, xs[1..])))
  }

  lemma {:induction false} SubsequenceLength(c: seq<nat>, xs: seq<nat>)
    requires SubsequenceOf(c, xs)
    ensures |c| <= |xs|
    decreases |xs|
  {
    if c != [] {
      if c[0] == xs[0] && SubsequenceOf(c[1..], xs[1..]) {
        SubsequenceLength(c[1..], xs[1..]);
      } else {
        SubsequenceLength(c, xs[1..]);
      }
    }
  }

  /** The combinations of size `k` are exactly the subsequences of length `k`. */
  lemma CombosAreSubsequences(xs: seq<nat>, k: nat, c: seq<nat>)
    ensures c in Combos(xs, k) <==> |c| == k && SubsequenceOf(c, xs)
  {
    if c in Combos(xs, k) {
      CombosSubsequence(xs, k, c);
    }
    if |c| == k && SubsequenceOf(c, xs) {
      SubsequenceInCombos(xs, k, c);
    }
  }

  lemma {:induction false} CombosSubsequence(xs: seq<nat>, k: nat, c: seq<nat>)
    requires c in Combos(xs, k)
    ensures |c| == k && SubsequenceOf(c, xs)
    decreases |xs|
  {
    if k == 0 {
      assert Combos(xs, k) == [[]];
    } else {
      var a, rest := Combos(xs[1..], k - 1), Combos(xs[1..], k);
      var first := Prepend(xs[0], a);
      assert Combos(xs, k) == first + rest;
      if c in first {
        var i :| 0 <= i < |first| && first[i] == c;
        assert a[i] in a;
        CombosSubsequence(xs[1..], k - 1, a[i]);
        assert c[1..] == a[i];
      } else {
        assert c in rest;
        CombosSubsequence(xs[1..], k, c);
      }
    }
  }

  lemma {:induction false} SubsequenceInCombos(xs: seq<nat>, k: nat, c: seq<nat>)
    requires |c| == k && SubsequenceOf(c, xs)
    ensures c in Combos(xs, k)
    decreases |xs|
  {
    SubsequenceLength(c, xs);
    if k == 0 {
      assert c == [];
    } else {
      var a, rest := Combos(xs[1..], k - 1), Combos(xs[1..], k);
      var first := Prepend(xs[0], a);
      assert Combos(xs, k) == first + rest;
      if c[0] == xs[0] && SubsequenceOf(c[1..], xs[1..]) {
        SubsequenceInCombos(xs[1..], k - 1, c[1..]);
        var i :| 0 <= i < |a| && a[i] == c[1..];
        assert first[i] == c;
      } else {
        SubsequenceInCombos(xs[1..], k, c);
      }
    }
  }

  lemma {:induction false} SubsequenceDrawn(c: seq<nat>, xs: seq<nat>)
    requires SubsequenceOf(c, xs) && Increasing(xs)
    ensures Increasing(c) && forall n :: 0 <= n < |c| ==> c[n] in xs
    decreases |xs|
  {
    if c != [] {
      var tail := xs[1..];
      assert Increasing(tail);
      if c[0] == xs[0] && SubsequenceOf(c[1..], tail) {
        SubsequenceDrawn(c[1..], tail);
        forall n | 0 <= n < |c| ensures c[n] in xs {
          if n > 0 { assert c[n] == c[1..][n - 1]; }
        }
        forall a, b | 0 <= a < b < |c| ensures c[a] < c[b] {
          assert c[b] == c[1..][b - 1];
          var m :| 0 <= m < |tail| && tail[m] == c[b];
          assert xs[0] < xs[m + 1];
          if a > 0 { assert c[a] == c[1..][a - 1]; }
        }
      } else {
        SubsequenceDrawn(c, tail);
      }
    }
  }

  /** The sizes the source tries, 1 to 3: `range(1, min(4, len(df) + 1))`;
    * sizes beyond the length have no combinations. */
  function Choices(xs: seq<nat>): seq<seq<nat>>
  {
    Combos(xs, 1) + Combos(xs, 2) + Combos(xs, 3)
  }

  /** A group the search may form: one to three distinct rows, in table order,
    * from the candidates. */
  predicate Drawn(c: seq<nat>, xs: seq<nat>)
  {
    1 <= |c| <= 3 && Increasing(c) && forall n :: 0 <= n < |c| ==> c[n] in xs
  }

  lemma ChoicesDrawn(xs: seq<nat>, c: seq<nat>)
    requires Increasing(xs) && c in Choices(xs)
    ensures Drawn(c, xs)
  {
    var k := if c in Combos(xs, 1) then 1 else if c in Combos(xs, 2) then 2 else 3;
    CombosAreSubsequences(xs, k, c);
    SubsequenceDrawn(c, xs);
  }

  /** Every bank group with every ledger group, in the order of the nested
    * loops: bank group outermost. */
  function Pairs(bs: seq<seq<nat>>, ls: seq<seq<nat>>): (r: seq<(seq<nat>, seq<nat>)>)
    ensures forall p :: p in r ==> p.0 in bs && p.1 in ls
  {
    if bs == [] then []
    else seq(|ls|, k requires 0 <= k < |ls| => (bs[0], ls[k])) + Pairs(bs[1..], ls)
  }

  /** `banco_data`: the free bank rows of date `d`. */
  function BankOn(t: Tables, d: Date): seq<nat>
  {
    Select(t.bank, FreeOn(d))
  }

  function FreeOn(d: Date): Row -> bool
  {
    (r: Row) => !r.matched && r.tx.date == d
  }

  function FreeNear(d: Date, tol: int): Row -> bool
  {
    (r: Row) => !r.matched && DayDiff(r.tx.date, d) <= tol
  }

  /** `livro_periodo`: the free ledger rows at most `tol` days from `d`. */
  function LedgerNear(t: Tables, d: Date, tol: int): seq<nat>
  {
    Select(t.ledger, FreeNear(d, tol))
  }

  /** The candidate pairs for one turn of the loop over bank group sizes:
    * each group of `n` free bank rows of the date (`combinacao_banco`), in
    * turn with each group of one to three free ledger rows near it. */
  function Candidates(t: Tables, d: Date, tol: int, n: nat): (r: seq<(seq<nat>, seq<nat>)>)
    requires 1 <= n <= 3
    ensures forall p :: p in r ==> Drawn(p.0, BankOn(t, d)) && |p.0| == n && Drawn(p.1, LedgerNear(t, d, tol))
  {
    var bd, lp := BankOn(t, d), LedgerNear(t, d, tol);
    var r := Pairs(Combos(bd, n), Choices(lp));
    assert forall p :: p in r ==> Drawn(p.0, bd) && |p.0| == n && Drawn(p.1, lp) by {
      forall p | p in r ensures Drawn(p.0, bd) && |p.0| == n && Drawn(p.1, lp) {
        CombosAreSubsequences(bd, n, p.0);
        SubsequenceDrawn(p.0, bd);
        ChoicesDrawn(lp, p.1);
      }
    }
    r
  }

  predicate PairsInRange(cands: seq<(seq<nat>, seq<nat>)>, nb: nat, nl: nat)
  {
    forall k :: 0 <= k < |cands| ==> InRange(cands[k].0, nb) && InRange(cands[k].1, nl)
  }

  predicate Agree(bank: seq<Tx>, ledger: seq<Tx>, p: (seq<nat>, seq<nat>))
    requires InRange(p.0, |bank|) && InRange(p.1, |ledger|)
  {
    SameAmount(SumOf(bank, p.0), SumOf(ledger, p.1))
  }

  /** The first candidate pair from `k` on whose sums agree. */
  function FirstAgreeing(bank: seq<Tx>, ledger: seq<Tx>, cands: seq<(seq<nat>, seq<nat>)>, k: nat): (r: Option<nat>)
    requires PairsInRange(cands, |bank|, |ledger|)
    decreases |cands| - k
    ensures r.Some? ==> k <= r.value < |cands| && Agree(bank, ledger, cands[r.value])
    ensures r.Some? ==> forall m :: k <= m < r.value ==> !Agree(bank, ledger, cands[m])
    ensures r.None? ==> forall m :: k <= m < |cands| ==> !Agree(bank, ledger, cands[m])
  {
    if k >= |cands| then None
    else if Agree(bank, ledger, cands[k]) then Some(k)
    else FirstAgreeing(bank, ledger, cands, k + 1)
  }

  lemma CandidatesInRange(t: Tables, d: Date, tol: int, n: nat)
    requires 1 <= n <= 3
    ensures PairsInRange(Candidates(t, d, tol, n), |t.bank|, |t.ledger|)
  {
    var cands := Candidates(t, d, tol, n);
    forall k | 0 <= k < |cands| ensures InRange(cands[k].0, |t.bank|) && InRange(cands[k].1, |t.ledger|) {
      assert cands[k] in cands;
    }
  }

  /** The search for bank groups of `n` rows: the first pair, in the order of
    * the nested loops, whose sums agree. */
  function Search(t: Tables, d: Date, tol: int, n: nat): (r: Option<(seq<nat>, seq<nat>)>)
    requires 1 <= n <= 3
    ensures r.Some? ==> Drawn(r.value.0, BankOn(t, d)) && |r.value.0| == n && Drawn(r.value.1, LedgerNear(t, d, tol))
    ensures r.Some? ==> InRange(r.value.0, |t.bank|) && InRange(r.value.1, |t.ledger|)
    ensures r.Some? ==> Agree(Txs(t.bank), Txs(t.ledger), r.value)
  {
    var cands := Candidates(t, d, tol, n);
    CandidatesInRange(t, d, tol, n);
    match FirstAgreeing(Txs(t.bank), Txs(t.ledger), cands, 0)
    case None => None
    case Some(k) => assert cands[k] in cands; Some(cands[k])
  }

  lemma {:induction false} PairsMember(bs: seq<seq<nat>>, ls: seq<seq<nat>>, b: seq<nat>, l: seq<nat>)
    requires b in bs && l in ls
    ensures (b, l) in Pairs(bs, ls)
    decreases |bs|
  {
    var head := seq(|ls|, k requires 0 <= k < |ls| => (bs[0], ls[k]));
    assert Pairs(bs, ls) == head + Pairs(bs[1..], ls);
    if b == bs[0] {
      var k :| 0 <= k < |ls| && ls[k] == l;
      assert head[k] == (b, l);
    } else {
      PairsMember(bs[1..], ls, b, l);
    }
  }

  /** Every group of `n` free bank rows of the date and every group of one to
    * three free ledger rows near it make a candidate pair. */
  lemma CandidatesContain(t: Tables, d: Date, tol: int, n: nat, c: seq<nat>, e: seq<nat>)
    requires 1 <= n <= 3 && |c| == n && SubsequenceOf(c, BankOn(t, d))
    requires 1 <= |e| <= 3 && SubsequenceOf(e, LedgerNear(t, d, tol))
    ensures (c, e) in Candidates(t, d, tol, n)
  {
    hide Combos, Pairs, SubsequenceOf, BankOn, LedgerNear, Drawn;
    var bd, lp := BankOn(t, d), LedgerNear(t, d, tol);
    CombosAreSubsequences(bd, n, c);
    CombosAreSubsequences(lp, |e|, e);
    assert e in Choices(lp);
    PairsMember(Combos(bd, n), Choices(lp), c, e);
  }

  /** The search misses nothing: when some group of `n` free bank rows of the
    * date and some group of one to three free ledger rows near it agree, a
    * pair is found. */
  lemma SearchFindsAgreeing(t: Tables, d: Date, tol: int, n: nat, c: seq<nat>, e: seq<nat>)
    requires 1 <= n <= 3 && |c| == n && SubsequenceOf(c, BankOn(t, d))
    requires 1 <= |e| <= 3 && SubsequenceOf(e, LedgerNear(t, d, tol))
    requires InRange(c, |t.bank|) && InRange(e, |t.ledger|)
    requires Agree(Txs(t.bank), Txs(t.ledger), (c, e))
    ensures Search(t, d, tol, n).Some?
  {
    hide Candidates, Agree, BankOn, LedgerNear, SubsequenceOf, Txs, Drawn;
    var cands := Candidates(t, d, tol, n);
    CandidatesContain(t, d, tol, n, c, e);
    CandidatesInRange(t, d, tol, n);
    var k :| 0 <= k < |cands| && cands[k] == (c, e);
    assert Agree(Txs(t.bank), Txs(t.ledger), cands[k]);
  }

  /** The record of a group match: `data_banco` is the date searched,
    * `data_livro` the first ledger row's date, the amounts the two sums. */
  function GroupRecord(t: Tables, p: (seq<nat>, seq<nat>), d: Date): MatchRecord
    requires InRange(p.0, |t.bank|) && InRange(p.1, |t.ledger|) && p.1 != []
  {
    MatchRecord(|t.matches| + 1, p.0, p.1, d, t.ledger[p.1[0]].tx.date,
      SumOf(Txs(t.bank), p.0), SumOf(Txs(t.ledger), p.1), Grouping)
  }

  /** One turn of the loop over bank group sizes (`n_banco`): the first
    * agreeing pair whose bank group has `n` rows is claimed, and the `break`s
    * then end the turn. */
  function TrySize(t: Tables, d: Date, tol: int, n: nat): Tables
    requires 1 <= n <= 3
  {
    match Search(t, d, tol, n)
    case None => t
    case Some(p) => Claim(t, GroupRecord(t, p, d))
  }

  /** The state after the sizes 1 to `n` have had their turn. */
  function SizesUpTo(t: Tables, d: Date, tol: int, n: nat): Tables
    requires n <= 3
    decreases n
  {
    if n == 0 then t else TrySize(SizesUpTo(t, d, tol, n - 1), d, tol, n)
  }

  /** One date: skipped when either side has no free row, otherwise one turn
    * for each bank group size from 1 to 3. */
  function GroupOnDate(t: Tables, d: Date, tol: int): Tables
  {
    if BankOn(t, d) == [] || LedgerNear(t, d, tol) == [] then t else SizesUpTo(t, d, tol, 3)
  }

  /** The dates of the free bank rows, each once, in order of first
    * appearance: `banco_nao_conciliado['data'].dt.date.unique()`. */
  function UnmatchedDates(rows: seq<Row>): (r: seq<Date>)
    ensures forall i :: 0 <= i < |rows| && !rows[i].matched ==> rows[i].tx.date in r
    ensures forall k :: 0 <= k < |r| ==> exists i :: 0 <= i < |rows| && !rows[i].matched && rows[i].tx.date == r[k]
    ensures forall a, b :: 0 <= a < b < |r| ==> r[a] != r[b]
  {
    if rows == [] then []
    else
      var ds := UnmatchedDates(rows[..|rows| - 1]);
      var last := rows[|rows| - 1];
      assert forall i :: 0 <= i < |rows| - 1 ==> rows[..|rows| - 1][i] == rows[i];
      if !last.matched && last.tx.date !in ds then ds + [last.tx.date] else ds
  }

  /** The date loop. */
  function GroupPass(t: Tables, dates: seq<Date>, tol: int): Tables
    decreases |dates|
  {
    if dates == [] then t else GroupPass(GroupOnDate(t, dates[0], tol), dates[1..], tol)
  }

  /** The whole grouping pass, over the dates free at its start. */
  function GroupAll(t: Tables, tol: int): Tables
  {
    GroupPass(t, UnmatchedDates(t.bank), tol)
  }

  lemma GroupRecordFits(t: Tables, d: Date, tol: int, n: nat, p: (seq<nat>, seq<nat>))
    requires 1 <= n <= 3 && Search(t, d, tol, n) == Some(p)
    ensures RecordFits(Txs(t.bank), Txs(t.ledger), GroupRecord(t, p, d))
    ensures Claimable(t.bank, p.0) && Claimable(t.ledger, p.1)
  {
    hide Search, Candidates, FirstAgreeing, SumOf, DayDiff;
    var bd, lp := BankOn(t, d), LedgerNear(t, d, tol);
    forall m | 0 <= m < |p.0| ensures !t.bank[p.0[m]].matched && t.bank[p.0[m]].tx.date == d {
      var k :| 0 <= k < |bd| && bd[k] == p.0[m];
    }
    forall m | 0 <= m < |p.1| ensures !t.ledger[p.1[m]].matched {
      var k :| 0 <= k < |lp| && lp[k] == p.1[m];
    }
  }

  /** A turn keeps the invariant and only adds. */
  lemma TrySizeKeeps(t: Tables, d: Date, tol: int, n: nat)
    requires 1 <= n <= 3 && WellFormed(t)
    ensures WellFormed(TrySize(t, d, tol, n)) && Grows(t, TrySize(t, d, tol, n))
  {
    match Search(t, d, tol, n)
    case None =>
      assert t.matches[..|t.matches|] == t.matches;
    case Some(p) =>
      var rec := GroupRecord(t, p, d);
      GroupRecordFits(t, d, tol, n, p);
      ClaimKeepsWellFormed(t, rec);
      ClaimGrows(t, rec);
  }

  lemma SizesUpToZero(t: Tables, d: Date, tol: int)
    ensures SizesUpTo(t, d, tol, 0) == t
  {
  }

  lemma SizesUpToUnfold(t: Tables, d: Date, tol: int, n: nat)
    requires 1 <= n <= 3
    ensures SizesUpTo(t, d, tol, n) == TrySize(SizesUpTo(t, d, tol, n - 1), d, tol, n)
  {
  }

  lemma TrySizeUnfold(t: Tables, d: Date, tol: int, n: nat)
    requires 1 <= n <= 3
    ensures Search(t, d, tol, n).None? ==> TrySize(t, d, tol, n) == t
    ensures Search(t, d, tol, n).Some? ==>
      TrySize(t, d, tol, n) == Claim(t, GroupRecord(t, Search(t, d, tol, n).value, d))
  {
  }

  lemma GroupOnDateUnfold(t: Tables, d: Date, tol: int)
    ensures GroupOnDate(t, d, tol) == if BankOn(t, d) == [] || LedgerNear(t, d, tol) == [] then t else SizesUpTo(t, d, tol, 3)
  {
  }

  /** A turn either finds nothing and changes nothing, or adds one record
    * whose bank group has `n` rows. */
  lemma TrySizeShape(t: Tables, d: Date, tol: int, n: nat)
    requires 1 <= n <= 3
    ensures var r := TrySize(t, d, tol, n);
      && (Search(t, d, tol, n).None? ==> r == t)
      && (Search(t, d, tol, n).Some? ==>
            |r.matches| == |t.matches| + 1 && r.matches[..|t.matches|] == t.matches
            && |r.matches[|t.matches|].bankRows| == n)
  {
    match Search(t, d, tol, n)
    case None =>
    case Some(p) =>
      var r := TrySize(t, d, tol, n);
      assert r.matches == t.matches + [GroupRecord(t, p, d)];
      assert r.matches[..|t.matches|] == t.matches;
  }

  lemma {:induction false} SizesUpToKeeps(t: Tables, d: Date, tol: int, n: nat)
    requires n <= 3 && WellFormed(t)
    ensures WellFormed(SizesUpTo(t, d, tol, n)) && Grows(t, SizesUpTo(t, d, tol, n))
    decreases n
  {
    hide *;
    if n == 0 {
      SizesUpToZero(t, d, tol);
      GrowsRefl(t);
    } else {
      var prev := SizesUpTo(t, d, tol, n - 1);
      SizesUpToUnfold(t, d, tol, n);
      SizesUpToKeeps(t, d, tol, n - 1);
      TrySizeKeeps(prev, d, tol, n);
      GrowsTrans(t, prev, TrySize(prev, d, tol, n));
    }
  }

  /** Each date's matching keeps the invariant and only adds. */
  lemma GroupOnDateKeeps(t: Tables, d: Date, tol: int)
    requires WellFormed(t)
    ensures WellFormed(GroupOnDate(t, d, tol)) && Grows(t, GroupOnDate(t, d, tol))
  {
    if BankOn(t, d) == [] || LedgerNear(t, d, tol) == [] {
      assert t.matches[..|t.matches|] == t.matches;
    } else {
      SizesUpToKeeps(t, d, tol, 3);
    }
  }

  /** Among the records `r` holds beyond those of `t`, one has a bank group of
    * `n` rows. */
  predicate AddedOfSize(t: Tables, r: Tables, n: nat)
  {
    exists i :: |t.matches| <= i < |r.matches| && |r.matches[i].bankRows| == n
  }

  /** What `m` turns can have added to `t`'s records: at most one record per
    * turn, with bank groups of one to `m` rows, in increasing size. */
  predicate Turns(t: Tables, r: Tables, m: nat)
  {
    && |t.matches| <= |r.matches| <= |t.matches| + m && r.matches[..|t.matches|] == t.matches
    && (forall i :: |t.matches| <= i < |r.matches| ==> 1 <= |r.matches[i].bankRows| <= m)
    && (forall i, j :: |t.matches| <= i < j < |r.matches| ==> |r.matches[i].bankRows| < |r.matches[j].bankRows|)
  }

  lemma TurnsStart(t: Tables)
    ensures Turns(t, t, 0)
  {
    assert t.matches[..|t.matches|] == t.matches;
  }

  /** A turn that finds nothing. */
  lemma TurnsIdle(t: Tables, prev: Tables, m: nat)
    requires 1 <= m && Turns(t, prev, m - 1)
    ensures Turns(t, prev, m) && !AddedOfSize(t, prev, m)
  {
  }

  /** A turn that adds a record whose bank group has `m` rows. */
  lemma TurnsAdd(t: Tables, prev: Tables, r: Tables, m: nat)
    requires 1 <= m && Turns(t, prev, m - 1)
    requires |r.matches| == |prev.matches| + 1 && r.matches[..|prev.matches|] == prev.matches
    requires |r.matches[|prev.matches|].bankRows| == m
    ensures Turns(t, r, m) && AddedOfSize(t, r, m)
    ensures forall n :: n != m ==> (AddedOfSize(t, r, n) <==> AddedOfSize(t, prev, n))
  {
    forall i | 0 <= i < |prev.matches|
      ensures r.matches[i] == prev.matches[i]
    {
      assert r.matches[..|prev.matches|][i] == r.matches[i];
    }
    assert r.matches[..|t.matches|] == prev.matches[..|t.matches|];
    assert |r.matches[|prev.matches|].bankRows| == m;
    forall n | n != m
      ensures AddedOfSize(t, r, n) <==> AddedOfSize(t, prev, n)
    {
      if AddedOfSize(t, r, n) {
        var i :| |t.matches| <= i < |r.matches| && |r.matches[i].bankRows| == n;
        assert i < |prev.matches|;
      }
      if AddedOfSize(t, prev, n) {
        var i :| |t.matches| <= i < |prev.matches| && |prev.matches[i].bankRows| == n;
        assert r.matches[i] == prev.matches[i];
      }
    }
  }

  /** The records the first `m` turns add: at most one per turn, with bank
    * groups of increasing size, one of size `n` exactly when the search of
    * turn `n` found a pair. */
  lemma {:induction false} SizesUpToRecords(t: Tables, d: Date, tol: int, m: nat)
    requires m <= 3
    ensures Turns(t, SizesUpTo(t, d, tol, m), m)
    ensures forall n :: 1 <= n <= m ==>
      (AddedOfSize(t, SizesUpTo(t, d, tol, m), n) <==> Search(SizesUpTo(t, d, tol, n - 1), d, tol, n).Some?)
    decreases m
  {
    hide *;
    if m == 0 {
      SizesUpToZero(t, d, tol);
      TurnsStart(t);
    } else {
      var prev := SizesUpTo(t, d, tol, m - 1);
      var r := SizesUpTo(t, d, tol, m);
      SizesUpToUnfold(t, d, tol, m);
      SizesUpToRecords(t, d, tol, m - 1);
      TrySizeShape(prev, d, tol, m);
      if Search(prev, d, tol, m).None? {
        TurnsIdle(t, prev, m);
      } else {
        TurnsAdd(t, prev, r, m);
      }
    }
  }

  /** With no free row on one side, no turn finds anything. */
  lemma {:induction false} SizesUpToIdle(t: Tables, d: Date, tol: int, n: nat)
    requires n <= 3 && (BankOn(t, d) == [] || LedgerNear(t, d, tol) == [])
    ensures SizesUpTo(t, d, tol, n) == t
    ensures n < 3 ==> Search(t, d, tol, n + 1).None?
    decreases n
  {
    if n > 0 {
      SizesUpToIdle(t, d, tol, n - 1);
    }
    if n < 3 {
      NoCandidates(t, d, tol, n + 1);
    }
  }

  /** With no free row on one side there is nothing to search. */
  lemma NoCandidates(t: Tables, d: Date, tol: int, n: nat)
    requires 1 <= n <= 3 && (BankOn(t, d) == [] || LedgerNear(t, d, tol) == [])
    ensures Search(t, d, tol, n).None?
  {
    if BankOn(t, d) == [] {
      assert Combos(BankOn(t, d), n) == [];
    } else {
      assert Choices(LedgerNear(t, d, tol)) == [];
      PairsNone(Combos(BankOn(t, d), n));
    }
  }

  lemma {:induction false} PairsNone(bs: seq<seq<nat>>)
    ensures Pairs(bs, []) == []
    decreases |bs|
  {
    if bs != [] {
      PairsNone(bs[1..]);
    }
  }

  /** A date adds at most one match per bank group size, in increasing size. */
  lemma GroupOnDateOnePerSize(t: Tables, d: Date, tol: int)
    ensures var r := GroupOnDate(t, d, tol);
      && |t.matches| <= |r.matches| <= |t.matches| + 3 && r.matches[..|t.matches|] == t.matches
      && (forall i :: |t.matches| <= i < |r.matches| ==> 1 <= |r.matches[i].bankRows| <= 3)
      && (forall i, j :: |t.matches| <= i < j < |r.matches| ==> |r.matches[i].bankRows| < |r.matches[j].bankRows|)
  {
    if BankOn(t, d) == [] || LedgerNear(t, d, tol) == [] {
      assert t.matches[..|t.matches|] == t.matches;
    } else {
      SizesUpToRecords(t, d, tol, 3);
    }
  }

  /** A date's pass claims a group of `n` bank rows exactly when, at the turn
    * for size `n`, some group of `n` free bank rows agrees with some group of
    * free ledger rows; sizes that found nothing are not tried again. */
  lemma GroupOnDateExhausts(t: Tables, d: Date, tol: int, n: nat)
    requires 1 <= n <= 3
    ensures AddedOfSize(t, GroupOnDate(t, d, tol), n) <==> Search(SizesUpTo(t, d, tol, n - 1), d, tol, n).Some?
  {
    if BankOn(t, d) == [] || LedgerNear(t, d, tol) == [] {
      SizesUpToIdle(t, d, tol, n - 1);
      assert !AddedOfSize(t, t, n);
    } else {
      SizesUpToRecords(t, d, tol, 3);
    }
  }

  /** What every group match says: one to three bank rows, all on the
    * record's bank date; one to three ledger rows, each at most `tol` days
    * from it; the amounts are the two sums, and they agree. */
  predicate GroupFits(bank: seq<Tx>, ledger: seq<Tx>, rec: MatchRecord, tol: int)
  {
    && rec.how == Grouping
    && 1 <= |rec.bankRows| <= 3 && 1 <= |rec.ledgerRows| <= 3
    && InRange(rec.bankRows, |bank|) && InRange(rec.ledgerRows, |ledger|)
    && (forall m :: 0 <= m < |rec.bankRows| ==> bank[rec.bankRows[m]].date == rec.bankDate)
    && (forall m :: 0 <= m < |rec.ledgerRows| ==> DayDiff(ledger[rec.ledgerRows[m]].date, rec.bankDate) <= tol)
    && rec.bankAmount == SumOf(bank, rec.bankRows) && rec.ledgerAmount == SumOf(ledger, rec.ledgerRows)
    && SameAmount(rec.bankAmount, rec.ledgerAmount)
  }

  /** `r` keeps `t`'s transactions and records, and every record it adds is a
    * fitting group. */
  predicate AddsGroups(t: Tables, r: Tables, tol: int)
  {
    && Txs(r.bank) == Txs(t.bank) && Txs(r.ledger) == Txs(t.ledger)
    && |t.matches| <= |r.matches| && r.matches[..|t.matches|] == t.matches
    && forall i :: |t.matches| <= i < |r.matches| ==> GroupFits(Txs(t.bank), Txs(t.ledger), r.matches[i], tol)
  }

  lemma AddsGroupsRefl(t: Tables, tol: int)
    ensures AddsGroups(t, t, tol)
  {
    assert t.matches[..|t.matches|] == t.matches;
  }

  lemma AddsGroupsTrans(a: Tables, b: Tables, c: Tables, tol: int)
    requires AddsGroups(a, b, tol) && AddsGroups(b, c, tol)
    ensures AddsGroups(a, c, tol)
  {
    hide GroupFits;
    assert c.matches[..|a.matches|] == c.matches[..|b.matches|][..|a.matches|];
    forall i | |a.matches| <= i < |c.matches| ensures GroupFits(Txs(a.bank), Txs(a.ledger), c.matches[i], tol) {
      if i < |b.matches| {
        assert c.matches[i] == c.matches[..|b.matches|][i];
      }
    }
  }

  /** A turn adds at most one record, and it is a fitting group. */
  lemma TrySizeAddsGroups(t: Tables, d: Date, tol: int, n: nat)
    requires 1 <= n <= 3
    ensures AddsGroups(t, TrySize(t, d, tol, n), tol)
  {
    match Search(t, d, tol, n)
    case None =>
      AddsGroupsRefl(t, tol);
    case Some(p) =>
      var rec := GroupRecord(t, p, d);
      var bd, lp := BankOn(t, d), LedgerNear(t, d, tol);
      forall m | 0 <= m < |p.0| ensures Txs(t.bank)[p.0[m]].date == d {
        var k :| 0 <= k < |bd| && bd[k] == p.0[m];
      }
      forall m | 0 <= m < |p.1| ensures DayDiff(Txs(t.ledger)[p.1[m]].date, d) <= tol {
        var k :| 0 <= k < |lp| && lp[k] == p.1[m];
      }
      assert GroupFits(Txs(t.bank), Txs(t.ledger), rec, tol);
      var r := Claim(t, rec);
      assert r.matches[..|t.matches|] == t.matches;
  }

  lemma {:induction false} SizesUpToAddsGroups(t: Tables, d: Date, tol: int, n: nat)
    requires n <= 3
    ensures AddsGroups(t, SizesUpTo(t, d, tol, n), tol)
    decreases n
  {
    hide *;
    if n == 0 {
      SizesUpToZero(t, d, tol);
      AddsGroupsRefl(t, tol);
    } else {
      var prev := SizesUpTo(t, d, tol, n - 1);
      SizesUpToUnfold(t, d, tol, n);
      SizesUpToAddsGroups(t, d, tol, n - 1);
      TrySizeAddsGroups(prev, d, tol, n);
      AddsGroupsTrans(t, prev, TrySize(prev, d, tol, n), tol);
    }
  }

  /** Every match the grouping pass commits, over any dates, joins one to
    * three bank rows of its date with one to three ledger rows within the
    * date tolerance of it, at agreeing sums. */
  lemma {:induction false} GroupPassAddsGroups(t: Tables, dates: seq<Date>, tol: int)
    ensures AddsGroups(t, GroupPass(t, dates, tol), tol)
    decreases |dates|
  {
    if dates == [] {
      AddsGroupsRefl(t, tol);
    } else {
      var next := GroupOnDate(t, dates[0], tol);
      if BankOn(t, dates[0]) == [] || LedgerNear(t, dates[0], tol) == [] {
        AddsGroupsRefl(t, tol);
      } else {
        SizesUpToAddsGroups(t, dates[0], tol, 3);
      }
      GroupPassAddsGroups(next, dates[1..], tol);
      AddsGroupsTrans(t, next, GroupPass(next, dates[1..], tol), tol);
    }
  }

  lemma {:induction false} GroupPassKeeps(t: Tables, dates: seq<Date>, tol: int)
    requires WellFormed(t)
    ensures WellFormed(GroupPass(t, dates, tol)) && Grows(t, GroupPass(t, dates, tol))
    decreases |dates|
  {
    if dates == [] {
      assert t.matches[..|t.matches|] == t.matches;
    } else {
      var next := GroupOnDate(t, dates[0], tol);
      GroupOnDateKeeps(t, dates[0], tol);
      GroupPassKeeps(next, dates[1..], tol);
      GrowsTrans(t, next, GroupPass(next, dates[1..], tol));
    }
  }
}
