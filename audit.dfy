// `Auditoria` (auditoria.py): an append-only log of audit records, the diff
// of two versions of an entry that an "alteration" record carries, and the
// searches over the log.
module Audit {
  import opened Util
  import opened Text
  import opened Calendar
  import opened Ledger
  import opened Sorting

  /** The details of a record: the entry it concerns, if any, and for an
    * alteration the fields that changed. `detalhes or {}` is `NoDetails`. */
  datatype Details = Details(entryId: Option<string>, changes: Option<Changes>)

  const NoDetails := Details(None, None)

  /** A record; `stamp` is the `datetime.now()` of its registration, as a
    * number of seconds. */
  datatype Record = Record(id: nat, stamp: int, kind: string, desc: string, user: string, details: Details)

  /** Ids are 1, 2, 3, ... in log order. */
  predicate NumberedInOrder(records: seq<Record>)
  {
    forall i :: 0 <= i < |records| ==> records[i].id == i + 1
  }

  // ---------------------------------------------------------------------
  // The diff of registrar_alteracao_lancamento

  /** A date field holds either a `datetime` or text; a `datetime` is
    * compared through its "dd/mm/yyyy" form. */
  datatype DateValue = At(date: Date) | Written(text: string)

  function Rendered(v: DateValue): string
  {
    if v.At? then FormatDMY(v.date) else v.text
  }

  /** The fields of an entry the diff reads; each may be absent. */
  datatype Version = Version(date: Option<DateValue>, desc: Option<string>, movements: Option<seq<Movement>>)

  datatype TextChange = TextChange(before: string, after: string)

  datatype MovementField = AccountField | DebitField | CreditField

  datatype FieldValue = AccountValue(account: string) | AmountValue(amount: real)

  datatype FieldChange = FieldChange(index: nat, field: MovementField, before: FieldValue, after: FieldValue)

  /** The `movimentos` entry of `campos_alterados`: absent, both whole
    * lists when the counts differ, or one change per differing field. */
  datatype MovementChanges = Unchanged | CountChanged(before: seq<Movement>, after: seq<Movement>)
                           | FieldsChanged(fields: seq<FieldChange>)

  datatype Changes = Changes(date: Option<TextChange>, desc: Option<TextChange>, movements: MovementChanges)

  predicate NoChanges(c: Changes)
  {
    c.date.None? && c.desc.None? && c.movements.Unchanged?
  }

  function ValueOf(m: Movement, f: MovementField): FieldValue
  {
    match f
    case AccountField => AccountValue(m.account)
    case DebitField => AmountValue(m.debit)
    case CreditField => AmountValue(m.credit)
  }

  /** The changes of movement `i`, in the order conta, debito, credito. */
  function FieldDiffs(i: nat, a: Movement, b: Movement): seq<FieldChange>
  {
    (if a.account != b.account then [FieldChange(i, AccountField, ValueOf(a, AccountField), ValueOf(b, AccountField))] else [])
    + (if a.debit != b.debit then [FieldChange(i, DebitField, ValueOf(a, DebitField), ValueOf(b, DebitField))] else [])
    + (if a.credit != b.credit then [FieldChange(i, CreditField, ValueOf(a, CreditField), ValueOf(b, CreditField))] else [])
  }

  /** The field changes of movements `i` onwards of two equally long lists. */
  function MovementDiffs(before: seq<Movement>, after: seq<Movement>, i: nat): seq<FieldChange>
    requires |before| == |after| && i <= |before|
    decreases |before| - i
  {
    if i == |before| then [] else FieldDiffs(i, before[i], after[i]) + MovementDiffs(before, after, i + 1)
  }

  function TextDiff(a: Option<string>, b: Option<string>): Option<TextChange>
  {
    if a.Some? && b.Some? && a.value != b.value then Some(TextChange(a.value, b.value)) else None
  }

  function DateText(v: Option<DateValue>): Option<string>
  {
    if v.Some? then Some(Rendered(v.value)) else None
  }

  function MovementChangesOf(a: Option<seq<Movement>>, b: Option<seq<Movement>>): MovementChanges
  {
    if a.None? || b.None? then Unchanged
    else if |a.value| != |b.value| then CountChanged(a.value, b.value)
    else
      var d := MovementDiffs(a.value, b.value, 0);
      if d == [] then Unchanged else FieldsChanged(d)
  }

  function ChangesOf(a: Version, b: Version): Changes
  {
    Changes(TextDiff(DateText(a.date), DateText(b.date)), TextDiff(a.desc, b.desc), MovementChangesOf(a.movements, b.movements))
  }

  /** The field changes of movement `i` are empty exactly when it is unchanged. */
  lemma FieldDiffsEmpty(i: nat, a: Movement, b: Movement)
    ensures FieldDiffs(i, a, b) == [] <==> a == b
  {
  }

  /** A list of field changes is empty exactly when the lists agree from `i` on. */
  lemma {:induction false} MovementDiffsEmpty(before: seq<Movement>, after: seq<Movement>, i: nat)
    requires |before| == |after| && i <= |before|
    ensures MovementDiffs(before, after, i) == [] <==> before[i..] == after[i..]
    decreases |before| - i
  {
    if i < |before| {
      MovementDiffsEmpty(before, after, i + 1);
      FieldDiffsEmpty(i, before[i], after[i]);
      assert before[i..] == [before[i]] + before[i + 1..];
      assert after[i..] == [after[i]] + after[i + 1..];
    }
  }

  /** A change reported for one movement names it, a field that differs,
    * and the field's value before and after. */
  predicate Reports(before: seq<Movement>, after: seq<Movement>, c: FieldChange)
  {
    c.index < |before| && c.index < |after| && c.before == ValueOf(before[c.index], c.field)
    && c.after == ValueOf(after[c.index], c.field) && c.before != c.after
  }

  lemma FieldDiffsSound(before: seq<Movement>, after: seq<Movement>, i: nat, c: FieldChange)
    requires |before| == |after| && i < |before|
    requires c in FieldDiffs(i, before[i], after[i])
    ensures c.index == i && Reports(before, after, c)
  {
  }

  /** Each reported field change names a movement from `i` on, a field that
    * differs, and its value before and after. */
  lemma {:induction false} MovementDiffsSound(before: seq<Movement>, after: seq<Movement>, i: nat, c: FieldChange)
    requires |before| == |after| && i <= |before|
    requires c in MovementDiffs(before, after, i)
    ensures i <= c.index && Reports(before, after, c)
    decreases |before| - i
  {
    hide FieldDiffs, Reports, MovementDiffs;
    if i == |before| {
      MovementDiffsAtEnd(before, after);
    } else {
      MovementDiffsUnfold(before, after, i);
      if c in FieldDiffs(i, before[i], after[i]) {
        FieldDiffsSound(before, after, i, c);
      } else {
        MovementDiffsSound(before, after, i + 1, c);
      }
    }
  }

  /** Every differing field of every movement is reported. */
  lemma {:induction false} MovementDiffsComplete(before: seq<Movement>, after: seq<Movement>, i: nat, k: nat, f: MovementField)
    requires |before| == |after| && i <= k < |before|
    requires ValueOf(before[k], f) != ValueOf(after[k], f)
    ensures FieldChange(k, f, ValueOf(before[k], f), ValueOf(after[k], f)) in MovementDiffs(before, after, i)
    decreases |before| - i
  {
    if i < k {
      MovementDiffsComplete(before, after, i + 1, k, f);
    }
  }

  /** With every field present on both sides, nothing is recorded exactly
    * when the printed dates, the descriptions and the movements agree. */
  lemma NoChangesIff(a: Version, b: Version)
    requires a.date.Some? && b.date.Some? && a.desc.Some? && b.desc.Some? && a.movements.Some? && b.movements.Some?
    ensures NoChanges(ChangesOf(a, b)) <==>
      Rendered(a.date.value) == Rendered(b.date.value) && a.desc == b.desc && a.movements == b.movements
  {
    if |a.movements.value| == |b.movements.value| {
      MovementDiffsEmpty(a.movements.value, b.movements.value, 0);
      assert a.movements.value[0..] == a.movements.value && b.movements.value[0..] == b.movements.value;
    }
  }

  /** A `datetime` and the text of the same day compare as unchanged; two
    * different days never do. */
  lemma DateForms(d: Date, e: Date)
    requires Valid(d) && Valid(e) && d.year <= 9999 && e.year <= 9999
    ensures TextDiff(DateText(Some(At(d))), DateText(Some(Written(FormatDMY(d))))) == None
    ensures TextDiff(DateText(Some(At(d))), DateText(Some(At(e)))) == None <==> d == e
  {
    if FormatDMY(d) == FormatDMY(e) {
      FormatInjective(d, e);
    }
  }

  lemma MovementDiffsUnfold(before: seq<Movement>, after: seq<Movement>, i: nat)
    requires |before| == |after| && i < |before|
    ensures MovementDiffs(before, after, i) == FieldDiffs(i, before[i], after[i]) + MovementDiffs(before, after, i + 1)
  {
  }

  lemma MovementDiffsAtEnd(before: seq<Movement>, after: seq<Movement>)
    requires |before| == |after|
    ensures MovementDiffs(before, after, |before|) == []
  {
  }

  /** The changes of one movement, in the order the source checks its fields. */
  method DiffFields(i: nat, a: Movement, b: Movement) returns (here: seq<FieldChange>)
    ensures here == FieldDiffs(i, a, b)
  {
    here := [];
    if a.account != b.account {
      here := here + [FieldChange(i, AccountField, AccountValue(a.account), AccountValue(b.account))];
    }
    if a.debit != b.debit {
      here := here + [FieldChange(i, DebitField, AmountValue(a.debit), AmountValue(b.debit))];
    }
    if a.credit != b.credit {
      here := here + [FieldChange(i, CreditField, AmountValue(a.credit), AmountValue(b.credit))];
    }
  }

  /** The diff loop over two equally long movement lists. */
  method DiffMovements(before: seq<Movement>, after: seq<Movement>) returns (changes: seq<FieldChange>)
    requires |before| == |after|
    ensures changes == MovementDiffs(before, after, 0)
  {
    changes := [];
    for i := 0 to |before|
      invariant changes + MovementDiffs(before, after, i) == MovementDiffs(before, after, 0)
    {
      hide MovementDiffs, FieldDiffs;
      MovementDiffsUnfold(before, after, i);
      var here := DiffFields(i, before[i], after[i]);
      changes := changes + here;
    }
  }

  /** The diff of `registrar_alteracao_lancamento`. */
  method Diff(a: Version, b: Version) returns (c: Changes)
    ensures c == ChangesOf(a, b)
  {
    var date: Option<TextChange> := None;
    if a.date.Some? && b.date.Some? {
      var before, after := Rendered(a.date.value), Rendered(b.date.value);
      if before != after {
        date := Some(TextChange(before, after));
      }
    }
    var desc: Option<TextChange> := None;
    if a.desc.Some? && b.desc.Some? && a.desc.value != b.desc.value {
      desc := Some(TextChange(a.desc.value, b.desc.value));
    }
    var movements := Unchanged;
    if a.movements.Some? && b.movements.Some? {
      if |a.movements.value| != |b.movements.value| {
        movements := CountChanged(a.movements.value, b.movements.value);
      } else {
        var fields := DiffMovements(a.movements.value, b.movements.value);
        if fields != [] {
          movements := FieldsChanged(fields);
        }
      }
    }
    c := Changes(date, desc, movements);
  }

  // ---------------------------------------------------------------------
  // Searches

  /** The filters of `buscar_registros`; "" or `None` is a filter that is
    * absent or empty. */
  datatype Filters = Filters(kind: string, user: string, from: Option<int>, to: Option<int>, text: string)

  /** Every active filter passes; the date bounds are inclusive and the
    * text is a case-insensitive substring of the description. */
  predicate Passes(f: Filters, r: Record)
  {
    (f.kind == "" || r.kind == f.kind)
    && (f.user == "" || r.user == f.user)
    && (f.from.None? || r.stamp >= f.from.value)
    && (f.to.None? || r.stamp <= f.to.value)
    && (f.text == "" || Contains(Lower(r.desc), Lower(f.text)))
  }

  function Matching(f: Filters): Record -> bool
  {
    (r: Record) => Passes(f, r)
  }

  function Concerns(id: string): Record -> bool
  {
    (r: Record) => r.details.entryId == Some(id)
  }

  function ByStamp(r: Record): seq<real>
  {
    [r.stamp as real]
  }

  class Log {
    var records: seq<Record>

    constructor (loaded: seq<Record>)
      ensures records == loaded
    {
      records := loaded;
    }

    /** `registrar_evento`: appends one record numbered after the last. */
    method RecordEvent(now: int, kind: string, desc: string, user: string, details: Option<Details>) returns (ok: bool)
      modifies this`records
      ensures records == old(records) + [Record(|old(records)| + 1, now, kind, desc, user, details.GetOr(NoDetails))]
      ensures ok
      ensures NumberedInOrder(old(records)) ==> NumberedInOrder(records)
    {
      records := records + [Record(|records| + 1, now, kind, desc, user, details.GetOr(NoDetails))];
      ok := true;
    }

    /** `registrar_alteracao_lancamento`: nothing is logged when nothing changed. */
    method RecordEntryChange(now: int, entryId: string, user: string, a: Version, b: Version) returns (ok: bool)
      modifies this`records
      ensures ok
      ensures var c := ChangesOf(a, b);
        records == if NoChanges(c) then old(records)
                   else old(records) + [Record(|old(records)| + 1, now, "alteracao_lancamento",
                                               "Alteração no lançamento " + entryId, user,
                                               Details(Some(entryId), Some(c)))]
    {
      var c := Diff(a, b);
      if c.date.None? && c.desc.None? && c.movements.Unchanged? {
        return true;
      }
      ok := RecordEvent(now, "alteracao_lancamento", "Alteração no lançamento " + entryId, user,
                        Some(Details(Some(entryId), Some(c))));
    }

    /** `buscar_registros`: every record without filters, otherwise the
      * records passing every active filter, in log order. */
    method Search(filters: Option<Filters>) returns (found: seq<Record>)
      ensures filters.None? ==> found == records
      ensures filters.Some? ==> found == Filter(records, Matching(filters.value))
    {
      if filters.None? {
        return records;
      }
      var f := filters.value;
      hide Filter;
      found := [];
      for i := 0 to |records|
        invariant found == Filter(records[..i], Matching(f))
      {
        FilterSnoc(records[..i], records[i], Matching(f));
        assert records[..i + 1] == records[..i] + [records[i]];
        var r := records[i];
        var keep := true;
        if f.kind != "" && r.kind != f.kind {
          keep := false;
        }
        if f.user != "" && r.user != f.user {
          keep := false;
        }
        if f.from.Some? && r.stamp < f.from.value {
          keep := false;
        }
        if f.to.Some? && r.stamp > f.to.value {
          keep := false;
        }
        if f.text != "" && !Contains(Lower(r.desc), Lower(f.text)) {
          keep := false;
        }
        assert keep == Passes(f, r);
        if keep {
          found := found + [r];
        }
      }
      assert records[..|records|] == records;
    }

    /** `obter_historico_lancamento`: the records about the entry, sorted
      * by time with ties in log order. */
    method History(entryId: string) returns (history: seq<Record>)
      ensures history == SortByKey(Filter(records, Concerns(entryId)), ByStamp)
    {
      hide Filter;
      var found := [];
      for i := 0 to |records|
        invariant found == Filter(records[..i], Concerns(entryId))
      {
        FilterSnoc(records[..i], records[i], Concerns(entryId));
        assert records[..i + 1] == records[..i] + [records[i]];
        if records[i].details.entryId.Some? && records[i].details.entryId.value == entryId {
          found := found + [records[i]];
        }
      }
      assert records[..|records|] == records;
      history := SortByKey(found, ByStamp);
    }
  }

  /** A search with no active filter returns the whole log. */
  lemma {:induction false} SearchWithoutFilters(records: seq<Record>)
    ensures Filter(records, Matching(Filters("", "", None, None, ""))) == records
  {
    if records != [] {
      SearchWithoutFilters(records[1..]);
      assert [records[0]] + records[1..] == records;
    }
  }

  /** The history holds the log's records about the entry, each once, in
    * time order. */
  lemma HistoryOrdered(records: seq<Record>, entryId: string)
    ensures var h := SortByKey(Filter(records, Concerns(entryId)), ByStamp);
      multiset(h) == multiset(Filter(records, Concerns(entryId)))
      && (forall r :: r in h ==> r.details.entryId == Some(entryId))
      && forall i, j :: 0 <= i < j < |h| ==> h[i].stamp <= h[j].stamp
  {
    var s := Filter(records, Concerns(entryId));
    SortByKeySortsAndPermutes(s, ByStamp);
    var h := SortByKey(s, ByStamp);
    forall r | r in h ensures r.details.entryId == Some(entryId) {
      assert r in multiset(h);
      assert r in s;
    }
    forall i, j | 0 <= i < j < |h| ensures h[i].stamp <= h[j].stamp {
      assert KeyLe(ByStamp(h[i]), ByStamp(h[j]));
    }
  }
}
