// The chart of accounts (`plano_contas.py`): a tree of accounts keyed by
// code, searched depth-first, edited at a path, exported in pre-order and
// rebuilt from an exported table.
module ChartOfAccounts {
  import opened Util
  import opened Text

  // ---------------------------------------------------------------------
  // The tree

  /** An account: its name and its sub-accounts by code. */
  datatype Account = Account(name: string, children: Entries)

  /** A dictionary of accounts by code, in insertion order; the chart itself
    * is the dictionary of the classes. */
  datatype Entries = Empty | Entry(code: string, account: Account, rest: Entries)

  /** A new account has no sub-accounts. */
  function Leaf(name: string): Account
  {
    Account(name, Empty)
  }

  function Keys(subs: Entries): seq<string>
  {
    if subs.Empty? then [] else [subs.code] + Keys(subs.rest)
  }

  predicate DistinctKeys(subs: Entries)
  {
    subs.Empty? || (subs.code !in Keys(subs.rest) && DistinctKeys(subs.rest))
  }

  /** A dictionary never holds a key twice, at any level. */
  predicate WellFormed(subs: Entries)
  {
    DistinctKeys(subs) && (subs.Entry? ==> WellFormed(subs.account.children) && WellFormed(subs.rest))
  }

  /** `subs[code]`, or None where Python raises `KeyError`. */
  function Find(subs: Entries, code: string): (r: Option<Account>)
    ensures r.Some? <==> code in Keys(subs)
  {
    if subs.Empty? then None
    else if subs.code == code then Some(subs.account)
    else Find(subs.rest, code)
  }

  /** `subs[code] = a` for a code not yet there: it goes last. */
  function Append(subs: Entries, code: string, a: Account): Entries
  {
    if subs.Empty? then Entry(code, a, Empty) else subs.(rest := Append(subs.rest, code, a))
  }

  /** `subs[code] = a`: replaced in place when present, last otherwise. */
  function Set(subs: Entries, code: string, a: Account): Entries
  {
    if subs.Empty? then Entry(code, a, Empty)
    else if subs.code == code then subs.(account := a)
    else subs.(rest := Set(subs.rest, code, a))
  }

  /** `del subs[code]` */
  function Without(subs: Entries, code: string): Entries
  {
    if subs.Empty? then Empty else if subs.code == code then subs.rest else subs.(rest := Without(subs.rest, code))
  }

  /** The code appears somewhere in the tree. */
  predicate Occurs(subs: Entries, code: string)
  {
    subs.Entry? && (subs.code == code || Occurs(subs.account.children, code) || Occurs(subs.rest, code))
  }

  /** Every code in the tree, with its multiplicity. */
  function Codes(subs: Entries): multiset<string>
  {
    if subs.Empty? then multiset{} else multiset{subs.code} + Codes(subs.account.children) + Codes(subs.rest)
  }

  // ---------------------------------------------------------------------
  // Finding an account (`buscar_subconta`, `obter_caminho_conta`,
  // `obter_conta_por_caminho`)

  /** `buscar_subconta`: the entries in order; a matching code gives
    * `[parent, code]`, otherwise its sub-accounts are searched and a path
    * found there is prefixed with `parent`. */
  function Search(parent: string, subs: Entries, target: string): (r: Option<seq<string>>)
    ensures r.Some? ==> |r.value| >= 2 && r.value[0] == parent
    decreases subs
  {
    if subs.Empty? then None
    else if subs.code == target then Some([parent, target])
    else match Search(subs.code, subs.account.children, target)
      case Some(p) => Some([parent] + p)
      case None => Search(parent, subs.rest, target)
  }

  /** The loop over the classes in `obter_caminho_conta`. */
  function SearchClasses(classes: Entries, target: string): (r: Option<seq<string>>)
    ensures r.Some? ==> |r.value| >= 2
  {
    if classes.Empty? then None
    else match Search(classes.code, classes.account.children, target)
      case Some(p) => Some(p)
      case None => SearchClasses(classes.rest, target)
  }

  /** `obter_caminho_conta`: a class is its own path; otherwise the first
    * path found under the classes in order. */
  function PathOf(chart: Entries, code: string): (r: Option<seq<string>>)
    ensures r.Some? ==> r.value != []
  {
    if code in Keys(chart) then Some([code]) else SearchClasses(chart, code)
  }

  /** Following a path of codes: each code is looked up in the
    * sub-accounts of the one before; an empty path finds nothing. */
  function Walk(subs: Entries, path: seq<string>): Option<Account>
    decreases |path|
  {
    if path == [] then None
    else match Find(subs, path[0])
      case None => None
      case Some(a) => if |path| == 1 then Some(a) else Walk(a.children, path[1..])
  }

  /** One more code on a path looks in the sub-accounts of where the path
    * led. */
  lemma {:induction false} WalkSnoc(subs: Entries, path: seq<string>, code: string)
    ensures Walk(subs, path + [code])
            == if path == [] then Find(subs, code)
               else match Walk(subs, path) case None => None case Some(a) => Find(a.children, code)
    decreases |path|
  {
    if path != [] {
      assert (path + [code])[0] == path[0];
      match Find(subs, path[0])
      case None =>
      case Some(a) =>
        assert (path + [code])[1..] == path[1..] + [code];
        WalkSnoc(a.children, path[1..], code);
    }
  }

  /** Any path the search returns starts with the parent, ends with the
    * code sought, and below the parent each code is a key of the
    * sub-accounts of the one before. */
  lemma {:induction false} SearchShape(parent: string, subs: Entries, target: string)
    requires WellFormed(subs)
    ensures Search(parent, subs, target).Some? ==>
              var p := Search(parent, subs, target).value;
              |p| >= 2 && p[0] == parent && p[|p| - 1] == target && Walk(subs, p[1..]).Some?
    decreases subs
  {
    if subs.Entry? && subs.code != target {
      SearchShape(subs.code, subs.account.children, target);
      match Search(subs.code, subs.account.children, target)
      case Some(q) =>
        var p := [parent] + q;
        assert p[1..] == q;
      case None =>
        SearchShape(parent, subs.rest, target);
        if Search(parent, subs.rest, target).Some? {
          var p := Search(parent, subs.rest, target).value;
          assert Find(subs.rest, p[1]).Some?;
          assert p[1] != subs.code;
        }
    }
  }

  /** The search finds a code exactly when it is in the tree. */
  lemma {:induction false} SearchComplete(parent: string, subs: Entries, target: string)
    ensures Search(parent, subs, target).Some? <==> Occurs(subs, target)
    decreases subs
  {
    if subs.Entry? && subs.code != target {
      SearchComplete(subs.code, subs.account.children, target);
      SearchComplete(parent, subs.rest, target);
    }
  }

  /** The class loop finds a code exactly when it is below some class. */
  lemma {:induction false} SearchClassesComplete(classes: Entries, target: string)
    ensures SearchClasses(classes, target).Some? <==> OccursBelow(classes, target)
  {
    if classes.Entry? {
      SearchComplete(classes.code, classes.account.children, target);
      SearchClassesComplete(classes.rest, target);
    }
  }

  /** The code is a sub-account, at any depth, of one of the classes. */
  predicate OccursBelow(classes: Entries, code: string)
  {
    classes.Entry? && (Occurs(classes.account.children, code) || OccursBelow(classes.rest, code))
  }

  lemma {:induction false} OccursSplit(classes: Entries, code: string)
    ensures Occurs(classes, code) <==> code in Keys(classes) || OccursBelow(classes, code)
  {
    if classes.Entry? {
      OccursSplit(classes.rest, code);
    }
  }

  /** A path is found exactly for the codes in the chart. */
  lemma PathOfComplete(chart: Entries, code: string)
    ensures PathOf(chart, code).Some? <==> Occurs(chart, code)
  {
    SearchClassesComplete(chart, code);
    OccursSplit(chart, code);
  }

  /** Every path the class loop returns starts at a class and walks down to
    * the code sought. */
  lemma {:induction false} SearchClassesShape(classes: Entries, target: string)
    requires WellFormed(classes)
    ensures SearchClasses(classes, target).Some? ==>
              var p := SearchClasses(classes, target).value;
              |p| >= 2 && p[|p| - 1] == target && Walk(classes, p).Some?
  {
    if classes.Entry? {
      SearchShape(classes.code, classes.account.children, target);
      match Search(classes.code, classes.account.children, target)
      case Some(p) =>
      case None =>
        SearchClassesShape(classes.rest, target);
        if SearchClasses(classes.rest, target).Some? {
          var p := SearchClasses(classes.rest, target).value;
          assert Find(classes.rest, p[0]).Some?;
          assert p[0] != classes.code;
        }
    }
  }

  /** The round trip of `obter_caminho_conta` and `obter_conta_por_caminho`:
    * the path found for a code leads to the account stored under that code
    * in the dictionary the path's last step looks in. */
  lemma PathRoundTrip(chart: Entries, code: string)
    requires WellFormed(chart) && PathOf(chart, code).Some?
    ensures var p := PathOf(chart, code).value;
            p != [] && p[|p| - 1] == code && Walk(chart, p).Some?
            && (|p| == 1 ==> Walk(chart, p) == Find(chart, code))
            && (|p| >= 2 ==> Walk(chart, p[..|p| - 1]).Some?
                             && Walk(chart, p) == Find(Walk(chart, p[..|p| - 1]).value.children, code))
  {
    var p := PathOf(chart, code).value;
    if code !in Keys(chart) {
      SearchClassesShape(chart, code);
      var q := p[..|p| - 1];
      assert p == q + [code];
      WalkSnoc(chart, q, code);
    }
  }

  /** `obter_conta_por_caminho`: the first code looked up among the
    * classes, then each next one in the sub-accounts reached. */
  method NodeAt(chart: Entries, path: seq<string>) returns (r: Option<Account>)
    ensures r == Walk(chart, path)
  {
    if path == [] {
      return None;
    }
    hide Walk;
    WalkSnoc(chart, [], path[0]);
    assert [] + [path[0]] == path[..1];
    r := Find(chart, path[0]);
    for i := 1 to |path|
      invariant r == Walk(chart, path[..i])
    {
      WalkSnoc(chart, path[..i], path[i]);
      assert path[..i] + [path[i]] == path[..i + 1];
      if r.Some? {
        r := Find(r.value.children, path[i]);
      }
    }
    assert path[..|path|] == path;
  }

  // ---------------------------------------------------------------------
  // Editing the tree (`adicionar_conta`, `excluir_conta`)

  /** The account at `path` replaced by `g` of it; the dictionaries on the
    * way keep their keys and order. */
  function UpdateAt(subs: Entries, path: seq<string>, g: Account -> Account): Entries
    decreases |path|, subs
  {
    if path == [] || subs.Empty? then subs
    else if subs.code == path[0] then
      subs.(account := if |path| == 1 then g(subs.account)
                       else subs.account.(children := UpdateAt(subs.account.children, path[1..], g)))
    else subs.(rest := UpdateAt(subs.rest, path, g))
  }

  lemma {:induction false} UpdateAtKeys(subs: Entries, path: seq<string>, g: Account -> Account)
    ensures Keys(UpdateAt(subs, path, g)) == Keys(subs)
    decreases subs
  {
    if path != [] && subs.Entry? && subs.code != path[0] {
      UpdateAtKeys(subs.rest, path, g);
    }
  }

  /** After the update the path leads to `g` of what it led to. */
  lemma {:induction false} UpdateAtWalk(subs: Entries, path: seq<string>, g: Account -> Account)
    requires Walk(subs, path).Some?
    ensures Walk(UpdateAt(subs, path, g), path) == Some(g(Walk(subs, path).value))
    decreases |path|, subs
  {
    hide Walk, Find, Keys, UpdateAt;
    WalkCons(subs, path);
    UpdateAtCons(subs, path, g);
    var after := UpdateAt(subs, path, g);
    WalkStep(after, path);
    if subs.code == path[0] {
      if |path| > 1 {
        UpdateAtWalk(subs.account.children, path[1..], g);
      }
    } else {
      UpdateAtWalk(subs.rest, path, g);
    }
  }

  /** The update trades the codes below the old account for those below
    * the new one, and no other code changes. */
  lemma {:induction false} UpdateAtCodes(subs: Entries, path: seq<string>, g: Account -> Account)
    requires Walk(subs, path).Some?
    ensures Codes(UpdateAt(subs, path, g)) + Codes(Walk(subs, path).value.children)
            == Codes(subs) + Codes(g(Walk(subs, path).value).children)
    decreases |path|, subs
  {
    hide Walk, Find, Keys, UpdateAt, Codes;
    WalkCons(subs, path);
    UpdateAtCons(subs, path, g);
    CodesCons(subs.code, subs.account, subs.rest);
    var n := Walk(subs, path).value;
    var after := UpdateAt(subs, path, g);
    if subs.code == path[0] {
      var a := subs.account;
      if |path| == 1 {
        CodesCons(subs.code, g(a), subs.rest);
      } else {
        var below := UpdateAt(a.children, path[1..], g);
        UpdateAtCodes(a.children, path[1..], g);
        assert n == Walk(a.children, path[1..]).value;
        var a2 := Account(a.name, below);
        assert after == Entry(subs.code, a2, subs.rest);
        CodesCons(subs.code, a2, subs.rest);
        assert Codes(after) == multiset{subs.code} + Codes(below) + Codes(subs.rest);
        assert Codes(subs) == multiset{subs.code} + Codes(a.children) + Codes(subs.rest);
        assert Codes(below) + Codes(n.children) == Codes(a.children) + Codes(g(n).children);
        Rearrange(multiset{subs.code}, Codes(subs.rest), Codes(below), Codes(n.children), Codes(a.children), Codes(g(n).children));
      }
    } else {
      UpdateAtCodes(subs.rest, path, g);
      CodesCons(subs.code, subs.account, UpdateAt(subs.rest, path, g));
      Extend(multiset{subs.code} + Codes(subs.account.children),
             Codes(UpdateAt(subs.rest, path, g)), Codes(n.children), Codes(subs.rest), Codes(g(n).children));
    }
  }

  /** The update keeps every dictionary free of repeated keys when the new
    * account's own sub-accounts are. */
  lemma {:induction false} UpdateAtWellFormed(subs: Entries, path: seq<string>, g: Account -> Account)
    requires WellFormed(subs) && Walk(subs, path).Some? && WellFormed(g(Walk(subs, path).value).children)
    ensures WellFormed(UpdateAt(subs, path, g))
    decreases |path|, subs
  {
    hide Walk, Find, UpdateAt;
    WalkCons(subs, path);
    UpdateAtCons(subs, path, g);
    if subs.code == path[0] {
      if |path| > 1 {
        UpdateAtWellFormed(subs.account.children, path[1..], g);
      }
    } else {
      UpdateAtWellFormed(subs.rest, path, g);
      UpdateAtKeys(subs.rest, path, g);
    }
  }

  /** Walking down a path that leads somewhere: the first entry when it has
    * the first code, else the rest. */
  lemma WalkCons(subs: Entries, path: seq<string>)
    requires Walk(subs, path).Some?
    ensures path != [] && subs.Entry?
    ensures Walk(subs, path)
            == if subs.code == path[0] then (if |path| == 1 then Some(subs.account) else Walk(subs.account.children, path[1..]))
               else Walk(subs.rest, path)
  {
    hide Keys;
  }

  lemma WalkStep(subs: Entries, path: seq<string>)
    requires path != [] && subs.Entry?
    ensures Walk(subs, path)
            == if subs.code == path[0] then (if |path| == 1 then Some(subs.account) else Walk(subs.account.children, path[1..]))
               else Walk(subs.rest, path)
  {
    hide Keys;
  }

  lemma UpdateAtCons(subs: Entries, path: seq<string>, g: Account -> Account)
    requires path != [] && subs.Entry?
    ensures UpdateAt(subs, path, g)
            == if subs.code == path[0]
               then Entry(subs.code, if |path| == 1 then g(subs.account)
                                     else subs.account.(children := UpdateAt(subs.account.children, path[1..], g)), subs.rest)
               else Entry(subs.code, subs.account, UpdateAt(subs.rest, path, g))
  {
  }

  /** Multisets cancel a common part. */
  lemma MultisetCancel(a: multiset<string>, b: multiset<string>, w: multiset<string>)
    requires a + w == b + w
    ensures a == b
  {
    assert forall x :: a[x] == (a + w)[x] - w[x];
  }

  /** Adding the same parts to both sides of an equation of multisets. */
  lemma Rearrange(c: multiset<string>, r: multiset<string>, x: multiset<string>, y: multiset<string>,
                  u: multiset<string>, v: multiset<string>)
    requires x + y == u + v
    ensures c + x + r + y == c + u + r + v
  {
    assert forall e :: (c + x + r + y)[e] == c[e] + r[e] + (x + y)[e];
    assert forall e :: (c + u + r + v)[e] == c[e] + r[e] + (u + v)[e];
  }

  lemma Extend(c: multiset<string>, x: multiset<string>, y: multiset<string>, u: multiset<string>, v: multiset<string>)
    requires x + y == u + v
    ensures c + x + y == c + u + v
  {
    assert forall e :: (c + x + y)[e] == c[e] + (x + y)[e];
    assert forall e :: (c + u + v)[e] == c[e] + (u + v)[e];
  }

  lemma CodesCons(code: string, a: Account, rest: Entries)
    ensures Codes(Entry(code, a, rest)) == multiset{code} + Codes(a.children) + Codes(rest)
  {
  }

  /** A path of one code looks that code up. */
  lemma WalkOne(subs: Entries, code: string)
    ensures Walk(subs, [code]) == Find(subs, code)
  {
    hide Find;
  }

  /** A new account has no codes below it and is well formed. */
  lemma LeafEmpty(name: string)
    ensures Codes(Leaf(name).children) == multiset{} && WellFormed(Leaf(name).children)
  {
  }

  /** A new key goes last and is found there. */
  lemma {:induction false} AppendEffect(subs: Entries, code: string, a: Account)
    requires code !in Keys(subs)
    ensures Keys(Append(subs, code, a)) == Keys(subs) + [code]
    ensures Find(Append(subs, code, a), code) == Some(a)
    ensures Codes(Append(subs, code, a)) == Codes(subs) + multiset{code} + Codes(a.children)
    ensures WellFormed(subs) && WellFormed(a.children) ==> WellFormed(Append(subs, code, a))
  {
    if subs.Entry? {
      AppendEffect(subs.rest, code, a);
    }
  }

  /** Deleting a key of a dictionary without repeats removes that entry
    * and the codes below it, and nothing else. */
  lemma {:induction false} WithoutEffect(subs: Entries, code: string)
    requires WellFormed(subs) && code in Keys(subs)
    ensures Find(Without(subs, code), code) == None
    ensures Codes(Without(subs, code)) + multiset{code} + Codes(Find(subs, code).value.children) == Codes(subs)
    ensures WellFormed(Without(subs, code))
  {
    hide Codes, Find;
    CodesCons(subs.code, subs.account, subs.rest);
    if subs.code != code {
      var r := Without(subs.rest, code);
      WithoutEffect(subs.rest, code);
      WithoutKeys(subs.rest, code);
      assert Without(subs, code) == Entry(subs.code, subs.account, r);
      FindCons(subs, code);
      FindCons(Without(subs, code), code);
      CodesCons(subs.code, subs.account, r);
      Extend(multiset{subs.code} + Codes(subs.account.children), Codes(r),
             multiset{code} + Codes(Find(subs, code).value.children), Codes(subs.rest), multiset{});
    } else {
      FindCons(subs, code);
      assert Find(subs.rest, code) == None;
    }
  }

  lemma FindCons(subs: Entries, code: string)
    requires subs.Entry?
    ensures Find(subs, code) == if subs.code == code then Some(subs.account) else Find(subs.rest, code)
  {
  }

  /** Deleting adds no key. */
  lemma {:induction false} WithoutKeys(subs: Entries, code: string)
    ensures forall k :: k in Keys(Without(subs, code)) ==> k in Keys(subs)
  {
    if subs.Entry? && subs.code != code {
      WithoutKeys(subs.rest, code);
    }
  }

  datatype AddOutcome = Added | Duplicate | ParentNotFound | Cancelled

  /** A new account under `parent` (a class when nothing is selected):
    * cancelled on an empty code or name, refused on a code its siblings
    * already use. */
  function AddResult(chart: Entries, selected: Option<string>, code: string, name: string): (AddOutcome, Entries)
  {
    match selected
    case None =>
      if code == "" then (Cancelled, chart)
      else if code in Keys(chart) then (Duplicate, chart)
      else if name == "" then (Cancelled, chart)
      else (Added, Append(chart, code, Leaf(name)))
    case Some(parent) =>
      match PathOf(chart, parent)
      case None => (ParentNotFound, chart)
      case Some(path) =>
        if code == "" then (Cancelled, chart)
        else match Walk(chart, path)
          case None => (ParentNotFound, chart)
          case Some(p) =>
            if code in Keys(p.children) then (Duplicate, chart)
            else if name == "" then (Cancelled, chart)
            else (Added, UpdateAt(chart, path, AddChild(code, name)))
  }

  /** The parent with one more sub-account. */
  function AddChild(code: string, name: string): Account -> Account
  {
    (p: Account) => p.(children := Append(p.children, code, Leaf(name)))
  }

  /** A class is added exactly when its code is new and a name is given;
    * then the chart gains that one code, the class is found under it, and
    * no key is repeated anywhere. */
  lemma AddClassEffect(chart: Entries, code: string, name: string)
    requires WellFormed(chart)
    ensures var (outcome, after) := AddResult(chart, None, code, name);
            (outcome == Duplicate <==> code != "" && code in Keys(chart))
            && (outcome != Added ==> after == chart)
            && (outcome == Added <==> code != "" && name != "" && code !in Keys(chart))
            && (outcome == Added ==> Codes(after) == Codes(chart) + multiset{code}
                                     && Walk(after, [code]) == Some(Leaf(name)) && WellFormed(after))
  {
    hide Walk, Codes, WellFormed, Append, Find, Keys;
    if code != "" && name != "" && code !in Keys(chart) {
      AppendEffect(chart, code, Leaf(name));
      WalkOne(Append(chart, code, Leaf(name)), code);
      LeafEmpty(name);
    }
  }

  /** The sub-accounts of `parent`, when its path is found and leads to
    * an account. */
  function SubAccountsOf(chart: Entries, parent: string): Option<Entries>
  {
    match PathOf(chart, parent)
    case None => None
    case Some(path) =>
      match Walk(chart, path)
      case None => None
      case Some(p) => Some(p.children)
  }

  /** Walking two dictionaries that agree on the first code. */
  lemma WalkSameFind(x: Entries, y: Entries, path: seq<string>)
    requires path != [] && Find(x, path[0]) == Find(y, path[0])
    ensures Walk(x, path) == Walk(y, path)
  {
    hide Find;
  }

  lemma {:induction false} FindAppendOther(subs: Entries, code: string, a: Account, k: string)
    requires k != code
    ensures Find(Append(subs, code, a), k) == Find(subs, k)
  {
    if subs.Entry? {
      FindAppendOther(subs.rest, code, a, k);
    }
  }

  lemma {:induction false} FindWithoutOther(subs: Entries, code: string, k: string)
    requires k != code
    ensures Find(Without(subs, code), k) == Find(subs, k)
  {
    if subs.Entry? && subs.code != code {
      FindWithoutOther(subs.rest, code, k);
    }
  }

  /** An update at `path` is not seen on a path that neither leads to it
    * nor passes through it. */
  lemma {:induction false} WalkElsewhere(subs: Entries, path: seq<string>, g: Account -> Account, q: seq<string>)
    requires !(q <= path) && !(path <= q)
    ensures Walk(UpdateAt(subs, path, g), q) == Walk(subs, q)
    decreases |path|, subs
  {
    assert path != [] && q != [];
    if subs.Entry? {
      hide Walk, Find, Keys, UpdateAt;
      UpdateAtCons(subs, path, g);
      var after := UpdateAt(subs, path, g);
      WalkStep(after, q);
      WalkStep(subs, q);
      if subs.code == path[0] {
        if subs.code == q[0] {
          assert |path| >= 2 && |q| >= 2;
          assert !(q[1..] <= path[1..]);
          assert !(path[1..] <= q[1..]);
          WalkElsewhere(subs.account.children, path[1..], g, q[1..]);
        }
      } else {
        WalkElsewhere(subs.rest, path, g, q);
      }
    }
  }

  /** Below the updated account, the paths look in its new sub-accounts. */
  lemma {:induction false} WalkBelow(subs: Entries, path: seq<string>, g: Account -> Account, rest: seq<string>)
    requires Walk(subs, path).Some? && rest != []
    ensures Walk(UpdateAt(subs, path, g), path + rest) == Walk(g(Walk(subs, path).value).children, rest)
    ensures Walk(subs, path + rest) == Walk(Walk(subs, path).value.children, rest)
    decreases |path|, subs
  {
    hide Walk, Find, Keys, UpdateAt;
    WalkCons(subs, path);
    UpdateAtCons(subs, path, g);
    var after := UpdateAt(subs, path, g);
    WalkStep(after, path + rest);
    WalkStep(subs, path + rest);
    assert (path + rest)[0] == path[0];
    if subs.code == path[0] {
      if |path| == 1 {
        assert (path + rest)[1..] == rest;
      } else {
        assert (path + rest)[1..] == path[1..] + rest;
        WalkBelow(subs.account.children, path[1..], g, rest);
      }
    } else {
      WalkBelow(subs.rest, path, g, rest);
    }
  }

  /** The accounts on the way to the updated one are still there, under
    * their names, when the update keeps the name. */
  lemma {:induction false} WalkAncestor(subs: Entries, path: seq<string>, g: Account -> Account, q: seq<string>)
    requires Walk(subs, path).Some? && q != [] && q <= path
    requires g(Walk(subs, path).value).name == Walk(subs, path).value.name
    ensures Walk(subs, q).Some? && Walk(UpdateAt(subs, path, g), q).Some?
    ensures Walk(UpdateAt(subs, path, g), q).value.name == Walk(subs, q).value.name
    decreases |path|, subs
  {
    hide Walk, Find, Keys, UpdateAt;
    WalkCons(subs, path);
    UpdateAtCons(subs, path, g);
    var after := UpdateAt(subs, path, g);
    WalkStep(after, q);
    WalkStep(subs, q);
    assert q[0] == path[0];
    if subs.code == path[0] {
      if |q| > 1 {
        assert q[1..] <= path[1..];
        WalkAncestor(subs.account.children, path[1..], g, q[1..]);
      }
    } else {
      WalkAncestor(subs.rest, path, g, q);
    }
  }

  /** Adding a sub-account under `path` changes no account off the way to
    * the new one. */
  lemma AddFrame(chart: Entries, path: seq<string>, code: string, name: string, q: seq<string>)
    requires Walk(chart, path).Some? && code !in Keys(Walk(chart, path).value.children)
    requires !(q <= path + [code])
    ensures Walk(UpdateAt(chart, path, AddChild(code, name)), q) == Walk(chart, q)
  {
    hide Walk, Find, Keys, UpdateAt, Append;
    if !(path <= q) {
      WalkElsewhere(chart, path, AddChild(code, name), q);
    } else {
      var rest := q[|path|..];
      assert q == path + rest;
      AddBelow(chart, path, code, name, rest);
    }
  }

  lemma AddBelow(chart: Entries, path: seq<string>, code: string, name: string, rest: seq<string>)
    requires Walk(chart, path).Some? && code !in Keys(Walk(chart, path).value.children)
    requires rest != [] && rest != [code]
    ensures Walk(UpdateAt(chart, path, AddChild(code, name)), path + rest) == Walk(chart, path + rest)
  {
    hide Walk, Find, Keys, UpdateAt, Append;
    var g := AddChild(code, name);
    WalkBelow(chart, path, g, rest);
    var ch := Walk(chart, path).value.children;
    assert g(Walk(chart, path).value).children == Append(ch, code, Leaf(name));
    WalkAppended(ch, code, Leaf(name), rest);
  }

  /** Walking a dictionary after a new key is appended with an account
    * without sub-accounts: only the path of that one key changes. */
  lemma WalkAppended(subs: Entries, code: string, a: Account, path: seq<string>)
    requires code !in Keys(subs) && a.children == Empty && path != [] && path != [code]
    ensures Walk(Append(subs, code, a), path) == Walk(subs, path)
  {
    hide Walk, Find, Keys, Append;
    if path[0] == code {
      assert path == [path[0]] + path[1..];
      WalkThroughNew(subs, code, a, path[1..]);
    } else {
      FindAppendOther(subs, code, a, path[0]);
      WalkSameFind(Append(subs, code, a), subs, path);
    }
  }

  /** Below the new key there is nothing, before as after. */
  lemma WalkThroughNew(subs: Entries, code: string, a: Account, more: seq<string>)
    requires code !in Keys(subs) && a.children == Empty && more != []
    ensures Walk(Append(subs, code, a), [code] + more) == None == Walk(subs, [code] + more)
  {
    hide Walk, Find, Keys, Append;
    AppendEffect(subs, code, a);
    var path := [code] + more;
    assert path[0] == code && path[1..] == more && |path| >= 2;
    WalkFirst(Append(subs, code, a), path);
    WalkFirst(subs, path);
    WalkEmpty(more);
  }

  lemma WalkFirst(subs: Entries, path: seq<string>)
    requires path != []
    ensures Walk(subs, path)
            == match Find(subs, path[0])
               case None => None
               case Some(b) => if |path| == 1 then Some(b) else Walk(b.children, path[1..])
  {
    hide Find;
  }

  lemma WalkEmpty(path: seq<string>)
    ensures Walk(Empty, path) == None
  {
  }

  /** Deleting a sub-account of the account at `parentPath` changes no
    * account off the way to it and outside what it held. */
  lemma DeleteFrame(chart: Entries, parentPath: seq<string>, code: string, q: seq<string>)
    requires Walk(chart, parentPath).Some?
    requires !(q <= parentPath) && !(parentPath + [code] <= q)
    ensures Walk(UpdateAt(chart, parentPath, RemoveChild(code)), q) == Walk(chart, q)
  {
    hide Walk, Find, Keys, UpdateAt, Without;
    var g := RemoveChild(code);
    if !(parentPath <= q) {
      WalkElsewhere(chart, parentPath, g, q);
    } else {
      var rest := q[|parentPath|..];
      assert q == parentPath + rest;
      assert rest != [];
      assert rest[0] != code;
      WalkBelow(chart, parentPath, g, rest);
      var ch := Walk(chart, parentPath).value.children;
      FindWithoutOther(ch, code, rest[0]);
      WalkSameFind(Without(ch, code), ch, rest);
    }
  }

  /** Nothing is found through a deleted key. */
  lemma GoneBelow(subs: Entries, code: string, more: seq<string>)
    requires WellFormed(subs) && code in Keys(subs)
    ensures Walk(Without(subs, code), [code] + more) == None
  {
    hide Keys, Without;
    WithoutEffect(subs, code);
    WalkSameFind(Without(subs, code), Empty, [code] + more);
  }

  /** A sub-account is added exactly when its parent is found, a code is
    * given that its new siblings do not use, and a name is given; it is
    * refused as a duplicate exactly when that code is already among them.
    * When added, the chart gains that one code, the account is found under
    * the parent's path, no key is repeated anywhere, the accounts on the
    * way keep their names, and every other account is as it was. */
  lemma AddSubEffect(chart: Entries, parent: string, code: string, name: string)
    requires WellFormed(chart)
    ensures var (outcome, after) := AddResult(chart, Some(parent), code, name);
            var kids := SubAccountsOf(chart, parent);
            (kids.Some? <==> Occurs(chart, parent))
            && (outcome == ParentNotFound <==> !Occurs(chart, parent))
            && (outcome == Duplicate <==> kids.Some? && code != "" && code in Keys(kids.value))
            && (outcome == Added <==> kids.Some? && code != "" && name != "" && code !in Keys(kids.value))
            && (outcome != Added ==> after == chart)
            && (outcome == Added ==>
                  var path := PathOf(chart, parent).value;
                  Codes(after) == Codes(chart) + multiset{code}
                  && Walk(after, path + [code]) == Some(Leaf(name)) && WellFormed(after)
                  && Walk(after, path) == Some(Account(Walk(chart, path).value.name, Append(kids.value, code, Leaf(name))))
                  && (forall q :: q != [] && q <= path ==>
                        Walk(chart, q).Some? && Walk(after, q).Some? && Walk(after, q).value.name == Walk(chart, q).value.name)
                  && (forall q :: !(q <= path + [code]) ==> Walk(after, q) == Walk(chart, q)))
  {
    hide Walk, Find, Keys, Codes, WellFormed, Append, UpdateAt, PathOf, Occurs;
    PathOfComplete(chart, parent);
    if PathOf(chart, parent).Some? {
      PathRoundTrip(chart, parent);
      var path := PathOf(chart, parent).value;
      var p := Walk(chart, path).value;
      if code != "" && name != "" && code !in Keys(p.children) {
        AddSubAdded(chart, path, code, name);
        var after := UpdateAt(chart, path, AddChild(code, name));
        forall q | q != [] && q <= path
          ensures Walk(chart, q).Some? && Walk(after, q).Some? && Walk(after, q).value.name == Walk(chart, q).value.name
        {
          WalkAncestor(chart, path, AddChild(code, name), q);
        }
        forall q | !(q <= path + [code])
          ensures Walk(after, q) == Walk(chart, q)
        {
          AddFrame(chart, path, code, name, q);
        }
      }
    }
  }

  /** The account added under the one at `path`. */
  lemma AddSubAdded(chart: Entries, path: seq<string>, code: string, name: string)
    requires WellFormed(chart) && Walk(chart, path).Some? && code !in Keys(Walk(chart, path).value.children)
    ensures var after := UpdateAt(chart, path, AddChild(code, name));
            var p := Walk(chart, path).value;
            Codes(after) == Codes(chart) + multiset{code}
            && Walk(after, path + [code]) == Some(Leaf(name)) && WellFormed(after)
            && Walk(after, path) == Some(Account(p.name, Append(p.children, code, Leaf(name))))
  {
    hide Walk, Find, Keys, Codes, WellFormed, Append, UpdateAt, PathOf, Occurs;
    var p := Walk(chart, path).value;
    var g := AddChild(code, name);
    AppendEffect(p.children, code, Leaf(name));
    LeafEmpty(name);
    assert WellFormed(p.children) by {
      WalkWellFormed(chart, path);
    }
    assert g(p) == Account(p.name, Append(p.children, code, Leaf(name)));
    UpdateAtCodes(chart, path, g);
    MultisetCancel(Codes(UpdateAt(chart, path, g)), Codes(chart) + multiset{code}, Codes(p.children));
    UpdateAtWalk(chart, path, g);
    UpdateAtWellFormed(chart, path, g);
    WalkSnoc(UpdateAt(chart, path, g), path, code);
    WalkOccurs(chart, path);
  }

  /** Every account of a well-formed chart has well-formed sub-accounts. */
  lemma {:induction false} WalkWellFormed(subs: Entries, path: seq<string>)
    requires WellFormed(subs) && Walk(subs, path).Some?
    ensures WellFormed(Walk(subs, path).value.children)
    decreases |path|, subs
  {
    hide Walk, Find, Keys;
    WalkCons(subs, path);
    if subs.code == path[0] {
      if |path| > 1 {
        WalkWellFormed(subs.account.children, path[1..]);
      }
    } else {
      WalkWellFormed(subs.rest, path);
    }
  }

  datatype DeleteOutcome = Deleted | NothingSelected | NotConfirmed | NotFound

  /** The selected account and everything below it removed: a class from
    * the chart, any other account from its parent's sub-accounts. */
  function DeleteResult(chart: Entries, selected: Option<string>, confirmed: bool): (DeleteOutcome, Entries)
  {
    match selected
    case None => (NothingSelected, chart)
    case Some(code) =>
      if !confirmed then (NotConfirmed, chart)
      else match PathOf(chart, code)
        case None => (NotFound, chart)
        case Some(path) =>
          if |path| == 1 then (Deleted, Without(chart, path[0]))
          else
            var parentPath := path[..|path| - 1];
            if Walk(chart, parentPath).None? then (NotFound, chart)
            else (Deleted, UpdateAt(chart, parentPath, RemoveChild(path[|path| - 1])))
  }

  /** The parent without one sub-account. */
  function RemoveChild(code: string): Account -> Account
  {
    (p: Account) => p.(children := Without(p.children, code))
  }

  /** Deleting a code found in the chart removes the account at its path,
    * with the codes below it, and no other code; nothing is found through
    * that path any more, the accounts on the way keep their names, and
    * every other account is as it was. */
  lemma DeleteEffect(chart: Entries, code: string)
    requires WellFormed(chart) && Occurs(chart, code)
    ensures PathOf(chart, code).Some?
    ensures var (outcome, after) := DeleteResult(chart, Some(code), true);
            var path := PathOf(chart, code).value;
            var parentPath := path[..|path| - 1];
            outcome == Deleted && Walk(chart, path).Some?
            && Codes(after) + multiset{code} + Codes(Walk(chart, path).value.children) == Codes(chart)
            && Walk(after, path) == None && WellFormed(after)
            && (forall q :: path <= q ==> Walk(after, q) == None)
            && (forall q :: q != [] && q <= parentPath ==>
                  Walk(chart, q).Some? && Walk(after, q).Some? && Walk(after, q).value.name == Walk(chart, q).value.name)
            && (forall q :: !(q <= parentPath) && !(path <= q) ==> Walk(after, q) == Walk(chart, q))
  {
    hide Walk, Find, Keys, Codes, WellFormed, Without, UpdateAt, PathOf, Occurs;
    PathOfComplete(chart, code);
    PathRoundTrip(chart, code);
    var path := PathOf(chart, code).value;
    var parentPath := path[..|path| - 1];
    DeleteCodes(chart, code);
    var after := DeleteResult(chart, Some(code), true).1;
    if |path| == 1 {
      assert path == [code];
      assert after == Without(chart, code);
      forall q | path <= q
        ensures Walk(after, q) == None
      {
        assert q == [code] + q[1..];
        GoneBelow(chart, code, q[1..]);
      }
      forall q | !(q <= parentPath) && !(path <= q)
        ensures Walk(after, q) == Walk(chart, q)
      {
        assert q != [] && q[0] != code;
        FindWithoutOther(chart, code, q[0]);
        WalkSameFind(Without(chart, code), chart, q);
      }
    } else {
      var g := RemoveChild(code);
      assert after == UpdateAt(chart, parentPath, g);
      assert path == parentPath + [code];
      forall q | path <= q
        ensures Walk(after, q) == None
      {
        DeleteSubGone(chart, parentPath, code, q[|path|..]);
        assert q == parentPath + ([code] + q[|path|..]);
      }
      forall q | q != [] && q <= parentPath
        ensures Walk(chart, q).Some? && Walk(after, q).Some? && Walk(after, q).value.name == Walk(chart, q).value.name
      {
        WalkAncestor(chart, parentPath, g, q);
      }
      forall q | !(q <= parentPath) && !(path <= q)
        ensures Walk(after, q) == Walk(chart, q)
      {
        DeleteFrame(chart, parentPath, code, q);
      }
    }
  }

  /** What deleting takes away: the account at the path found, with the
    * codes below it, and no other code. */
  lemma DeleteCodes(chart: Entries, code: string)
    requires WellFormed(chart) && Occurs(chart, code)
    ensures PathOf(chart, code).Some?
    ensures var (outcome, after) := DeleteResult(chart, Some(code), true);
            var path := PathOf(chart, code).value;
            outcome == Deleted && Walk(chart, path).Some?
            && Codes(after) + multiset{code} + Codes(Walk(chart, path).value.children) == Codes(chart)
            && Walk(after, path) == None && WellFormed(after)
            && (|path| == 1 ==> after == Without(chart, code) && code in Keys(chart))
            && (|path| >= 2 ==> after == UpdateAt(chart, path[..|path| - 1], RemoveChild(code)))
  {
    hide Walk, Find, Keys, Codes, WellFormed, Without, UpdateAt, PathOf, Occurs;
    PathOfComplete(chart, code);
    PathRoundTrip(chart, code);
    var path := PathOf(chart, code).value;
    if |path| == 1 {
      WithoutEffect(chart, code);
      assert path == [code];
      WalkOne(chart, code);
      WalkOne(Without(chart, code), code);
    } else {
      var parentPath := path[..|path| - 1];
      var p := Walk(chart, parentPath).value;
      var g := RemoveChild(code);
      WalkWellFormed(chart, parentPath);
      WithoutEffect(p.children, code);
      assert g(p).children == Without(p.children, code);
      UpdateAtCodes(chart, parentPath, g);
      UpdateAtWalk(chart, parentPath, g);
      UpdateAtWellFormed(chart, parentPath, g);
      var gone := multiset{code} + Codes(Find(p.children, code).value.children);
      var kept := Codes(Without(p.children, code));
      MultisetCancel(Codes(UpdateAt(chart, parentPath, g)) + gone, Codes(chart), kept);
      assert path == parentPath + [code];
      WalkSnoc(UpdateAt(chart, parentPath, g), parentPath, code);
    }
  }

  /** Nothing is found at or below a deleted sub-account. */
  lemma DeleteSubGone(chart: Entries, parentPath: seq<string>, code: string, more: seq<string>)
    requires WellFormed(chart) && Walk(chart, parentPath).Some?
    requires code in Keys(Walk(chart, parentPath).value.children)
    ensures Walk(UpdateAt(chart, parentPath, RemoveChild(code)), parentPath + ([code] + more)) == None
  {
    hide Walk, Find, Keys, WellFormed, Without, UpdateAt;
    var ch := Walk(chart, parentPath).value.children;
    WalkBelow(chart, parentPath, RemoveChild(code), [code] + more);
    assert RemoveChild(code)(Walk(chart, parentPath).value).children == Without(ch, code);
    WalkWellFormed(chart, parentPath);
    GoneBelow(ch, code, more);
  }

  // ---------------------------------------------------------------------
  // Export (`exportar_plano`, `adicionar_subcontas_para_exportacao`)

  /** A row of the exported table: `Código`, `Nome`, `Nível`. */
  datatype ExportRow = ExportRow(code: string, name: string, level: int)

  /** The rows for a dictionary of accounts at `level`: each account, then
    * its sub-accounts one level deeper, in insertion order. */
  function ExportSubs(subs: Entries, level: int): seq<ExportRow>
    decreases subs
  {
    if subs.Empty? then []
    else [ExportRow(subs.code, subs.account.name, level)]
         + ExportSubs(subs.account.children, level + 1) + ExportSubs(subs.rest, level)
  }

  /** The whole table: the classes at level 1. */
  function Export(chart: Entries): seq<ExportRow>
  {
    ExportSubs(chart, 1)
  }

  /** The number of accounts in the tree. */
  function Size(subs: Entries): nat
  {
    if subs.Empty? then 0 else 1 + Size(subs.account.children) + Size(subs.rest)
  }

  function RowCodes(rows: seq<ExportRow>): multiset<string>
  {
    if rows == [] then multiset{} else multiset{rows[0].code} + RowCodes(rows[1..])
  }

  lemma {:induction false} RowCodesAppend(a: seq<ExportRow>, b: seq<ExportRow>)
    ensures RowCodes(a + b) == RowCodes(a) + RowCodes(b)
  {
    if a == [] {
      assert a + b == b;
    } else {
      hide RowCodes;
      assert (a + b)[0] == a[0];
      assert (a + b)[1..] == a[1..] + b;
      RowCodesAppend(a[1..], b);
      RowCodesCons(a + b);
      RowCodesCons(a);
    }
  }

  lemma RowCodesCons(rows: seq<ExportRow>)
    requires rows != []
    ensures RowCodes(rows) == multiset{rows[0].code} + RowCodes(rows[1..])
  {
  }

  /** Every account is exported once: one row per account, carrying
    * exactly the codes of the tree. */
  lemma {:induction false} ExportCodes(subs: Entries, level: int)
    ensures |ExportSubs(subs, level)| == Size(subs)
    ensures RowCodes(ExportSubs(subs, level)) == Codes(subs)
    decreases subs
  {
    if subs.Entry? {
      hide RowCodes, Codes, Size;
      var head := [ExportRow(subs.code, subs.account.name, level)];
      var below := ExportSubs(subs.account.children, level + 1);
      var after := ExportSubs(subs.rest, level);
      CodesCons(subs.code, subs.account, subs.rest);
      SizeCons(subs);
      RowCodesCons(head);
      assert head[1..] == [];
      ExportCodes(subs.account.children, level + 1);
      ExportCodes(subs.rest, level);
      RowCodesAppend(head, below);
      RowCodesAppend(head + below, after);
    }
  }

  lemma SizeCons(subs: Entries)
    requires subs.Entry?
    ensures Size(subs) == 1 + Size(subs.account.children) + Size(subs.rest)
  {
  }

  /** No row is more than one level below the row before it. */
  predicate Stepped(rows: seq<ExportRow>)
  {
    forall i :: 0 < i < |rows| ==> rows[i].level <= rows[i - 1].level + 1
  }

  lemma SteppedAppend(a: seq<ExportRow>, b: seq<ExportRow>)
    requires Stepped(a) && Stepped(b)
    requires a != [] && b != [] ==> b[0].level <= a[|a| - 1].level + 1
    ensures Stepped(a + b)
  {
    forall i | 0 < i < |a + b|
      ensures (a + b)[i].level <= (a + b)[i - 1].level + 1
    {
      if i > |a| {
        assert (a + b)[i] == b[i - |a|] && (a + b)[i - 1] == b[i - 1 - |a|];
      }
    }
  }

  /** The levels of an export: the first row is at the starting level, no
    * row is above it, and each row is at most one level below the one
    * before, so every sub-account follows its parent. */
  lemma {:induction false} ExportLevels(subs: Entries, level: int)
    ensures var rows := ExportSubs(subs, level);
            (rows != [] ==> rows[0].level == level)
            && (forall i :: 0 <= i < |rows| ==> rows[i].level >= level)
            && Stepped(rows)
    decreases subs
  {
    if subs.Entry? {
      var head := [ExportRow(subs.code, subs.account.name, level)];
      var below := ExportSubs(subs.account.children, level + 1);
      var after := ExportSubs(subs.rest, level);
      ExportLevels(subs.account.children, level + 1);
      ExportLevels(subs.rest, level);
      SteppedAppend(head, below);
      assert forall i :: 0 <= i < |head + below| ==> (head + below)[i].level >= level;
      SteppedAppend(head + below, after);
      assert forall i :: 0 <= i < |head + below + after| ==> (head + below + after)[i].level >= level by {
        forall i | 0 <= i < |head + below + after|
          ensures (head + below + after)[i].level >= level
        {
          if i >= |head + below| {
            assert (head + below + after)[i] == after[i - |head + below|];
          } else {
            assert (head + below + after)[i] == (head + below)[i];
          }
        }
      }
    }
  }

  /** `adicionar_subcontas_para_exportacao`: appends the rows of a
    * dictionary to the table, recursing into each account's sub-accounts
    * one level deeper. */
  method AppendExport(rows: seq<ExportRow>, subs: Entries, level: int) returns (out: seq<ExportRow>)
    ensures out == rows + ExportSubs(subs, level)
    decreases Size(subs)
  {
    out := rows;
    var cur := subs;
    while cur.Entry?
      invariant out + ExportSubs(cur, level) == rows + ExportSubs(subs, level)
      invariant Size(cur) <= Size(subs)
      decreases Size(cur)
    {
      out := out + [ExportRow(cur.code, cur.account.name, level)];
      out := AppendExport(out, cur.account.children, level + 1);
      cur := cur.rest;
    }
  }

  // ---------------------------------------------------------------------
  // Import as written (`importar_plano`)

  /** `'.'.join(code.split('.')[:-1])` when the code has at least two
    * '.'-separated parts. */
  function ParentCode(code: string): Option<string>
  {
    var parts := Split(code, '.');
    if |parts| >= 2 then Some(Join(parts[..|parts| - 1], '.')) else None
  }

  /** A code has a parent code exactly when it contains a '.'. */
  lemma ParentCodeIff(code: string)
    ensures ParentCode(code).None? <==> '.' !in code
  {
    JoinSplit(code, '.');
    if '.' !in code {
      SplitNone(code, '.');
    }
  }

  /** `subcontas[codigo] = {nome, subcontas: {}}` on the parent. */
  function SetChild(code: string, name: string): Account -> Account
  {
    (p: Account) => p.(children := Set(p.children, code, Leaf(name)))
  }

  /** One row of the loop in `importar_plano`: a level-1 row becomes a
    * class; any other row is attached under the account whose code is its
    * own without the last '.'-part, when it has one and that account is
    * already in the new plan, and is dropped otherwise. */
  function ImportRowAsWritten(plan: Entries, row: ExportRow): Entries
  {
    if row.level == 1 then Set(plan, row.code, Leaf(row.name))
    else match ParentCode(row.code)
      case None => plan
      case Some(parent) =>
        match PathOf(plan, parent)
        case None => plan
        case Some(path) => UpdateAt(plan, path, SetChild(row.code, row.name))
  }

  /** The plan built from the rows in order, starting from an empty one. */
  function ImportAllAsWritten(rows: seq<ExportRow>): Entries
  {
    if rows == [] then Empty
    else ImportRowAsWritten(ImportAllAsWritten(rows[..|rows| - 1]), rows[|rows| - 1])
  }

  /** The loop of `importar_plano`, as written. */
  method ImportAsWritten(rows: seq<ExportRow>) returns (plan: Entries)
    ensures plan == ImportAllAsWritten(rows)
  {
    plan := Empty;
    for i := 0 to |rows|
      invariant plan == ImportAllAsWritten(rows[..i])
    {
      assert rows[..i + 1][..i] == rows[..i];
      plan := ImportRowAsWritten(plan, rows[i]);
    }
    assert rows[..|rows|] == rows;
  }

  /** The attachment rule: a row below level 1 whose code has no '.' is
    * dropped, and so is one whose parent code is not yet in the plan; a
    * level-1 row is found among the classes afterwards. */
  lemma AttachRule(plan: Entries, row: ExportRow)
    ensures row.level != 1 && '.' !in row.code ==> ImportRowAsWritten(plan, row) == plan
    ensures row.level != 1 && ParentCode(row.code).Some? && !Occurs(plan, ParentCode(row.code).value)
            ==> ImportRowAsWritten(plan, row) == plan
    ensures row.level == 1 ==> Find(ImportRowAsWritten(plan, row), row.code) == Some(Leaf(row.name))
  {
    ParentCodeIff(row.code);
    if row.level == 1 {
      SetFind(plan, row.code, Leaf(row.name));
    } else if ParentCode(row.code).Some? {
      PathOfComplete(plan, ParentCode(row.code).value);
    }
  }

  lemma {:induction false} SetFind(subs: Entries, code: string, a: Account)
    ensures Find(Set(subs, code, a), code) == Some(a)
  {
    if subs.Entry? && subs.code != code {
      SetFind(subs.rest, code, a);
    }
  }

  /** The default chart's codes carry no '.', so an exported class with one
    * sub-account comes back without it: class 4 with account 43 exports
    * to two rows and imports to class 4 alone. */
  lemma ImportDropsSubaccountsAsWritten()
    ensures var chart := Entry("4", Account("Meios Monetários", Entry("43", Leaf("Depósitos à Ordem"), Empty)), Empty);
            Export(chart) == [ExportRow("4", "Meios Monetários", 1), ExportRow("43", "Depósitos à Ordem", 2)]
            && ImportAllAsWritten(Export(chart)) == Entry("4", Leaf("Meios Monetários"), Empty)
            && ImportAllAsWritten(Export(chart)) != chart
  {
    var rows := [ExportRow("4", "Meios Monetários", 1), ExportRow("43", "Depósitos à Ordem", 2)];
    assert rows[..1] == [rows[0]];
    assert [rows[0]][..0] == [];
    SplitNone("43", '.');
  }

  // ---------------------------------------------------------------------
  // The corrected importer: the loop of `importar_plano`, with a sub-account
  // row whose code has no '.' placed under the last account read at the
  // level above

  /** What the import has built so far: the new plan, and for each level the
    * path of the last account placed at it (`open[0]` for level 1). */
  datatype ImportState = ImportState(plan: Entries, open: seq<seq<string>>)

  const StartImport := ImportState(Empty, [])

  /** The paths of the first `n` levels, or all of them when fewer are
    * open. */
  function Above(open: seq<seq<string>>, n: int): (r: seq<seq<string>>)
    ensures 0 <= n <= |open| ==> r == open[..n]
    ensures n > |open| ==> r == open
  {
    if n <= 0 then [] else if n < |open| then open[..n] else open
  }

  /** The row stored as `subcontas[codigo]` of the account at `path`; it is
    * now the last account read at its level. */
  function Attach(s: ImportState, path: seq<string>, row: ExportRow): ImportState
  {
    ImportState(UpdateAt(s.plan, path, SetChild(row.code, row.name)),
                Above(s.open, row.level - 1) + [path + [row.code]])
  }

  /** One row: a level-1 row becomes a class, and a row with a dotted code
    * goes under the account with its parent code, as in the source; a
    * sub-account row whose code has no '.' goes under the last account read
    * at the level above, where the source drops it. A row with no such
    * place is skipped and the import goes on. */
  function ImportRow(s: ImportState, row: ExportRow): ImportState
  {
    if row.level == 1 then ImportState(Set(s.plan, row.code, Leaf(row.name)), [[row.code]])
    else match ParentCode(row.code)
      case Some(parent) =>
        (match PathOf(s.plan, parent)
         case None => s
         case Some(path) => Attach(s, path, row))
      case None =>
        if 2 <= row.level <= |s.open| + 1 && Walk(s.plan, s.open[row.level - 2]).Some?
        then Attach(s, s.open[row.level - 2], row)
        else s
  }

  /** The rows read in order from `s`. */
  function ImportFrom(s: ImportState, rows: seq<ExportRow>): ImportState
    decreases |rows|
  {
    if rows == [] then s else ImportFrom(ImportRow(s, rows[0]), rows[1..])
  }

  /** The plan read from a table. */
  function Import(rows: seq<ExportRow>): Entries
  {
    ImportFrom(StartImport, rows).plan
  }

  /** What one row does: a level-1 row is always found among the classes
    * afterwards; a dotted row goes under the account its parent code
    * leads to, and is skipped when that code is not yet in the plan; an
    * undotted sub-account row goes under the last account read at the
    * level above when that one is still in the plan, and is skipped
    * otherwise. */
  lemma ImportRowRules(s: ImportState, row: ExportRow)
    ensures row.level == 1 ==> Find(ImportRow(s, row).plan, row.code) == Some(Leaf(row.name))
    ensures ParentCode(row.code).Some? <==> '.' in row.code
    ensures row.level != 1 && ParentCode(row.code).Some? ==>
              ImportRow(s, row).plan
              == match PathOf(s.plan, ParentCode(row.code).value)
                 case None => s.plan
                 case Some(path) => UpdateAt(s.plan, path, SetChild(row.code, row.name))
    ensures row.level != 1 && '.' !in row.code ==>
              ImportRow(s, row).plan
              == if 2 <= row.level <= |s.open| + 1 && Walk(s.plan, s.open[row.level - 2]).Some?
                 then UpdateAt(s.plan, s.open[row.level - 2], SetChild(row.code, row.name))
                 else s.plan
  {
    ParentCodeIff(row.code);
    if row.level == 1 {
      SetFind(s.plan, row.code, Leaf(row.name));
    }
  }

  /** Reading one more row after the others. */
  lemma {:induction false} ImportFromSnoc(s: ImportState, rows: seq<ExportRow>, row: ExportRow)
    ensures ImportFrom(s, rows + [row]) == ImportRow(ImportFrom(s, rows), row)
    decreases |rows|
  {
    if rows == [] {
      assert rows + [row] == [row];
    } else {
      assert (rows + [row])[1..] == rows[1..] + [row];
      ImportFromSnoc(ImportRow(s, rows[0]), rows[1..], row);
    }
  }

  /** The plan after one row agrees with the source's loop on a level-1
    * row and on a row whose code has a '.'. */
  lemma RowAgreesAsWritten(s: ImportState, row: ExportRow)
    requires row.level == 1 || '.' in row.code
    ensures ImportRow(s, row).plan == ImportRowAsWritten(s.plan, row)
  {
    ParentCodeIff(row.code);
  }

  /** The corrected import differs from the source's loop only on
    * sub-account rows whose code has no '.': on a table without them both
    * build the same plan. */
  lemma {:induction false} ImportAgreesAsWritten(rows: seq<ExportRow>)
    requires forall i :: 0 <= i < |rows| ==> rows[i].level == 1 || '.' in rows[i].code
    ensures Import(rows) == ImportAllAsWritten(rows)
    decreases |rows|
  {
    if rows != [] {
      var init := rows[..|rows| - 1];
      assert init + [rows[|rows| - 1]] == rows;
      ImportAgreesAsWritten(init);
      ImportFromSnoc(StartImport, init, rows[|rows| - 1]);
      RowAgreesAsWritten(ImportFrom(StartImport, init), rows[|rows| - 1]);
    }
  }

  lemma ParentOfDotted()
    ensures ParentCode("1.1") == Some("1")
  {
    SplitNone("1", '.');
    SplitAt("1", '.', "1");
    assert "1" + ['.'] + "1" == "1.1";
  }

  /** A dotted code goes under its parent code, not under the class read
    * last: 1.1 after classes 1 and 2 lands under class 1, as in the
    * source. */
  lemma ImportFollowsParentCode()
    ensures Import([ExportRow("1", "Um", 1), ExportRow("2", "Dois", 1), ExportRow("1.1", "Um.Um", 2)])
            == Entry("1", Account("Um", Entry("1.1", Leaf("Um.Um"), Empty)), Entry("2", Leaf("Dois"), Empty))
  {
    ParentOfDotted();
    var rows := [ExportRow("1", "Um", 1), ExportRow("2", "Dois", 1), ExportRow("1.1", "Um.Um", 2)];
    var s1 := ImportRow(StartImport, rows[0]);
    var s2 := ImportRow(s1, rows[1]);
    assert s2.plan == Entry("1", Leaf("Um"), Entry("2", Leaf("Dois"), Empty));
    assert PathOf(s2.plan, "1") == Some(["1"]);
    assert rows[1..][1..][1..] == [];
  }

  /** A row with no place is skipped and the rows after it are still read:
    * a level-3 row right after a class is dropped, and the next class is
    * kept. */
  lemma ImportSkipsStrayRow()
    ensures Import([ExportRow("1", "Um", 1), ExportRow("9", "Nove", 3), ExportRow("2", "Dois", 1)])
            == Entry("1", Leaf("Um"), Entry("2", Leaf("Dois"), Empty))
  {
    SplitNone("9", '.');
    var rows := [ExportRow("1", "Um", 1), ExportRow("9", "Nove", 3), ExportRow("2", "Dois", 1)];
    var s1 := ImportRow(StartImport, rows[0]);
    assert s1 == ImportState(Entry("1", Leaf("Um"), Empty), [["1"]]);
    assert ImportRow(s1, rows[1]) == s1;
    assert rows[1..][1..][1..] == [];
  }

  // The round trip

  /** No code occurs twice anywhere in the tree. */
  ghost predicate CodesUnique(subs: Entries)
  {
    AtMostOnce(Codes(subs))
  }

  ghost predicate AtMostOnce(m: multiset<string>)
  {
    forall k :: m[k] <= 1
  }

  /** Every sub-account whose code has a '.' sits under the account whose
    * code is its own without the last '.'-part (`parent` is the code of
    * the account holding `subs`, None for the classes). */
  predicate DotsAgree(subs: Entries, parent: Option<string>)
  {
    subs.Entry? ==>
      (parent.Some? && ParentCode(subs.code).Some? ==> ParentCode(subs.code) == parent)
      && DotsAgree(subs.account.children, Some(subs.code)) && DotsAgree(subs.rest, parent)
  }

  /** The account's sub-accounts replaced by `kids`. */
  function SetChildren(kids: Entries): Account -> Account
  {
    (p: Account) => p.(children := kids)
  }

  /** The open paths after reading the export of `subs` at `level`, below
    * the account at `path`. */
  function OpenAfter(open: seq<seq<string>>, path: seq<string>, subs: Entries, level: int): seq<seq<string>>
    decreases subs
  {
    if subs.Empty? then open
    else
      var here := path + [subs.code];
      OpenAfter(OpenAfter(Above(open, level - 1) + [here], here, subs.account.children, level + 1), path, subs.rest, level)
  }

  /** Reading deeper rows leaves the paths of the levels above alone. */
  lemma {:induction false} OpenAfterKeeps(open: seq<seq<string>>, path: seq<string>, subs: Entries, level: int)
    requires level >= 1 && |open| >= level - 1
    ensures var r := OpenAfter(open, path, subs, level);
            |r| >= level - 1 && r[..level - 1] == open[..level - 1]
    decreases subs
  {
    if subs.Entry? {
      var here := path + [subs.code];
      var o1 := Above(open, level - 1) + [here];
      assert o1[..level - 1] == open[..level - 1];
      OpenAfterKeeps(o1, here, subs.account.children, level + 1);
      var o2 := OpenAfter(o1, here, subs.account.children, level + 1);
      assert o2[..level - 1] == o2[..level][..level - 1];
      OpenAfterKeeps(o2, path, subs.rest, level);
    }
  }

  lemma ImportFromCons(s: ImportState, rows: seq<ExportRow>)
    requires rows != []
    ensures ImportFrom(s, rows) == ImportFrom(ImportRow(s, rows[0]), rows[1..])
  {
  }

  lemma OpenAfterCons(open: seq<seq<string>>, path: seq<string>, subs: Entries, level: int)
    requires subs.Entry?
    ensures OpenAfter(open, path, subs, level)
            == OpenAfter(OpenAfter(Above(open, level - 1) + [path + [subs.code]], path + [subs.code], subs.account.children, level + 1),
                         path, subs.rest, level)
  {
  }

  lemma DotsAgreeCons(subs: Entries, parent: Option<string>)
    requires subs.Entry? && DotsAgree(subs, parent)
    ensures parent.Some? && ParentCode(subs.code).Some? ==> ParentCode(subs.code) == parent
    ensures DotsAgree(subs.account.children, Some(subs.code)) && DotsAgree(subs.rest, parent)
  {
  }

  /** The code sits in the tree, below a class when the path is longer
    * than one. */
  lemma {:induction false} WalkOccurs(subs: Entries, path: seq<string>)
    requires Walk(subs, path).Some?
    ensures path != [] && Occurs(subs, path[|path| - 1])
    ensures |path| >= 2 ==> OccursBelow(subs, path[|path| - 1])
    decreases |path|, subs
  {
    hide Walk, Find, Keys;
    WalkCons(subs, path);
    if subs.code == path[0] {
      if |path| > 1 {
        WalkOccurs(subs.account.children, path[1..]);
        assert path[1..][|path[1..]| - 1] == path[|path| - 1];
      }
    } else {
      WalkOccurs(subs.rest, path);
    }
  }

  lemma {:induction false} OccursCodes(subs: Entries, code: string)
    ensures Occurs(subs, code) <==> code in Codes(subs)
  {
    if subs.Entry? {
      OccursCodes(subs.account.children, code);
      OccursCodes(subs.rest, code);
    }
  }

  /** A class whose code also occurs below some class is counted twice. */
  lemma {:induction false} KeyAndBelow(classes: Entries, code: string)
    requires code in Keys(classes) && OccursBelow(classes, code)
    ensures Codes(classes)[code] >= 2
  {
    OccursCodes(classes.account.children, code);
    if classes.code == code {
      if !Occurs(classes.account.children, code) {
        OccursSplit(classes.rest, code);
        OccursCodes(classes.rest, code);
      }
    } else {
      OccursSplit(classes.rest, code);
      OccursCodes(classes.rest, code);
      if !Occurs(classes.account.children, code) {
        KeyAndBelow(classes.rest, code);
      }
    }
  }

  /** With the code sought occurring once, the search returns the path that
    * leads to it. */
  lemma {:induction false} SearchUnique(parent: string, subs: Entries, path: seq<string>)
    requires Walk(subs, path).Some? && path != [] && Codes(subs)[path[|path| - 1]] <= 1
    ensures Search(parent, subs, path[|path| - 1]) == Some([parent] + path)
    decreases subs, 1
  {
    hide Walk, Find, Keys, Codes, Occurs, OccursBelow;
    var k := path[|path| - 1];
    WalkCons(subs, path);
    CodesCons(subs.code, subs.account, subs.rest);
    if subs.code == path[0] {
      if |path| > 1 {
        var q := path[1..];
        assert q[|q| - 1] == k;
        WalkOccurs(subs.account.children, q);
        OccursCodes(subs.account.children, k);
        SearchUnique(subs.code, subs.account.children, q);
        assert [subs.code] + q == path;
      } else {
        assert path == [k];
        assert [parent] + path == [parent, k];
      }
    } else {
      SearchUniqueSkip(parent, subs, path);
    }
  }

  /** The code sought lies past the first entry: the first entry's subtree
    * does not hold it, and the search goes on with the rest. */
  lemma {:induction false} SearchUniqueSkip(parent: string, subs: Entries, path: seq<string>)
    requires subs.Entry? && path != [] && subs.code != path[0]
    requires Walk(subs.rest, path).Some? && Codes(subs)[path[|path| - 1]] <= 1
    ensures Search(parent, subs, path[|path| - 1]) == Some([parent] + path)
    decreases subs, 0
  {
    hide Walk, Find, Keys, Codes, Occurs, OccursBelow, Search;
    var k := path[|path| - 1];
    CodesCons(subs.code, subs.account, subs.rest);
    WalkOccurs(subs.rest, path);
    OccursCodes(subs.rest, k);
    assert Codes(subs.rest)[k] >= 1;
    assert subs.code != k && Codes(subs.account.children)[k] == 0;
    OccursCodes(subs.account.children, k);
    SearchComplete(subs.code, subs.account.children, k);
    SearchUnique(parent, subs.rest, path);
    SearchSkips(parent, subs, k);
  }

  /** One step of the search past an entry that neither is nor holds the
    * code sought. */
  lemma SearchSkips(parent: string, subs: Entries, target: string)
    requires subs.Entry? && subs.code != target && Search(subs.code, subs.account.children, target).None?
    ensures Search(parent, subs, target) == Search(parent, subs.rest, target)
  {
  }

  lemma {:induction false} SearchClassesUnique(classes: Entries, path: seq<string>)
    requires Walk(classes, path).Some? && |path| >= 2 && Codes(classes)[path[|path| - 1]] <= 1
    ensures SearchClasses(classes, path[|path| - 1]) == Some(path)
    decreases classes
  {
    hide Walk, Find, Keys, Search;
    var k := path[|path| - 1];
    WalkCons(classes, path);
    CodesCons(classes.code, classes.account, classes.rest);
    if classes.code == path[0] {
      var q := path[1..];
      assert q[|q| - 1] == k;
      SearchUnique(classes.code, classes.account.children, q);
      assert [classes.code] + q == path;
    } else {
      WalkOccurs(classes.rest, path);
      OccursCodes(classes.rest, k);
      OccursCodes(classes.account.children, k);
      SearchComplete(classes.code, classes.account.children, k);
      SearchClassesUnique(classes.rest, path);
    }
  }

  /** A code that occurs once: the path found for it is the one leading to
    * it. */
  lemma PathOfUnique(chart: Entries, path: seq<string>)
    requires Walk(chart, path).Some? && path != [] && Codes(chart)[path[|path| - 1]] <= 1
    ensures PathOf(chart, path[|path| - 1]) == Some(path)
  {
    var k := path[|path| - 1];
    WalkOccurs(chart, path);
    if |path| == 1 {
      WalkOne(chart, k);
      assert path == [k];
    } else {
      if k in Keys(chart) {
        KeyAndBelow(chart, k);
      }
      SearchClassesUnique(chart, path);
    }
  }

  /** An update that leaves the account as it is changes nothing. */
  lemma {:induction false} UpdateAtSame(subs: Entries, path: seq<string>, g: Account -> Account)
    requires Walk(subs, path).Some? && g(Walk(subs, path).value) == Walk(subs, path).value
    ensures UpdateAt(subs, path, g) == subs
    decreases |path|, subs
  {
    hide Walk, Find, Keys, UpdateAt;
    WalkCons(subs, path);
    UpdateAtCons(subs, path, g);
    if subs.code == path[0] {
      if |path| > 1 {
        UpdateAtSame(subs.account.children, path[1..], g);
      }
    } else {
      UpdateAtSame(subs.rest, path, g);
    }
  }

  /** An update one level below `path`, seen from `path`. */
  lemma {:induction false} WalkAbove(subs: Entries, path: seq<string>, code: string, g: Account -> Account)
    requires Walk(subs, path).Some?
    ensures var a := Walk(subs, path).value;
            Walk(UpdateAt(subs, path + [code], g), path) == Some(a.(children := UpdateAt(a.children, [code], g)))
    decreases |path|, subs
  {
    hide Walk, Find, Keys, UpdateAt;
    WalkCons(subs, path);
    UpdateAtCons(subs, path + [code], g);
    var after := UpdateAt(subs, path + [code], g);
    WalkStep(after, path);
    assert (path + [code])[0] == path[0];
    if subs.code == path[0] {
      if |path| > 1 {
        assert (path + [code])[1..] == path[1..] + [code];
        WalkAbove(subs.account.children, path[1..], code, g);
      } else {
        assert (path + [code])[1..] == [code];
      }
    } else {
      WalkAbove(subs.rest, path, code, g);
    }
  }

  /** Replacing the sub-accounts at `path` makes an earlier update one
    * level below it void. */
  lemma {:induction false} OverwriteBelow(subs: Entries, path: seq<string>, code: string, g: Account -> Account, kids: Entries)
    requires Walk(subs, path).Some?
    ensures UpdateAt(UpdateAt(subs, path + [code], g), path, SetChildren(kids)) == UpdateAt(subs, path, SetChildren(kids))
    decreases |path|, subs
  {
    hide Walk, Find, Keys, UpdateAt;
    WalkCons(subs, path);
    UpdateAtCons(subs, path + [code], g);
    UpdateAtCons(subs, path, SetChildren(kids));
    var after := UpdateAt(subs, path + [code], g);
    UpdateAtCons(after, path, SetChildren(kids));
    assert (path + [code])[0] == path[0];
    if subs.code == path[0] {
      if |path| > 1 {
        assert (path + [code])[1..] == path[1..] + [code];
        OverwriteBelow(subs.account.children, path[1..], code, g, kids);
      }
    } else {
      OverwriteBelow(subs.rest, path, code, g, kids);
    }
  }

  /** Replacing the sub-accounts at `path` makes an earlier update there
    * void when that update kept the name. */
  lemma {:induction false} OverwriteSame(subs: Entries, path: seq<string>, g: Account -> Account, kids: Entries)
    requires Walk(subs, path).Some? && g(Walk(subs, path).value).name == Walk(subs, path).value.name
    ensures UpdateAt(UpdateAt(subs, path, g), path, SetChildren(kids)) == UpdateAt(subs, path, SetChildren(kids))
    decreases |path|, subs
  {
    hide Walk, Find, Keys, UpdateAt;
    WalkCons(subs, path);
    UpdateAtCons(subs, path, g);
    UpdateAtCons(subs, path, SetChildren(kids));
    var after := UpdateAt(subs, path, g);
    UpdateAtCons(after, path, SetChildren(kids));
    if subs.code == path[0] {
      if |path| > 1 {
        OverwriteSame(subs.account.children, path[1..], g, kids);
      }
    } else {
      OverwriteSame(subs.rest, path, g, kids);
    }
  }

  /** Updating the entry just appended. */
  lemma {:induction false} UpdateAppended(subs: Entries, code: string, a: Account, g: Account -> Account)
    requires code !in Keys(subs)
    ensures UpdateAt(Append(subs, code, a), [code], g) == Append(subs, code, g(a))
  {
    if subs.Entry? {
      UpdateAppended(subs.rest, code, a, g);
    }
  }

  /** The step of a sub-account row in an export: whether by its parent
    * code or by its level, it goes under the account at `path`. */
  lemma StepAttach(s: ImportState, path: seq<string>, row: ExportRow)
    requires row.level >= 2 && |s.open| >= row.level - 1 && s.open[row.level - 2] == path
    requires Walk(s.plan, path).Some? && AtMostOnce(Codes(s.plan))
    requires ParentCode(row.code).Some? ==> ParentCode(row.code) == Some(path[|path| - 1])
    ensures ImportRow(s, row) == Attach(s, path, row)
  {
    WalkOccurs(s.plan, path);
    if ParentCode(row.code).Some? {
      PathOfUnique(s.plan, path);
    }
  }

  /** Reading the export of the sub-accounts `subs` of the account at
    * `path`, followed by rows of higher levels, appends them to that
    * account's sub-accounts and leaves the rows that follow. `all` bounds
    * the codes of the plan and of `subs` together, each at most once. */
  lemma {:induction false} ImportSubs(s: ImportState, path: seq<string>, subs: Entries, level: int,
                                      tail: seq<ExportRow>, all: multiset<string>)
    requires level >= 2 && |s.open| >= level - 1 && s.open[level - 2] == path && Walk(s.plan, path).Some?
    requires WellFormed(subs) && DotsAgree(subs, Some(path[|path| - 1]))
    requires forall k :: k in Keys(subs) ==> k !in Keys(Walk(s.plan, path).value.children)
    requires Codes(s.plan) + Codes(subs) <= all && AtMostOnce(all)
    requires tail == [] || tail[0].level < level
    ensures ImportFrom(s, ExportSubs(subs, level) + tail)
            == ImportFrom(ImportState(UpdateAt(s.plan, path, SetChildren(Concat(Walk(s.plan, path).value.children, subs))),
                                      OpenAfter(s.open, path, subs, level)), tail)
    decreases subs, 2
  {
    if subs.Empty? {
      var a := Walk(s.plan, path).value;
      assert ExportSubs(subs, level) + tail == tail;
      ConcatEmpty(a.children);
      UpdateAtSame(s.plan, path, SetChildren(a.children));
    } else {
      ImportEntry(s, path, subs, level, tail, all);
    }
  }

  /** A row placed under the account at `path`: it is that account's last
    * sub-account, a new one, and the only code added. */
  lemma AttachEffect(s: ImportState, path: seq<string>, row: ExportRow)
    requires row.level >= 2 && |s.open| >= row.level - 1 && Walk(s.plan, path).Some?
    requires row.code !in Keys(Walk(s.plan, path).value.children)
    ensures var s1 := Attach(s, path, row);
            var node := Walk(s.plan, path).value;
            Walk(s1.plan, path) == Some(Account(node.name, Append(node.children, row.code, Leaf(row.name))))
            && Walk(s1.plan, path + [row.code]) == Some(Leaf(row.name))
            && Codes(s1.plan) == Codes(s.plan) + multiset{row.code}
            && |s1.open| == row.level && s1.open[..row.level - 1] == s.open[..row.level - 1]
            && s1.open[row.level - 1] == path + [row.code]
  {
    hide Walk, Find, Keys, Codes, UpdateAt, Append, Set;
    var c, name := row.code, row.name;
    var node := Walk(s.plan, path).value;
    var acc := node.children;
    var s1 := Attach(s, path, row);
    WalkOccurs(s.plan, path);
    SetAppend(acc, c, Leaf(name));
    AppendEffect(acc, c, Leaf(name));
    LeafEmpty(name);
    assert SetChild(c, name)(node) == Account(node.name, Append(acc, c, Leaf(name)));
    UpdateAtWalk(s.plan, path, SetChild(c, name));
    UpdateAtCodes(s.plan, path, SetChild(c, name));
    MultisetCancel(Codes(s1.plan), Codes(s.plan) + multiset{c}, Codes(acc));
    WalkSnoc(s1.plan, path, c);
    var above := Above(s.open, row.level - 1);
    assert |above| == row.level - 1 && above == s.open[..row.level - 1];
    assert (above + [path + [c]])[..row.level - 1] == above;
  }

  /** The sub-accounts of the row just placed, read in: that row now holds
    * them, and their codes are added. */
  lemma KidsEffect(t: Entries, path: seq<string>, acc: Entries, name: string, a: Account, code: string)
    requires Walk(t, path) == Some(Account(name, Append(acc, code, Leaf(a.name))))
    requires code !in Keys(acc)
    ensures var t2 := UpdateAt(t, path + [code], SetChildren(a.children));
            Walk(t2, path) == Some(Account(name, Append(acc, code, a)))
            && Codes(t2) == Codes(t) + Codes(a.children)
  {
    hide Walk, Find, Keys, Codes, UpdateAt, Append;
    var t2 := UpdateAt(t, path + [code], SetChildren(a.children));
    WalkOccurs(t, path);
    WalkAbove(t, path, code, SetChildren(a.children));
    UpdateAppended(acc, code, Leaf(a.name), SetChildren(a.children));
    assert SetChildren(a.children)(Leaf(a.name)) == a;
    AppendEffect(acc, code, Leaf(a.name));
    WalkSnoc(t, path, code);
    LeafEmpty(a.name);
    UpdateAtCodes(t, path + [code], SetChildren(a.children));
    assert Codes(t2) + multiset{} == Codes(t) + Codes(a.children);
  }

  /** The first entry's row, then its sub-accounts: the state from which
    * its siblings are read. */
  lemma ImportHead(s: ImportState, path: seq<string>, subs: Entries, level: int,
                   tail: seq<ExportRow>, all: multiset<string>)
    requires subs.Entry?
    requires level >= 2 && |s.open| >= level - 1 && s.open[level - 2] == path && Walk(s.plan, path).Some?
    requires WellFormed(subs) && DotsAgree(subs, Some(path[|path| - 1]))
    requires forall k :: k in Keys(subs) ==> k !in Keys(Walk(s.plan, path).value.children)
    requires Codes(s.plan) + Codes(subs) <= all && AtMostOnce(all)
    requires tail == [] || tail[0].level < level
    ensures var c, a := subs.code, subs.account;
            var node := Walk(s.plan, path).value;
            var row := ExportRow(c, a.name, level);
            var s2 := ImportState(UpdateAt(Attach(s, path, row).plan, path + [c], SetChildren(a.children)),
                                  OpenAfter(Attach(s, path, row).open, path + [c], a.children, level + 1));
            ImportFrom(s, ExportSubs(subs, level) + tail) == ImportFrom(s2, ExportSubs(subs.rest, level) + tail)
            && Walk(s2.plan, path) == Some(Account(node.name, Append(node.children, c, a)))
            && Codes(s2.plan) == Codes(s.plan) + multiset{c} + Codes(a.children)
            && |s2.open| >= level - 1 && s2.open[level - 2] == path
    decreases subs, 0
  {
    hide Walk, Find, Keys, Codes, UpdateAt, ExportSubs, ImportFrom, ImportRow, OpenAfter, Concat, Append, Set,
         WellFormed, DotsAgree, PathOf, ParentCode, Attach;
    var c, a, r := subs.code, subs.account, subs.rest;
    WalkOccurs(s.plan, path);
    var node := Walk(s.plan, path).value;
    var row := ExportRow(c, a.name, level);
    var here := path + [c];
    var after := ExportSubs(r, level);
    ExportCons(subs, level);
    var rows := ExportSubs(subs, level) + tail;
    assert rows[0] == row;
    assert rows[1..] == ExportSubs(a.children, level + 1) + (after + tail);
    ImportFromCons(s, rows);
    WellFormedCons(subs);
    DotsAgreeCons(subs, Some(path[|path| - 1]));
    CodesCons(c, a, r);
    assert AtMostOnce(Codes(s.plan)) by {
      assert Codes(s.plan) <= all;
    }
    StepAttach(s, path, row);
    var s1 := Attach(s, path, row);
    AttachEffect(s, path, row);
    ExportLevels(r, level);
    KeysEmpty();
    assert here[|here| - 1] == c;
    assert Codes(s1.plan) + Codes(a.children) <= all;
    ImportSubs(s1, here, a.children, level + 1, after + tail, all);
    ConcatEmptyLeft(a.children);
    KidsEffect(s1.plan, path, node.children, node.name, a, c);
    OpenAfterKeeps(s1.open, here, a.children, level + 1);
    var o2 := OpenAfter(s1.open, here, a.children, level + 1);
    assert o2[level - 2] == o2[..level][level - 2] == s1.open[level - 2];
    assert s1.open[level - 2] == s1.open[..level - 1][level - 2] == s.open[..level - 1][level - 2];
  }

  lemma {:induction false} ImportEntry(s: ImportState, path: seq<string>, subs: Entries, level: int,
                                       tail: seq<ExportRow>, all: multiset<string>)
    requires subs.Entry?
    requires level >= 2 && |s.open| >= level - 1 && s.open[level - 2] == path && Walk(s.plan, path).Some?
    requires WellFormed(subs) && DotsAgree(subs, Some(path[|path| - 1]))
    requires forall k :: k in Keys(subs) ==> k !in Keys(Walk(s.plan, path).value.children)
    requires Codes(s.plan) + Codes(subs) <= all && AtMostOnce(all)
    requires tail == [] || tail[0].level < level
    ensures ImportFrom(s, ExportSubs(subs, level) + tail)
            == ImportFrom(ImportState(UpdateAt(s.plan, path, SetChildren(Concat(Walk(s.plan, path).value.children, subs))),
                                      OpenAfter(s.open, path, subs, level)), tail)
    decreases subs, 1
  {
    hide Walk, Find, Keys, Codes, UpdateAt, ExportSubs, ImportFrom, ImportRow, OpenAfter, Concat, Append, Set,
         WellFormed, DotsAgree, PathOf, ParentCode;
    var c, a, r := subs.code, subs.account, subs.rest;
    WalkOccurs(s.plan, path);
    var node := Walk(s.plan, path).value;
    var acc := node.children;
    var row := ExportRow(c, a.name, level);
    var s1 := Attach(s, path, row);
    var s2 := ImportState(UpdateAt(s1.plan, path + [c], SetChildren(a.children)),
                          OpenAfter(s1.open, path + [c], a.children, level + 1));
    ImportHead(s, path, subs, level, tail, all);
    WellFormedCons(subs);
    DotsAgreeCons(subs, Some(path[|path| - 1]));
    CodesCons(c, a, r);
    AppendEffect(acc, c, a);
    assert Codes(s2.plan) + Codes(r) <= all;
    ImportSubs(s2, path, r, level, tail, all);
    WellFormedCons(subs);
    AttachEffect(s, path, row);
    ConcatAppend(acc, c, a, r);
    assert Entry(c, a, r) == subs;
    var whole := Concat(acc, subs);
    OverwriteBelow(s1.plan, path, c, SetChildren(a.children), whole);
    OverwriteSame(s.plan, path, SetChild(c, a.name), whole);
    OpenAfterCons(s.open, path, subs, level);
  }
  /** Reading the export of the classes `classes` appends them to the plan.
    * `all` bounds the codes of the plan and of `classes` together, each at
    * most once. */
  lemma {:induction false} ImportClasses(s: ImportState, classes: Entries, all: multiset<string>)
    requires WellFormed(classes) && DotsAgree(classes, None)
    requires forall k :: k in Keys(classes) ==> k !in Keys(s.plan)
    requires Codes(s.plan) + Codes(classes) <= all && AtMostOnce(all)
    ensures ImportFrom(s, ExportSubs(classes, 1)) == ImportState(Concat(s.plan, classes), OpenAfter(s.open, [], classes, 1))
    decreases classes
  {
    hide Walk, Find, Keys, Codes, UpdateAt, ExportSubs, ImportFrom, OpenAfter, Concat, Append, Set,
         WellFormed, DotsAgree, PathOf, ParentCode, ImportRow, Above;
    if classes.Empty? {
      ConcatEmpty(s.plan);
      ImportNothing(s, classes);
    } else {
      var c, a, r := classes.code, classes.account, classes.rest;
      ClassHead(s, classes, all);
      var s2 := ImportState(Append(s.plan, c, a), OpenAfter([[c]], [c], a.children, 2));
      WellFormedCons(classes);
      DotsAgreeCons(classes, None);
      CodesCons(c, a, r);
      AppendEffect(s.plan, c, a);
      assert forall k :: k in Keys(r) ==> k !in Keys(s2.plan);
      assert Codes(s2.plan) + Codes(r) <= all;
      ImportClasses(s2, r, all);
      ConcatAppend(s.plan, c, a, r);
      assert Entry(c, a, r) == classes;
      OpenAfterCons(s.open, [], classes, 1);
      var nil: seq<string> := [];
      assert nil + [c] == [c];
      assert Above(s.open, 0) + [nil + [c]] == [[c]];
      assert OpenAfter(s.open, [], classes, 1) == OpenAfter(s2.open, [], r, 1);
      assert Concat(s.plan, classes) == Concat(s2.plan, r);
    }
  }

  lemma ImportNothing(s: ImportState, subs: Entries)
    requires subs.Empty?
    ensures ImportFrom(s, ExportSubs(subs, 1)) == s && OpenAfter(s.open, [], subs, 1) == s.open
  {
  }

  /** The first class's row, then its sub-accounts: the class is appended
    * with them, and its siblings are read next. */
  lemma ClassHead(s: ImportState, classes: Entries, all: multiset<string>)
    requires classes.Entry? && WellFormed(classes) && DotsAgree(classes, None)
    requires forall k :: k in Keys(classes) ==> k !in Keys(s.plan)
    requires Codes(s.plan) + Codes(classes) <= all && AtMostOnce(all)
    ensures var c, a := classes.code, classes.account;
            ImportFrom(s, ExportSubs(classes, 1))
            == ImportFrom(ImportState(Append(s.plan, c, a), OpenAfter([[c]], [c], a.children, 2)), ExportSubs(classes.rest, 1))
  {
    hide Walk, Find, Keys, Codes, UpdateAt, ExportSubs, ImportFrom, OpenAfter, Concat, Append, Set,
         WellFormed, DotsAgree, PathOf, ParentCode;
    var c, a, r := classes.code, classes.account, classes.rest;
    var row := ExportRow(c, a.name, 1);
    var after := ExportSubs(r, 1);
    ExportCons(classes, 1);
    var rows := ExportSubs(classes, 1);
    assert rows[0] == row;
    assert rows[1..] == ExportSubs(a.children, 2) + after;
    ImportFromCons(s, rows);
    WellFormedCons(classes);
    DotsAgreeCons(classes, None);
    CodesCons(c, a, r);
    assert c !in Keys(s.plan);
    SetAppend(s.plan, c, Leaf(a.name));
    AppendEffect(s.plan, c, Leaf(a.name));
    LeafEmpty(a.name);
    var s1 := ImportState(Append(s.plan, c, Leaf(a.name)), [[c]]);
    assert ImportRow(s, row) == s1;
    WalkOne(s1.plan, c);
    KeysEmpty();
    ExportLevels(r, 1);
    assert [c][|[c]| - 1] == c;
    ImportSubs(s1, [c], a.children, 2, after, all);
    ConcatEmptyLeft(a.children);
    UpdateAppended(s.plan, c, Leaf(a.name), SetChildren(a.children));
    assert SetChildren(a.children)(Leaf(a.name)) == a;
  }

  /** The entries of `acc` followed by those of `subs`. */
  function Concat(acc: Entries, subs: Entries): Entries
  {
    if acc.Empty? then subs else Entry(acc.code, acc.account, Concat(acc.rest, subs))
  }

  lemma {:induction false} ConcatAppend(acc: Entries, code: string, a: Account, subs: Entries)
    ensures Concat(Append(acc, code, a), subs) == Concat(acc, Entry(code, a, subs))
  {
    if acc.Entry? {
      ConcatAppend(acc.rest, code, a, subs);
    }
  }

  lemma {:induction false} ConcatEmpty(acc: Entries)
    ensures Concat(acc, Empty) == acc
  {
    if acc.Entry? {
      ConcatEmpty(acc.rest);
    }
  }

  /** Storing a key not yet present appends it. */
  lemma {:induction false} SetAppend(subs: Entries, code: string, a: Account)
    requires code !in Keys(subs)
    ensures Set(subs, code, a) == Append(subs, code, a)
  {
    if subs.Entry? {
      SetAppend(subs.rest, code, a);
    }
  }

  lemma ExportCons(subs: Entries, level: int)
    requires subs.Entry?
    ensures ExportSubs(subs, level)
            == [ExportRow(subs.code, subs.account.name, level)]
               + ExportSubs(subs.account.children, level + 1) + ExportSubs(subs.rest, level)
  {
  }

  lemma KeysEmpty()
    ensures Keys(Empty) == []
  {
  }

  lemma ConcatEmptyLeft(subs: Entries)
    ensures Concat(Empty, subs) == subs
  {
  }

  lemma WellFormedCons(subs: Entries)
    requires WellFormed(subs) && subs.Entry?
    ensures WellFormed(subs.account.children) && WellFormed(subs.rest)
    ensures Keys(subs) == [subs.code] + Keys(subs.rest) && subs.code !in Keys(subs.rest)
  {
  }

  /** Importing the export of a well-formed chart gives the chart back, in
    * the same order, when each code occurs once and each dotted
    * sub-account code names its parent. */
  lemma ExportImportRoundTrip(chart: Entries)
    requires WellFormed(chart) && CodesUnique(chart) && DotsAgree(chart, None)
    ensures Import(Export(chart)) == chart
  {
    KeysEmpty();
    ImportClasses(StartImport, chart, Codes(chart));
    ConcatEmptyLeft(chart);
  }

  /** The chart shipped by default carries no '.' in its codes, so it
    * needs only the reading by level; as written its sub-accounts are
    * lost, corrected they come back. */
  lemma DefaultShapeRoundTrip()
    ensures var chart := Entry("4", Account("Meios Monetários", Entry("43", Leaf("Depósitos à Ordem"), Empty)), Empty);
            Import(Export(chart)) == chart && ImportAllAsWritten(Export(chart)) != chart
  {
    var chart := Entry("4", Account("Meios Monetários", Entry("43", Leaf("Depósitos à Ordem"), Empty)), Empty);
    ImportDropsSubaccountsAsWritten();
    SplitNone("4", '.');
    SplitNone("43", '.');
    assert Codes(chart)["4"] == 1 && Codes(chart)["43"] == 1;
    assert forall k :: Codes(chart)[k] <= 1;
    ExportImportRoundTrip(chart);
  }

  // ---------------------------------------------------------------------
  // Replacing the chart from a table (`importar_plano`, with the
  // corrected placing of rows)

  datatype ImportOutcome = ColumnsMissing | ImportNotConfirmed | Imported

  /** The columns the table must have. */
  const ImportColumns: seq<string> := ["Código", "Nome", "Nível"]

  /** Refused when a column is missing, kept when the replacement is not
    * confirmed, otherwise the chart is replaced by the one read from the
    * rows. */
  function ImportResult(chart: Entries, columns: seq<string>, confirmed: bool, rows: seq<ExportRow>): (ImportOutcome, Entries)
  {
    if exists c :: c in ImportColumns && c !in columns then (ColumnsMissing, chart)
    else if !confirmed then (ImportNotConfirmed, chart)
    else (Imported, Import(rows))
  }

  /** An import happens exactly when the three columns are there and the
    * replacement is confirmed; otherwise the chart is kept. Importing the
    * export of a well-formed chart whose codes occur once and whose dotted
    * codes name their parents gives that chart. */
  lemma ImportResultEffect(chart: Entries, columns: seq<string>, confirmed: bool, rows: seq<ExportRow>, source: Entries)
    ensures var (outcome, after) := ImportResult(chart, columns, confirmed, rows);
            (outcome == Imported <==> "Código" in columns && "Nome" in columns && "Nível" in columns && confirmed)
            && (outcome != Imported ==> after == chart)
            && (outcome == Imported ==> after == Import(rows))
            && (outcome == Imported && WellFormed(source) && CodesUnique(source) && DotsAgree(source, None) && rows == Export(source)
                ==> after == source)
  {
    if "Código" in columns && "Nome" in columns && "Nível" in columns {
      assert forall c :: c in ImportColumns ==> c in columns;
    } else {
      assert !("Código" in columns) ==> ImportColumns[0] !in columns;
      assert !("Nome" in columns) ==> ImportColumns[1] !in columns;
      assert !("Nível" in columns) ==> ImportColumns[2] !in columns;
    }
    if WellFormed(source) && CodesUnique(source) && DotsAgree(source, None) && rows == Export(source) {
      ExportImportRoundTrip(source);
    }
  }

  /** `PlanoContasAngolano`: the chart held in `contas`, edited through
    * the dialogs' answers. */
  class Chart {
    var accounts: Entries

    constructor(initial: Entries)
      ensures accounts == initial
    {
      accounts := initial;
    }

    /** `adicionar_conta` */
    method AddAccount(selected: Option<string>, code: string, name: string) returns (outcome: AddOutcome)
      modifies this
      ensures (outcome, accounts) == AddResult(old(accounts), selected, code, name)
    {
      match selected {
        case None =>
          if code == "" {
            return Cancelled;
          }
          if code in Keys(accounts) {
            return Duplicate;
          }
          if name == "" {
            return Cancelled;
          }
          accounts := Append(accounts, code, Leaf(name));
          return Added;
        case Some(parent) =>
          var path := PathOf(accounts, parent);
          if path.None? {
            return ParentNotFound;
          }
          if code == "" {
            return Cancelled;
          }
          var p := NodeAt(accounts, path.value);
          if p.None? {
            return ParentNotFound;
          }
          if code in Keys(p.value.children) {
            return Duplicate;
          }
          if name == "" {
            return Cancelled;
          }
          accounts := UpdateAt(accounts, path.value, AddChild(code, name));
          return Added;
      }
    }

    /** `excluir_conta` */
    method DeleteAccount(selected: Option<string>, confirmed: bool) returns (outcome: DeleteOutcome)
      modifies this
      ensures (outcome, accounts) == DeleteResult(old(accounts), selected, confirmed)
    {
      if selected.None? {
        return NothingSelected;
      }
      if !confirmed {
        return NotConfirmed;
      }
      var path := PathOf(accounts, selected.value);
      if path.None? {
        return NotFound;
      }
      var steps := path.value;
      if |steps| == 1 {
        accounts := Without(accounts, steps[0]);
        return Deleted;
      }
      var parent := NodeAt(accounts, steps[..|steps| - 1]);
      if parent.None? {
        return NotFound;
      }
      accounts := UpdateAt(accounts, steps[..|steps| - 1], RemoveChild(steps[|steps| - 1]));
      return Deleted;
    }

    /** `exportar_plano`: the table of the chart. */
    method ExportChart() returns (rows: seq<ExportRow>)
      ensures rows == Export(accounts)
    {
      rows := AppendExport([], accounts, 1);
    }

    /** `importar_plano`, with the corrected placing of each row. */
    method ImportPlan(columns: seq<string>, confirmed: bool, rows: seq<ExportRow>) returns (outcome: ImportOutcome)
      modifies this
      ensures (outcome, accounts) == ImportResult(old(accounts), columns, confirmed, rows)
    {
      var i := 0;
      while i < |ImportColumns|
        invariant 0 <= i <= |ImportColumns|
        invariant forall j :: 0 <= j < i ==> ImportColumns[j] in columns
      {
        if ImportColumns[i] !in columns {
          return ColumnsMissing;
        }
        i := i + 1;
      }
      if !confirmed {
        return ImportNotConfirmed;
      }
      var st := StartImport;
      for k := 0 to |rows|
        invariant ImportFrom(st, rows[k..]) == ImportFrom(StartImport, rows)
      {
        ImportFromCons(st, rows[k..]);
        assert rows[k..][1..] == rows[k + 1..];
        st := ImportRow(st, rows[k]);
      }
      assert rows[|rows|..] == [];
      accounts := st.plan;
      return Imported;
    }
  }
}
