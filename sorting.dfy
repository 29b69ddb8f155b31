// Python's `sorted(..., key=...)` / `list.sort(key=...)`: a stable sort on
// tuple keys. Keys are written as sequences of reals compared
// lexicographically, the order Python gives tuples.
module Sorting {

  predicate KeyLe(a: seq<real>, b: seq<real>)
  {
    a == [] || (b != [] && (a[0] < b[0] || (a[0] == b[0] && KeyLe(a[1..], b[1..]))))
  }

  lemma {:induction false} KeyLeTotal(a: seq<real>, b: seq<real>)
    ensures KeyLe(a, b) || KeyLe(b, a)
  {
    if a != [] && b != [] && a[0] == b[0] {
      KeyLeTotal(a[1..], b[1..]);
    }
  }

  lemma {:induction false} KeyLeTrans(a: seq<real>, b: seq<real>, c: seq<real>)
    requires KeyLe(a, b) && KeyLe(b, c)
    ensures KeyLe(a, c)
  {
    if a != [] && b != [] && c != [] && a[0] == b[0] && b[0] == c[0] {
      KeyLeTrans(a[1..], b[1..], c[1..]);
    }
  }

  predicate SortedBy<T>(s: seq<T>, key: T -> seq<real>)
  {
    forall i, j :: 0 <= i < j < |s| ==> KeyLe(key(s[i]), key(s[j]))
  }

  /** Puts `x` after every element whose key is not greater than its own. */
  function Insert<T>(x: T, s: seq<T>, key: T -> seq<real>): seq<T>
  {
    if s == [] then [x]
    else if !KeyLe(key(s[0]), key(x)) then [x] + s
    else [s[0]] + Insert(x, s[1..], key)
  }

  /** Stable insertion sort: each element goes after the equal ones before it. */
  function SortByKey<T>(s: seq<T>, key: T -> seq<real>): seq<T>
  {
    if s == [] then [] else Insert(s[|s| - 1], SortByKey(s[..|s| - 1], key), key)
  }

  lemma {:induction false} InsertPermutes<T>(x: T, s: seq<T>, key: T -> seq<real>)
    ensures multiset(Insert(x, s, key)) == multiset(s) + multiset{x}
  {
    if s != [] && KeyLe(key(s[0]), key(x)) {
      InsertPermutes(x, s[1..], key);
      assert s == [s[0]] + s[1..];
    }
  }

  lemma {:induction false} InsertSorted<T>(x: T, s: seq<T>, key: T -> seq<real>)
    requires SortedBy(s, key)
    ensures SortedBy(Insert(x, s, key), key)
  {
    if s == [] {
    } else if !KeyLe(key(s[0]), key(x)) {
      var r := [x] + s;
      KeyLeTotal(key(s[0]), key(x));
      forall i, j | 0 <= i < j < |r| ensures KeyLe(key(r[i]), key(r[j])) {
        if i == 0 {
          if j == 1 {
            KeyLeTotal(key(s[0]), key(s[0]));
          }
          KeyLeTrans(key(x), key(s[0]), key(s[j - 1]));
        }
      }
    } else {
      InsertSorted(x, s[1..], key);
      InsertPermutes(x, s[1..], key);
      var t := Insert(x, s[1..], key);
      var r := [s[0]] + t;
      forall i, j | 0 <= i < j < |r| ensures KeyLe(key(r[i]), key(r[j])) {
        if i == 0 {
          assert r[j] in multiset(t);
          assert r[j] in multiset(s[1..]) + multiset{x};
          if r[j] == x {
          } else {
            assert r[j] in s[1..];
            var k :| 0 <= k < |s[1..]| && s[1..][k] == r[j];
            assert s[k + 1] == r[j];
          }
        }
      }
    }
  }

  /** The sort returns a sorted rearrangement of its input. */
  lemma {:induction false} SortByKeySortsAndPermutes<T>(s: seq<T>, key: T -> seq<real>)
    ensures SortedBy(SortByKey(s, key), key)
    ensures multiset(SortByKey(s, key)) == multiset(s)
    ensures |SortByKey(s, key)| == |s|
  {
    if s != [] {
      var init := s[..|s| - 1];
      SortByKeySortsAndPermutes(init, key);
      InsertSorted(s[|s| - 1], SortByKey(init, key), key);
      InsertPermutes(s[|s| - 1], SortByKey(init, key), key);
      assert s == init + [s[|s| - 1]];
      assert multiset(s) == multiset(init) + multiset{s[|s| - 1]};
      assert |SortByKey(s, key)| == |multiset(SortByKey(s, key))|;
    }
  }

  /** A prefix of a sorted sequence is sorted, is part of it, and nothing
    * after the cut sorts before anything in it. */
  lemma SortedPrefix<T>(s: seq<T>, m: nat, key: T -> seq<real>)
    requires SortedBy(s, key) && m <= |s|
    ensures SortedBy(s[..m], key)
    ensures multiset(s[..m]) <= multiset(s)
    ensures forall c, k :: c in multiset(s) - multiset(s[..m]) && 0 <= k < m ==> KeyLe(key(s[..m][k]), key(c))
  {
    assert s == s[..m] + s[m..];
    assert multiset(s) == multiset(s[..m]) + multiset(s[m..]);
    forall c, k | c in multiset(s) - multiset(s[..m]) && 0 <= k < m
      ensures KeyLe(key(s[..m][k]), key(c))
    {
      assert c in multiset(s[m..]);
      var j :| 0 <= j < |s[m..]| && s[m..][j] == c;
      assert s[m + j] == c;
    }
  }

  // Stability

  predicate KeyEq(a: seq<real>, b: seq<real>)
  {
    KeyLe(a, b) && KeyLe(b, a)
  }

  /** Each element paired with its position. */
  function Tagged<T>(s: seq<T>): (r: seq<(nat, T)>)
    ensures |r| == |s|
    ensures forall i :: 0 <= i < |s| ==> r[i] == (i, s[i])
  {
    seq(|s|, i requires 0 <= i < |s| => (i, s[i]))
  }

  function Untagged<T>(r: seq<(nat, T)>): (s: seq<T>)
    ensures |s| == |r|
    ensures forall i :: 0 <= i < |r| ==> s[i] == r[i].1
  {
    seq(|r|, i requires 0 <= i < |r| => r[i].1)
  }

  /** Elements with equal keys come in increasing order of their positions. */
  predicate PositionsKept<T>(r: seq<(nat, T)>, key: T -> seq<real>)
  {
    forall i, j :: 0 <= i < j < |r| && KeyEq(key(r[i].1), key(r[j].1)) ==> r[i].0 < r[j].0
  }

  lemma UntaggedCons<T>(p: (nat, T), r: seq<(nat, T)>)
    ensures Untagged([p] + r) == [p.1] + Untagged(r)
    ensures r != [] ==> Untagged(r)[0] == r[0].1 && Untagged(r)[1..] == Untagged(r[1..])
  {
  }

  /** Sorting tagged elements by the key of their value, then dropping the
    * tags, is sorting the values. */
  lemma {:induction false} InsertUntagged<T>(x: (nat, T), s: seq<(nat, T)>, key: T -> seq<real>, tkey: ((nat, T)) -> seq<real>)
    requires forall p :: tkey(p) == key(p.1)
    ensures Untagged(Insert(x, s, tkey)) == Insert(x.1, Untagged(s), key)
  {
    hide Untagged;
    UntaggedCons(x, s);
    if s == [] {
      UntaggedCons(x, []);
    } else {
      assert tkey(s[0]) == key(s[0].1) && tkey(x) == key(x.1);
      if KeyLe(tkey(s[0]), tkey(x)) {
        InsertUntagged(x, s[1..], key, tkey);
        UntaggedCons(s[0], Insert(x, s[1..], tkey));
      }
    }
  }

  lemma {:induction false} SortUntagged<T>(r: seq<(nat, T)>, key: T -> seq<real>, tkey: ((nat, T)) -> seq<real>)
    requires forall p :: tkey(p) == key(p.1)
    ensures Untagged(SortByKey(r, tkey)) == SortByKey(Untagged(r), key)
  {
    if r != [] {
      var init := r[..|r| - 1];
      SortUntagged(init, key, tkey);
      InsertUntagged(r[|r| - 1], SortByKey(init, tkey), key, tkey);
      assert Untagged(r)[..|r| - 1] == Untagged(init);
    }
  }

  /** An element that goes in front has no equal key after it. */
  lemma NoEqualAfterFront<T>(x: (nat, T), s: seq<(nat, T)>, key: T -> seq<real>, tkey: ((nat, T)) -> seq<real>)
    requires forall p :: tkey(p) == key(p.1)
    requires SortedBy(s, tkey) && s != [] && !KeyLe(tkey(s[0]), tkey(x))
    ensures forall k :: 0 <= k < |s| ==> !KeyEq(key(x.1), key(s[k].1))
  {
    forall k | 0 <= k < |s| ensures !KeyEq(key(x.1), key(s[k].1)) {
      if k > 0 {
        assert KeyLe(tkey(s[0]), tkey(s[k]));
      } else {
        KeyLeTotal(tkey(s[0]), tkey(s[0]));
      }
      if KeyLe(tkey(s[k]), tkey(x)) {
        KeyLeTrans(tkey(s[0]), tkey(s[k]), tkey(x));
      }
    }
  }

  lemma InsertFrontKeeps<T>(x: (nat, T), s: seq<(nat, T)>, key: T -> seq<real>, tkey: ((nat, T)) -> seq<real>)
    requires forall p :: tkey(p) == key(p.1)
    requires SortedBy(s, tkey) && PositionsKept(s, key) && s != [] && !KeyLe(tkey(s[0]), tkey(x))
    ensures PositionsKept([x] + s, key)
  {
    NoEqualAfterFront(x, s, key, tkey);
    var r := [x] + s;
    forall i, j | 0 <= i < j < |r| && KeyEq(key(r[i].1), key(r[j].1)) ensures r[i].0 < r[j].0 {
      if i == 0 {
        assert false;
      } else {
        assert r[i] == s[i - 1] && r[j] == s[j - 1];
      }
    }
  }

  lemma InsertAfterKeeps<T>(x: (nat, T), s: seq<(nat, T)>, t: seq<(nat, T)>, key: T -> seq<real>)
    requires s != [] && PositionsKept(s, key) && PositionsKept(t, key)
    requires multiset(t) == multiset(s[1..]) + multiset{x}
    requires s[0].0 < x.0
    ensures PositionsKept([s[0]] + t, key)
  {
    var r := [s[0]] + t;
    forall i, j | 0 <= i < j < |r| && KeyEq(key(r[i].1), key(r[j].1)) ensures r[i].0 < r[j].0 {
      if i == 0 {
        assert r[j] in multiset(t);
        if r[j] != x {
          assert r[j] in s[1..];
          var k :| 0 <= k < |s[1..]| && s[1..][k] == r[j];
          assert s[k + 1] == r[j];
        }
      } else {
        assert r[i] == t[i - 1] && r[j] == t[j - 1];
      }
    }
  }

  /** Inserting an element whose position is after all others keeps the
    * order of positions among equal keys. */
  lemma {:induction false} InsertKeepsPositions<T>(x: (nat, T), s: seq<(nat, T)>, key: T -> seq<real>, tkey: ((nat, T)) -> seq<real>)
    requires forall p :: tkey(p) == key(p.1)
    requires SortedBy(s, tkey) && PositionsKept(s, key)
    requires forall k :: 0 <= k < |s| ==> s[k].0 < x.0
    ensures PositionsKept(Insert(x, s, tkey), key)
  {
    if s == [] {
    } else if !KeyLe(tkey(s[0]), tkey(x)) {
      InsertFrontKeeps(x, s, key, tkey);
    } else {
      assert SortedBy(s[1..], tkey) && PositionsKept(s[1..], key);
      InsertKeepsPositions(x, s[1..], key, tkey);
      InsertPermutes(x, s[1..], tkey);
      InsertAfterKeeps(x, s, Insert(x, s[1..], tkey), key);
    }
  }

  /** The elements of the sort are those of the input. */
  lemma SortedFrom<T>(r: seq<(nat, T)>, tkey: ((nat, T)) -> seq<real>, bound: nat)
    requires forall k :: 0 <= k < |r| ==> r[k].0 < bound
    ensures forall k :: 0 <= k < |SortByKey(r, tkey)| ==> SortByKey(r, tkey)[k].0 < bound
  {
    SortByKeySortsAndPermutes(r, tkey);
    forall k | 0 <= k < |SortByKey(r, tkey)| ensures SortByKey(r, tkey)[k].0 < bound {
      var x := SortByKey(r, tkey)[k];
      assert x in multiset(r);
      var m :| 0 <= m < |r| && r[m] == x;
    }
  }

  lemma {:induction false} SortKeepsPositions<T>(r: seq<(nat, T)>, key: T -> seq<real>, tkey: ((nat, T)) -> seq<real>)
    requires forall p :: tkey(p) == key(p.1)
    requires forall i, j :: 0 <= i < j < |r| ==> r[i].0 < r[j].0
    ensures PositionsKept(SortByKey(r, tkey), key)
  {
    if r != [] {
      var init, last := r[..|r| - 1], r[|r| - 1];
      SortKeepsPositions(init, key, tkey);
      SortByKeySortsAndPermutes(init, tkey);
      SortedFrom(init, tkey, last.0);
      InsertKeepsPositions(last, SortByKey(init, tkey), key, tkey);
    }
  }

  /** The sort is stable: sorting is dropping the positions after sorting
    * the elements paired with their positions, and there elements with
    * equal keys keep the order of their positions in the input. */
  lemma SortByKeyStable<T>(s: seq<T>, key: T -> seq<real>)
    ensures var tkey := (p: (nat, T)) => key(p.1);
            var r := SortByKey(Tagged(s), tkey);
            SortByKey(s, key) == Untagged(r) && PositionsKept(r, key)
  {
    var tkey := (p: (nat, T)) => key(p.1);
    SortUntagged(Tagged(s), key, tkey);
    assert Untagged(Tagged(s)) == s;
    SortKeepsPositions(Tagged(s), key, tkey);
  }
}
