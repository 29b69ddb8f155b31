// `_normalizar_texto` of conciliacao_automatica.py: the text both sides'
// descriptions are reduced to before they are scored for similarity.
module Normalization {
  import opened Text

  /** A description cell: a string, or any other value (a missing cell). */
  datatype Cell = Str(s: string) | NonText

  /** Python's `\s` (and `str.strip()`): the characters `str.isspace()` accepts. */
  predicate IsSpace(c: char)
  {
    c == ' ' || ('\t' <= c <= '\r') || ('\U{1C}' <= c <= '\U{1F}') || c == '\U{85}' || c == '\U{A0}'
    || c == '\U{1680}' || ('\U{2000}' <= c <= '\U{200A}') || c == '\U{2028}' || c == '\U{2029}'
    || c == '\U{202F}' || c == '\U{205F}' || c == '\U{3000}'
  }

  /** Python's `\w`: letters, digits and the underscore. Exact up to U+00FF
    * and in the block U+2000 to U+20FF of general punctuation, super- and
    * subscripts and currency signs (so dashes, curly quotes, the ellipsis
    * and the euro sign are not word characters); every other non-space
    * character above U+00FF counts as a word character. */
  predicate IsWordChar(c: char)
  {
    ('a' <= c <= 'z') || ('A' <= c <= 'Z') || ('0' <= c <= '9') || c == '_'
    || c == '\U{AA}' || c == '\U{B2}' || c == '\U{B3}' || c == '\U{B5}' || c == '\U{B9}' || c == '\U{BA}'
    || ('\U{BC}' <= c <= '\U{BE}')
    || ('\U{C0}' <= c <= '\U{FF}' && c != '\U{D7}' && c != '\U{F7}')
    || ('\U{2000}' <= c <= '\U{20FF}' && IsGeneralWordChar(c))
    || ((c < '\U{2000}' || c > '\U{20FF}') && c > '\U{FF}' && !IsSpace(c))
  }

  /** The word characters of U+2000 to U+20FF: the super- and subscript
    * digits and the modifier letters. The connector ties U+203F, U+2040 and
    * U+2054 are punctuation, not letters or digits, so they are not. */
  predicate IsGeneralWordChar(c: char)
  {
    c == '\U{2070}' || c == '\U{2071}'
    || ('\U{2074}' <= c <= '\U{2079}') || c == '\U{207F}' || ('\U{2080}' <= c <= '\U{2089}')
    || ('\U{2090}' <= c <= '\U{209C}')
  }

  /** Dashes, curly quotes, the euro sign and the connector ties are
    * punctuation: they become spaces. Superscript digits are kept. */
  lemma PunctuationBecomesSpace()
    ensures Depunctuate("a\U{2013}b\U{201C}c\U{201D}\U{20AC}") == "a b c  "
    ensures Depunctuate("a\U{203F}b\U{2040}c\U{2054}\U{00B2}\U{2075}") == "a b c \U{00B2}\U{2075}"
  {
  }

  /** `re.sub(r'[^\w\s]', ' ', s)` */
  function Depunctuate(s: string): (r: string)
    ensures |r| == |s|
    ensures forall i :: 0 <= i < |s| ==> r[i] == (if IsWordChar(s[i]) || IsSpace(s[i]) then s[i] else ' ')
  {
    seq(|s|, i requires 0 <= i < |s| => if IsWordChar(s[i]) || IsSpace(s[i]) then s[i] else ' ')
  }

  function DropSpaces(s: string): (r: string)
    ensures |r| <= |s| && r == s[|s| - |r|..]
    ensures r != [] ==> !IsSpace(r[0])
    ensures forall i :: 0 <= i < |s| - |r| ==> IsSpace(s[i])
  {
    if s != [] && IsSpace(s[0]) then DropSpaces(s[1..]) else s
  }

  /** `re.sub(r'\s+', ' ', s)`: each run of whitespace becomes one space. */
  function Collapse(s: string): string
    decreases |s|
  {
    if s == [] then []
    else if IsSpace(s[0]) then [' '] + Collapse(DropSpaces(s[1..]))
    else [s[0]] + Collapse(s[1..])
  }

  function StripLeft(s: string): (r: string)
    ensures |r| <= |s| && r == s[|s| - |r|..]
    ensures r != [] ==> !IsSpace(r[0])
  {
    if s != [] && IsSpace(s[0]) then StripLeft(s[1..]) else s
  }

  function StripRight(s: string): (r: string)
    ensures |r| <= |s| && r == s[..|r|]
    ensures r != [] ==> !IsSpace(r[|r| - 1])
  {
    if s != [] && IsSpace(s[|s| - 1]) then StripRight(s[..|s| - 1]) else s
  }

  /** `s.strip()` */
  function Strip(s: string): string
  {
    StripRight(StripLeft(s))
  }

  function NormalizeString(s: string): string
  {
    Strip(Collapse(Depunctuate(Lower(s))))
  }

  /** `_normalizar_texto`: "" for anything that is not a string. */
  function Normalize(cell: Cell): (r: string)
    ensures cell.NonText? ==> r == ""
  {
    match cell
    case NonText => ""
    case Str(s) => NormalizeString(s)
  }

  /** The characters a normalized text may hold: the space, or a word
    * character that lower-casing leaves alone. */
  predicate Allowed(c: char)
  {
    c == ' ' || (IsWordChar(c) && !IsSpace(c) && LowerChar(c) == c)
  }

  /** Lower-case, only word characters and single spaces, nothing at either end. */
  predicate IsNormalized(t: string)
  {
    (forall i :: 0 <= i < |t| ==> Allowed(t[i]))
    && (forall i :: 0 <= i < |t| - 1 ==> !(t[i] == ' ' && t[i + 1] == ' '))
    && (t != [] ==> t[0] != ' ' && t[|t| - 1] != ' ')
  }

  /** Characters that are whitespace or allowed, as after the first two steps. */
  predicate SpaceOrAllowed(s: string)
  {
    forall i :: 0 <= i < |s| ==> IsSpace(s[i]) || Allowed(s[i])
  }

  lemma LowerCharIdempotent(c: char)
    ensures LowerChar(LowerChar(c)) == LowerChar(c)
  {
  }

  lemma DepunctuateLower(s: string)
    ensures SpaceOrAllowed(Depunctuate(Lower(s)))
  {
    var l := Lower(s);
    forall i | 0 <= i < |l| ensures IsSpace(Depunctuate(l)[i]) || Allowed(Depunctuate(l)[i]) {
      LowerCharIdempotent(s[i]);
    }
  }

  /** After collapsing, every character is allowed, spaces come singly, and
    * the text starts with a space exactly when the input started with
    * whitespace. */
  lemma {:induction false} CollapseShape(s: string)
    requires SpaceOrAllowed(s)
    ensures var r := Collapse(s);
      && (forall i :: 0 <= i < |r| ==> Allowed(r[i]))
      && (forall i :: 0 <= i < |r| - 1 ==> !(r[i] == ' ' && r[i + 1] == ' '))
      && (r != [] <==> s != [])
      && (r != [] ==> (r[0] == ' ' <==> IsSpace(s[0])))
    decreases |s|
  {
    if s != [] {
      if IsSpace(s[0]) {
        var rest := DropSpaces(s[1..]);
        assert SpaceOrAllowed(rest) by {
          forall i | 0 <= i < |rest| ensures IsSpace(rest[i]) || Allowed(rest[i]) {
            assert rest[i] == s[1..][|s[1..]| - |rest| + i];
          }
        }
        CollapseShape(rest);
      } else {
        assert SpaceOrAllowed(s[1..]) by {
          forall i | 0 <= i < |s| - 1 ensures IsSpace(s[1..][i]) || Allowed(s[1..][i]) {
            assert s[1..][i] == s[i + 1];
          }
        }
        CollapseShape(s[1..]);
        assert s[0] != ' ';
      }
    }
  }

  lemma {:induction false} StripLeftKeeps(s: string)
    requires forall i :: 0 <= i < |s| ==> Allowed(s[i])
    requires forall i :: 0 <= i < |s| - 1 ==> !(s[i] == ' ' && s[i + 1] == ' ')
    ensures var r := StripLeft(s);
      && (forall i :: 0 <= i < |r| ==> Allowed(r[i]))
      && (forall i :: 0 <= i < |r| - 1 ==> !(r[i] == ' ' && r[i + 1] == ' '))
      && (r != [] ==> r[0] != ' ')
  {
    var r := StripLeft(s);
    var off := |s| - |r|;
    forall i | 0 <= i < |r| ensures Allowed(r[i]) { assert r[i] == s[off + i]; }
    forall i | 0 <= i < |r| - 1 ensures !(r[i] == ' ' && r[i + 1] == ' ') {
      assert r[i] == s[off + i] && r[i + 1] == s[off + i + 1];
    }
  }

  lemma {:induction false} StripRightKeeps(s: string)
    requires forall i :: 0 <= i < |s| ==> Allowed(s[i])
    requires forall i :: 0 <= i < |s| - 1 ==> !(s[i] == ' ' && s[i + 1] == ' ')
    requires s != [] ==> s[0] != ' '
    ensures IsNormalized(StripRight(s))
  {
    var r := StripRight(s);
    forall i | 0 <= i < |r| ensures Allowed(r[i]) { assert r[i] == s[i]; }
    forall i | 0 <= i < |r| - 1 ensures !(r[i] == ' ' && r[i + 1] == ' ') {
      assert r[i] == s[i] && r[i + 1] == s[i + 1];
    }
    if r != [] {
      assert r[0] == s[0];
    }
  }

  lemma NormalizeStringShape(s: string)
    ensures IsNormalized(NormalizeString(s))
  {
    var d := Depunctuate(Lower(s));
    DepunctuateLower(s);
    var c := Collapse(d);
    CollapseShape(d);
    StripLeftKeeps(c);
    StripRightKeeps(StripLeft(c));
  }

  /** The normalizer's output is in normal form. */
  lemma NormalizeShape(cell: Cell)
    ensures IsNormalized(Normalize(cell))
  {
    if cell.Str? {
      NormalizeStringShape(cell.s);
    }
  }

  /** The tail of a text with single spaces and allowed characters has them too. */
  lemma SingleSpacedTail(t: string)
    requires t != []
    requires forall i :: 0 <= i < |t| ==> Allowed(t[i])
    requires forall i :: 0 <= i < |t| - 1 ==> !(t[i] == ' ' && t[i + 1] == ' ')
    ensures forall i :: 0 <= i < |t[1..]| ==> Allowed(t[1..][i])
    ensures forall i :: 0 <= i < |t[1..]| - 1 ==> !(t[1..][i] == ' ' && t[1..][i + 1] == ' ')
  {
    forall i | 0 <= i < |t[1..]| ensures Allowed(t[1..][i]) {
      assert t[1..][i] == t[i + 1];
    }
  }

  lemma {:induction false} CollapseNormal(t: string)
    requires forall i :: 0 <= i < |t| ==> Allowed(t[i])
    requires forall i :: 0 <= i < |t| - 1 ==> !(t[i] == ' ' && t[i + 1] == ' ')
    ensures Collapse(t) == t
  {
    if t != [] {
      var tail := t[1..];
      SingleSpacedTail(t);
      CollapseNormal(tail);
      if IsSpace(t[0]) {
        assert t[0] == ' ' by { assert Allowed(t[0]); }
        if tail != [] {
          assert Allowed(t[1]) && t[1] != ' ';
          assert !IsSpace(tail[0]);
        }
        assert DropSpaces(tail) == tail;
        assert Collapse(t) == [' '] + tail;
      } else {
        assert Collapse(t) == [t[0]] + tail;
      }
      assert t == [t[0]] + tail;
    }
  }

  /** Normalizing a normalized text changes nothing. */
  lemma NormalizeFixesNormalized(t: string)
    requires IsNormalized(t)
    ensures NormalizeString(t) == t
  {
    assert Lower(t) == t;
    assert Depunctuate(t) == t;
    CollapseNormal(t);
    if t != [] {
      assert !IsSpace(t[0]) && !IsSpace(t[|t| - 1]);
    }
  }

  /** `_normalizar_texto` is idempotent. */
  lemma NormalizeIdempotent(cell: Cell)
    ensures Normalize(Str(Normalize(cell))) == Normalize(cell)
  {
    NormalizeShape(cell);
    NormalizeFixesNormalized(Normalize(cell));
  }
}
