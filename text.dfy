/**
 * `String.prototype.trim` as the chat widget applies it to the input box's
 * value before sending (index.tsx:101).
 */
module Text {

  /**
   * The characters ECMAScript's trim removes: the WhiteSpace production
   * (TAB, VT, FF, SP, NBSP, ZWNBSP and every character of category Zs)
   * and the LineTerminator production (LF, CR, LS, PS).
   */
  const WhitespaceChars: set<char> := {
    '\t', '\U{B}', '\U{C}', ' ', '\U{A0}', '\U{FEFF}',
    '\U{1680}', '\U{2000}', '\U{2001}', '\U{2002}', '\U{2003}', '\U{2004}', '\U{2005}',
    '\U{2006}', '\U{2007}', '\U{2008}', '\U{2009}', '\U{200A}',
    '\U{202F}', '\U{205F}', '\U{3000}',
    '\n', '\r', '\U{2028}', '\U{2029}'
  }

  predicate IsWhitespace(c: char) {
    c in WhitespaceChars
  }

  /** Every character of `s` in positions `lo` to `hi` (exclusive) is whitespace. */
  predicate WhitespaceBetween(s: string, lo: int, hi: int)
    requires 0 <= lo && hi <= |s|
  {
    forall i :: lo <= i < hi ==> IsWhitespace(s[i])
  }

  /** `s` with its leading whitespace removed; `TrimStartSuffix` says which suffix. */
  function TrimStart(s: string): (r: string)
    ensures |r| <= |s|
    decreases |s|
  {
    if s != [] && IsWhitespace(s[0]) then TrimStart(s[1..]) else s
  }

  /** What `TrimStart` keeps is the suffix of `s` after its leading whitespace. */
  lemma {:induction false} TrimStartSuffix(s: string)
    ensures var r := TrimStart(s);
      && r == s[|s| - |r|..]
      && WhitespaceBetween(s, 0, |s| - |r|)
      && (r == [] || !IsWhitespace(r[0]))
    decreases |s|
  {
    if s != [] && IsWhitespace(s[0]) {
      TrimStartSuffix(s[1..]);
      var r := TrimStart(s);
      forall i | 0 < i < |s| - |r| ensures IsWhitespace(s[i]) {
        assert s[i] == s[1..][i - 1];
      }
    }
  }

  /** `s` with its trailing whitespace removed; `TrimEndPrefix` says which prefix. */
  function TrimEnd(s: string): (r: string)
    ensures |r| <= |s|
    decreases |s|
  {
    if s != [] && IsWhitespace(s[|s| - 1]) then TrimEnd(s[..|s| - 1]) else s
  }

  /** What `TrimEnd` keeps is the prefix of `s` before its trailing whitespace. */
  lemma {:induction false} TrimEndPrefix(s: string)
    ensures var r := TrimEnd(s);
      && r == s[..|r|]
      && WhitespaceBetween(s, |r|, |s|)
      && (r == [] || !IsWhitespace(r[|r| - 1]))
    decreases |s|
  {
    if s != [] && IsWhitespace(s[|s| - 1]) {
      var p := s[..|s| - 1];
      TrimEndPrefix(p);
      var r := TrimEnd(s);
      assert r == TrimEnd(p);
      forall i | |r| <= i < |s| - 1 ensures IsWhitespace(s[i]) {
        assert s[i] == p[i];
      }
    }
  }

  /** A string that `trim` leaves as it is: empty, or not starting or ending with whitespace. */
  predicate IsTrimmed(s: string) {
    s == [] || (!IsWhitespace(s[0]) && !IsWhitespace(s[|s| - 1]))
  }

  /**
   * JavaScript's `s.trim()`. It is empty exactly when `s` is all
   * whitespace, and otherwise it starts and ends with a character that is
   * not; `TrimSlice` says which slice of `s` it is.
   */
  function Trim(s: string): (r: string)
    ensures |r| <= |s|
    ensures r == [] <==> WhitespaceBetween(s, 0, |s|)
    ensures IsTrimmed(r)
  {
    var t := TrimStart(s);
    var r := TrimEnd(t);
    TrimStartSuffix(s);
    TrimEndPrefix(t);
    TrimBothEnds(s, t, r);
    r
  }

  /** The trimmed string is the slice of `s` between its leading and its trailing whitespace. */
  lemma TrimSlice(s: string)
    ensures var r, lo := Trim(s), |s| - |TrimStart(s)|;
      && lo + |r| <= |s| && r == s[lo..lo + |r|]
      && WhitespaceBetween(s, 0, lo) && WhitespaceBetween(s, lo + |r|, |s|)
  {
    var t := TrimStart(s);
    var r := TrimEnd(t);
    TrimStartSuffix(s);
    TrimEndPrefix(t);
    TrimBothEnds(s, t, r);
  }

  /** The slice bookkeeping behind `Trim`'s contract, from the contracts of its two halves. */
  lemma TrimBothEnds(s: string, t: string, r: string)
    requires |t| <= |s| && t == s[|s| - |t|..] && WhitespaceBetween(s, 0, |s| - |t|)
    requires t == [] || !IsWhitespace(t[0])
    requires |r| <= |t| && r == t[..|r|] && WhitespaceBetween(t, |r|, |t|)
    requires r == [] || !IsWhitespace(r[|r| - 1])
    ensures var lo := |s| - |t|;
      && lo + |r| <= |s| && r == s[lo..lo + |r|]
      && WhitespaceBetween(s, 0, lo) && WhitespaceBetween(s, lo + |r|, |s|)
    ensures r == [] <==> WhitespaceBetween(s, 0, |s|)
    ensures IsTrimmed(r)
  {
    var lo := |s| - |t|;
    forall i | lo + |r| <= i < |s| ensures IsWhitespace(s[i]) {
      assert s[i] == t[i - lo];
    }
    if r != [] {
      assert r[0] == t[0] == s[lo];
    } else {
      assert WhitespaceBetween(s, 0, |s|);
    }
  }

  /** A string that does not start or end with whitespace is its own trim. */
  lemma TrimFixesTrimmed(s: string)
    requires IsTrimmed(s)
    ensures Trim(s) == s
  {
    if s != [] {
      assert TrimStart(s) == s;
      assert TrimEnd(s) == s;
    }
  }

  /** Trimming is idempotent: the message the widget sends would trim to itself. */
  lemma TrimIdempotent(s: string)
    ensures Trim(Trim(s)) == Trim(s)
  {
    TrimFixesTrimmed(Trim(s));
  }
}
