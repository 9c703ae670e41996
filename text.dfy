/** `String.prototype.trim` as the page applies it to the form fields. */
module Text {

  /** The characters JavaScript's `trim` removes: the WhiteSpace code points
      (tab, vertical tab, form feed, space, no-break space, byte order mark
      and the other space separators) and the LineTerminator code points
      (line feed, carriage return, line and paragraph separators). */
  const JsWhitespace: set<char> := {
    '\t', '\U{000B}', '\U{000C}', ' ', '\U{00A0}', '\U{FEFF}',
    '\U{1680}', '\U{2000}', '\U{2001}', '\U{2002}', '\U{2003}', '\U{2004}',
    '\U{2005}', '\U{2006}', '\U{2007}', '\U{2008}', '\U{2009}', '\U{200A}',
    '\U{202F}', '\U{205F}', '\U{3000}',
    '\n', '\r', '\U{2028}', '\U{2029}'
  }

  predicate IsJsWhitespace(c: char) {
    c in JsWhitespace
  }

  /** Every character of `s` from position `lo` up to (not including) `hi`
      is whitespace. */
  predicate WhitespaceIn(s: string, lo: int, hi: int)
    requires 0 <= lo <= hi <= |s|
  {
    forall k :: lo <= k < hi ==> IsJsWhitespace(s[k])
  }

  predicate AllWhitespace(s: string) {
    WhitespaceIn(s, 0, |s|)
  }

  /** True when `s` neither starts nor ends with whitespace. */
  predicate Trimmed(s: string) {
    s == [] || (!IsJsWhitespace(s[0]) && !IsJsWhitespace(s[|s| - 1]))
  }

  /** Scanning forward from `i`: the first position that does not hold
      whitespace, or `|s|` when there is none. */
  function SkipForward(s: string, i: nat): (n: nat)
    requires i <= |s|
    ensures i <= n <= |s| && WhitespaceIn(s, i, n)
    ensures n == |s| || !IsJsWhitespace(s[n])
    decreases |s| - i
  {
    if i < |s| && IsJsWhitespace(s[i]) then SkipForward(s, i + 1) else i
  }

  /** Scanning backward from `j`, but not below `lo`: the end of the last
      character that is not whitespace, or `lo` when there is none. */
  function SkipBackward(s: string, lo: nat, j: nat): (n: nat)
    requires lo <= j <= |s|
    ensures lo <= n <= j && WhitespaceIn(s, n, j)
    ensures n == lo || !IsJsWhitespace(s[n - 1])
    decreases j - lo
  {
    if lo < j && IsJsWhitespace(s[j - 1]) then SkipBackward(s, lo, j - 1) else j
  }

  /** `s.trim()`: the piece of `s` between its leading and its trailing
      whitespace. It has no whitespace at either end, it is empty exactly
      when `s` is all whitespace, and it sits in `s` unchanged with only
      whitespace before and after it. */
  function Trim(s: string): (r: string)
    ensures Trimmed(r)
    ensures r == [] <==> AllWhitespace(s)
    ensures var i := SkipForward(s, 0);
            i + |r| <= |s| && s[i..i + |r|] == r &&
            WhitespaceIn(s, 0, i) && WhitespaceIn(s, i + |r|, |s|)
  {
    var i := SkipForward(s, 0);
    var j := SkipBackward(s, i, |s|);
    assert i < j ==> s[i..j][0] == s[i] && s[i..j][j - i - 1] == s[j - 1];
    s[i..j]
  }

  /** Uniqueness: whenever `s` is some whitespace, then a piece that does not
      start or end with whitespace, then more whitespace, `Trim` returns that
      piece. Together with `Trim`'s contract this pins `Trim` down. */
  lemma TrimCharacterized(a: string, m: string, b: string)
    requires AllWhitespace(a) && AllWhitespace(b) && Trimmed(m)
    ensures Trim(a + m + b) == m
  {
    var s := a + m + b;
    if m == [] {
      assert forall k :: 0 <= k < |s| ==> s[k] == if k < |a| then a[k] else b[k - |a|];
      assert AllWhitespace(s);
    } else {
      // The forward scan stops exactly at the start of `m` ...
      var i := SkipForward(s, 0);
      assert s[|a|] == m[0];
      assert forall k :: 0 <= k < |a| ==> s[k] == a[k];
      assert i == |a|;
      // ... and the backward scan stops exactly at its end.
      var j := SkipBackward(s, i, |s|);
      assert s[|a| + |m| - 1] == m[|m| - 1];
      assert forall k :: |a| + |m| <= k < |s| ==> s[k] == b[k - |a| - |m|];
      assert j == |a| + |m|;
      assert s[i..j] == m;
    }
  }

  /** Trimming twice is trimming once. */
  lemma TrimIdempotent(s: string)
    ensures Trim(Trim(s)) == Trim(s)
  {
    var m := Trim(s);
    assert m == [] + m + [];
    TrimCharacterized([], m, []);
  }
}
