/**
 * The JavaScript string primitives the backend relies on, over `seq<char>`:
 * the white-space class shared by `String.prototype.trim` and the regular
 * expression class `\s`, trimming, the decimal-digit class `\d`, substring search
 * and ASCII lower-casing.
 */
module JsStrings {

  /** ECMAScript WhiteSpace and LineTerminator code points: what `trim` removes and `\s` matches. */
  predicate IsWhitespace(c: char)
  {
    || c == '\t' || c == '\n' || c == '\U{000B}' || c == '\U{000C}' || c == '\r' || c == ' '
    || c == '\U{00A0}' || c == '\U{1680}' || ('\U{2000}' <= c <= '\U{200A}')
    || c == '\U{2028}' || c == '\U{2029}' || c == '\U{202F}' || c == '\U{205F}'
    || c == '\U{3000}' || c == '\U{FEFF}'
  }

  /** The regular expression class `\d`: the ASCII decimal digits only. */
  predicate IsDigit(c: char)
  {
    '0' <= c <= '9'
  }

  /** Every character of `s` is white space. */
  predicate AllWhitespace(s: string)
  {
    forall k :: 0 <= k < |s| ==> IsWhitespace(s[k])
  }

  /** `s` neither begins nor ends with white space. */
  predicate IsTrimmed(s: string)
  {
    s == [] || (!IsWhitespace(s[0]) && !IsWhitespace(s[|s| - 1]))
  }

  /** The index of the first character at or after `i` that is not white space, or `|s|`. */
  function SkipWhitespace(s: string, i: nat): (k: nat)
    requires i <= |s|
    ensures i <= k <= |s|
    ensures k < |s| ==> !IsWhitespace(s[k])
    decreases |s| - i
  {
    if i < |s| && IsWhitespace(s[i]) then SkipWhitespace(s, i + 1) else i
  }

  /** Everything `SkipWhitespace` steps over is white space. */
  lemma {:induction false} SkipWhitespaceSkipsWhitespace(s: string, i: nat)
    requires i <= |s|
    ensures forall j :: i <= j < SkipWhitespace(s, i) ==> IsWhitespace(s[j])
    decreases |s| - i
  {
    if i < |s| && IsWhitespace(s[i]) {
      SkipWhitespaceSkipsWhitespace(s, i + 1);
    }
  }

  /** The index just after the last character before `j` that is not white space, or 0. */
  function SkipWhitespaceBack(s: string, j: nat): (k: nat)
    requires j <= |s|
    ensures k <= j
    ensures k > 0 ==> !IsWhitespace(s[k - 1])
  {
    if j > 0 && IsWhitespace(s[j - 1]) then SkipWhitespaceBack(s, j - 1) else j
  }

  /** Everything `SkipWhitespaceBack` steps over is white space. */
  lemma {:induction false} SkipWhitespaceBackSkipsWhitespace(s: string, j: nat)
    requires j <= |s|
    ensures forall m :: SkipWhitespaceBack(s, j) <= m < j ==> IsWhitespace(s[m])
  {
    if j > 0 && IsWhitespace(s[j - 1]) {
      SkipWhitespaceBackSkipsWhitespace(s, j - 1);
    }
  }

  /** Skipping back from `j` stops after any character before `j` that is not white space. */
  lemma {:induction false} SkipWhitespaceBackStops(s: string, i: nat, j: nat)
    requires i < j <= |s| && !IsWhitespace(s[i])
    ensures i < SkipWhitespaceBack(s, j)
  {
    if IsWhitespace(s[j - 1]) {
      SkipWhitespaceBackStops(s, i, j - 1);
    }
  }

  /** `s` with its leading white space removed (also what `^\s*` consumes). */
  function TrimStart(s: string): (r: string)
    ensures r == s[SkipWhitespace(s, 0)..]
    ensures r != [] ==> !IsWhitespace(r[0])
  {
    s[SkipWhitespace(s, 0)..]
  }

  /**
   * `String.prototype.trim`: what lies between the leading and the trailing white
   * space. The result is trimmed, and a trimmed `s` is left unchanged.
   */
  function Trim(s: string): (r: string)
    ensures IsTrimmed(r)
    ensures IsTrimmed(s) ==> r == s
  {
    var i := SkipWhitespace(s, 0);
    if i == |s| then []
    else
      SkipWhitespaceBackStops(s, i, |s|);
      s[i..SkipWhitespaceBack(s, |s|)]
  }

  /** `trim` gives the empty string exactly when `s` is all white space. */
  lemma TrimEmptyIff(s: string)
    ensures Trim(s) == [] <==> AllWhitespace(s)
  {
    var i := SkipWhitespace(s, 0);
    SkipWhitespaceSkipsWhitespace(s, 0);
    if i < |s| {
      SkipWhitespaceBackStops(s, i, |s|);
    }
  }

  /** The leading margin that `trim` drops is white space. */
  lemma LeadingMarginIsWhitespace(s: string)
    ensures AllWhitespace(s[..SkipWhitespace(s, 0)])
  {
    var i := SkipWhitespace(s, 0);
    SkipWhitespaceSkipsWhitespace(s, 0);
    forall k | 0 <= k < i ensures IsWhitespace(s[..i][k]) {
      assert s[..i][k] == s[k];
    }
  }

  /** The trailing margin that `trim` drops is white space. */
  lemma TrailingMarginIsWhitespace(s: string)
    ensures AllWhitespace(s[SkipWhitespaceBack(s, |s|)..])
  {
    var e := SkipWhitespaceBack(s, |s|);
    SkipWhitespaceBackSkipsWhitespace(s, |s|);
    forall k | 0 <= k < |s| - e ensures IsWhitespace(s[e..][k]) {
      assert s[e..][k] == s[e + k];
    }
  }

  /** What `trim` keeps is the part of `s` between two margins made only of white space. */
  lemma TrimKeepsMiddle(s: string)
    ensures var r := Trim(s);
            exists i :: 0 <= i <= |s| - |r| && r == s[i..i + |r|]
                        && AllWhitespace(s[..i]) && AllWhitespace(s[i + |r|..])
  {
    var i := SkipWhitespace(s, 0);
    var r := Trim(s);
    LeadingMarginIsWhitespace(s);
    if i < |s| {
      SkipWhitespaceBackStops(s, i, |s|);
      TrailingMarginIsWhitespace(s);
      assert i + |r| == SkipWhitespaceBack(s, |s|);
    } else {
      assert s[i + |r|..] == [];
    }
    assert r == s[i..i + |r|];
  }

  /** Trimming after removing the leading white space is the same as trimming. */
  lemma TrimOfTrimStart(s: string)
    ensures Trim(TrimStart(s)) == Trim(s)
  {
    var i := SkipWhitespace(s, 0);
    var t := TrimStart(s);
    assert SkipWhitespace(t, 0) == 0;
    if i < |s| {
      var e := SkipWhitespaceBack(s, |s|);
      var e' := SkipWhitespaceBack(t, |t|);
      assert e' == e - i by {
        SkipBackShift(s, i, |s|);
      }
    }
  }

  lemma {:induction false} SkipBackShift(s: string, i: nat, j: nat)
    requires i < j <= |s|
    requires !IsWhitespace(s[i])
    ensures SkipWhitespaceBack(s[i..], j - i) == SkipWhitespaceBack(s, j) - i
    decreases j
  {
    assert s[i..][j - i - 1] == s[j - 1];
    if IsWhitespace(s[j - 1]) {
      SkipWhitespaceBackStops(s, i, j - 1);
      SkipBackShift(s, i, j - 1);
    }
  }

  /** `w` occurs in `s` at some position: an unanchored regular-expression match of a literal. */
  predicate Contains(s: string, w: string)
  {
    exists i :: 0 <= i <= |s| && w <= s[i..]
  }

  /** ASCII lower-casing: `A`–`Z` map to `a`–`z`, every other character is unchanged. */
  function LowerChar(c: char): (d: char)
  {
    if 'A' <= c <= 'Z' then (c as int - 'A' as int + 'a' as int) as char else c
  }

  /** `toLowerCase` restricted to the ASCII capital letters. */
  function ToLower(s: string): (r: string)
    ensures |r| == |s|
    ensures forall k :: 0 <= k < |s| ==> r[k] == LowerChar(s[k])
  {
    if s == [] then [] else [LowerChar(s[0])] + ToLower(s[1..])
  }
}
