/** The string side of the add guard `taskTitle.trim().length > 0`:
    ECMAScript's String.prototype.trim and the "has content" predicate it decides. */
module Text {

  /** The ECMAScript WhiteSpace and LineTerminator code points that `trim` strips
      (tab, vertical tab, form feed, space, no-break space, BOM, the Zs space
      separators, line feed, carriage return, line and paragraph separators). */
  predicate IsWhitespace(c: char) {
    c == '\U{0009}' || c == '\U{000B}' || c == '\U{000C}' || c == '\U{0020}' ||
    c == '\U{00A0}' || c == '\U{FEFF}' ||
    c == '\U{1680}' || ('\U{2000}' <= c <= '\U{200A}') || c == '\U{202F}' ||
    c == '\U{205F}' || c == '\U{3000}' ||
    c == '\U{000A}' || c == '\U{000D}' || c == '\U{2028}' || c == '\U{2029}'
  }

  /** Every character of `s` from index `lo` up to (not including) `hi` is whitespace. */
  predicate BlankBetween(s: string, lo: int, hi: int) {
    forall i :: lo <= i < hi && 0 <= i < |s| ==> IsWhitespace(s[i])
  }

  /** `s` holds at least one character that is not whitespace. */
  predicate HasContent(s: string) {
    exists i :: 0 <= i < |s| && !IsWhitespace(s[i])
  }

  /** `s` with its leading whitespace removed: the longest suffix of `s`
      that does not start with whitespace. */
  function TrimStart(s: string): (r: string)
    ensures |r| <= |s| && r == s[|s| - |r|..]
    ensures BlankBetween(s, 0, |s| - |r|)
    ensures r != [] ==> !IsWhitespace(r[0])
    decreases |s|
  {
    if s != [] && IsWhitespace(s[0]) then TrimStart(s[1..]) else s
  }

  /** `s` with its trailing whitespace removed: the longest prefix of `s`
      that does not end with whitespace. */
  function TrimEnd(s: string): (r: string)
    ensures |r| <= |s| && r == s[..|r|]
    ensures BlankBetween(s, |r|, |s|)
    ensures r != [] ==> !IsWhitespace(r[|r| - 1])
    decreases |s|
  {
    if s != [] && IsWhitespace(s[|s| - 1]) then TrimEnd(s[..|s| - 1]) else s
  }

  /** String.prototype.trim: leading, then trailing whitespace removed. The result
      is a slice of `s`, everything cut off is whitespace, and the result
      neither starts nor ends with whitespace. */
  function Trim(s: string): (r: string)
    ensures exists lo, hi :: 0 <= lo <= hi <= |s| && r == s[lo..hi]
                             && BlankBetween(s, 0, lo) && BlankBetween(s, hi, |s|)
    ensures r != [] ==> !IsWhitespace(r[0]) && !IsWhitespace(r[|r| - 1])
  {
    var t := TrimStart(s);
    var r := TrimEnd(t);
    var lo := |s| - |t|;
    assert r == s[lo..lo + |r|];
    assert BlankBetween(s, lo + |r|, |s|) by {
      forall i | lo + |r| <= i < |s| ensures IsWhitespace(s[i]) {
        assert s[i] == t[i - lo];
      }
    }
    r
  }

  /** The guard of addTask and the enabled state of the Add button:
      the trimmed text is not empty. */
  predicate CanAdd(s: string) {
    |Trim(s)| > 0
  }

  /** The add guard holds exactly when the text contains a non-whitespace
      character; so the trimmed text is empty exactly on all-whitespace text. */
  lemma CanAddIffHasContent(s: string)
    ensures CanAdd(s) <==> HasContent(s)
  {
  }

  /** Trimming twice changes nothing more than trimming once. */
  lemma TrimIdempotent(s: string)
    ensures Trim(Trim(s)) == Trim(s)
  {
  }
}
