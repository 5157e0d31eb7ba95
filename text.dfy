/** The string operations the report queries use: SQL `TRIM` on category names, PHP `trim` on
    the search term, PHP truthiness of a string, and the `LIKE '%term%'` containment test. */
module Text {

  /** The characters SQL `TRIM(x)` strips: spaces only. */
  predicate IsSqlSpace(c: char) {
    c == ' '
  }

  /** The characters PHP `trim` strips by default. */
  predicate IsPhpWhitespace(c: char) {
    c == ' ' || c == '\t' || c == '\n' || c == '\r' || c == '\0' || c == '\U{B}'
  }

  function TrimStart(s: string, strip: char -> bool): (r: string)
    ensures |r| <= |s| && r == s[|s| - |r|..]
    ensures r == [] || !strip(r[0])
    ensures forall i | 0 <= i < |s| - |r| :: strip(s[i])
  {
    if s != [] && strip(s[0]) then
      var r := TrimStart(s[1..], strip);
      assert forall i | 1 <= i < |s| :: s[i] == s[1..][i - 1];
      r
    else s
  }

  function TrimEnd(s: string, strip: char -> bool): (r: string)
    ensures |r| <= |s| && r == s[..|r|]
    ensures r == [] || !strip(r[|r| - 1])
    ensures forall i | |r| <= i < |s| :: strip(s[i])
  {
    if s != [] && strip(s[|s| - 1]) then
      var r := TrimEnd(s[..|s| - 1], strip);
      assert forall i | 0 <= i < |s| - 1 :: s[i] == s[..|s| - 1][i];
      r
    else s
  }

  /** r is s with `i` leading and some trailing characters cut away, all of them stripped ones. */
  ghost predicate CutFrom(s: string, r: string, i: int, strip: char -> bool) {
    && 0 <= i <= |s| - |r|
    && r == s[i..i + |r|]
    && (forall k | 0 <= k < i :: strip(s[k]))
    && (forall k | i + |r| <= k < |s| :: strip(s[k]))
  }

  lemma TrimCut(s: string, t: string, r: string, strip: char -> bool)
    requires |t| <= |s| && t == s[|s| - |t|..]
    requires forall i | 0 <= i < |s| - |t| :: strip(s[i])
    requires |r| <= |t| && r == t[..|r|]
    requires forall i | |r| <= i < |t| :: strip(t[i])
    ensures CutFrom(s, r, |s| - |t|, strip)
  {
    var i := |s| - |t|;
    assert r == s[i..i + |r|];
    forall k | i + |r| <= k < |s| ensures strip(s[k]) {
      assert s[k] == t[k - i];
    }
  }

  /** Strips `strip` characters from both ends: the result is the middle of s, with no
      stripped character at either end and only stripped characters cut away. */
  function Trim(s: string, strip: char -> bool): (r: string)
    ensures exists i :: CutFrom(s, r, i, strip)
    ensures r == [] || (!strip(r[0]) && !strip(r[|r| - 1]))
  {
    var t := TrimStart(s, strip);
    var r := TrimEnd(t, strip);
    TrimCut(s, t, r, strip);
    r
  }

  /** Nothing is left of the empty string. */
  lemma TrimEmpty(strip: char -> bool)
    ensures Trim([], strip) == []
  {
    var i :| CutFrom([], Trim([], strip), i, strip);
  }

  /** Trimming twice cuts nothing more: a trimmed string has no stripped character left at
      either end. */
  lemma TrimIdempotent(s: string, strip: char -> bool)
    ensures Trim(Trim(s, strip), strip) == Trim(s, strip)
  {
  }

  /** PHP truthiness of a string: "" and "0" are false. */
  predicate Truthy(s: string) {
    s != "" && s != "0"
  }

  predicate OccursAt(name: string, term: string, i: int) {
    0 <= i <= |name| - |term| && name[i..i + |term|] == term
  }

  /** `name LIKE '%term%'`: term occurs in name. */
  predicate Contains(name: string, term: string) {
    exists i | 0 <= i <= |name| - |term| :: OccursAt(name, term, i)
  }
}
