/** The string operations of the JavaScript standard library that the
    visualizer relies on: `indexOf`/`includes`, `split(sep)[0]`, `endsWith`
    and `toLowerCase` (on ASCII letters). */
module Strings {
  import opened Wrappers

  /** `pat` occurs in `s` starting at index `j`. */
  predicate OccursAt(s: string, pat: string, j: nat) {
    j + |pat| <= |s| && s[j..j + |pat|] == pat
  }

  /** `s.indexOf(pat)`: the first index at which `pat` occurs, if any. */
  function FindFirst(s: string, pat: string): (r: Option<nat>)
    ensures r.Some? ==> OccursAt(s, pat, r.value)
    ensures r.Some? ==> forall j :: 0 <= j < r.value ==> !OccursAt(s, pat, j)
    ensures r.None? ==> forall j :: 0 <= j <= |s| ==> !OccursAt(s, pat, j)
    decreases |s|
  {
    if |pat| > |s| then None
    else if s[..|pat|] == pat then Some(0)
    else
      var rest := FindFirst(s[1..], pat);
      ShiftOccurs(s, pat);
      match rest
      case None => None
      case Some(i) => Some(i + 1)
  }

  /** An occurrence in the tail is an occurrence one further along in `s`. */
  lemma ShiftOccurs(s: string, pat: string)
    requires |s| > 0
    ensures forall j: nat :: 1 <= j ==> (OccursAt(s, pat, j) <==> OccursAt(s[1..], pat, j - 1))
  {
    forall j: nat | 1 <= j
      ensures OccursAt(s, pat, j) <==> OccursAt(s[1..], pat, j - 1)
    {
      if j + |pat| <= |s| {
        assert s[1..][j - 1..j - 1 + |pat|] == s[j..j + |pat|];
      }
    }
  }

  /** `s.includes(pat)`. */
  predicate Contains(s: string, pat: string) {
    FindFirst(s, pat).Some?
  }

  /** The empty string occurs in every string. */
  lemma ContainsEmpty(s: string)
    ensures Contains(s, "")
  {
    assert OccursAt(s, "", 0);
  }

  /** A prefix of a string that does not contain `pat` does not contain it
      either. */
  lemma PrefixKeepsAbsence(s: string, t: string, pat: string)
    requires |t| <= |s| && s[..|t|] == t
    requires !Contains(s, pat)
    ensures !Contains(t, pat)
  {
    if Contains(t, pat) {
      var j := FindFirst(t, pat).value;
      assert OccursAt(t, pat, j);
      assert t[j..j + |pat|] == s[..|t|][j..j + |pat|] == s[j..j + |pat|];
      assert OccursAt(s, pat, j);
      assert false;
    }
  }

  /** The part of `s` before the first occurrence of `pat` does not contain
      `pat`. */
  lemma BeforeFirstAbsent(s: string, pat: string)
    requires pat != "" && FindFirst(s, pat).Some?
    ensures !Contains(s[..FindFirst(s, pat).value], pat)
  {
    var i := FindFirst(s, pat).value;
    var t := s[..i];
    if Contains(t, pat) {
      var j := FindFirst(t, pat).value;
      assert OccursAt(t, pat, j);
      assert t[j..j + |pat|] == s[j..j + |pat|];
      assert OccursAt(s, pat, j) && j < i;
      assert false;
    }
  }

  /** `s.split(sep)[0]` for a non-empty separator: the part of `s` before the
      first occurrence of `sep`, or all of `s` when there is none. */
  function SplitHead(s: string, sep: string): (r: string)
    requires sep != ""
    ensures |r| <= |s| && s[..|r|] == r
    ensures !Contains(r, sep)
    ensures Contains(s, sep) ==> OccursAt(s, sep, |r|)
    ensures Contains(s, sep) ==> forall j :: 0 <= j < |r| ==> !OccursAt(s, sep, j)
    ensures !Contains(s, sep) ==> r == s
  {
    match FindFirst(s, sep)
    case None => s
    case Some(i) =>
      BeforeFirstAbsent(s, sep);
      s[..i]
  }

  /** `s.endsWith(suffix)`. */
  predicate EndsWith(s: string, suffix: string) {
    |suffix| <= |s| && s[|s| - |suffix|..] == suffix
  }

  /** `toLowerCase` on one character: ASCII capitals are lowered, everything
      else is kept. */
  function LowerChar(c: char): (r: char)
    ensures 'A' <= c <= 'Z' ==> 'a' <= r <= 'z'
    ensures !('A' <= c <= 'Z') ==> r == c
  {
    if 'A' <= c <= 'Z' then (c as int + 32) as char else c
  }

  /** `s.toLowerCase()`, restricted to ASCII case mapping. */
  function ToLower(s: string): (r: string)
    ensures |r| == |s|
    ensures forall i :: 0 <= i < |s| ==> r[i] == LowerChar(s[i])
  {
    seq(|s|, i requires 0 <= i < |s| => LowerChar(s[i]))
  }

  /** Case-insensitive `includes`, as the views' search filters use it. */
  predicate ContainsIgnoringCase(s: string, term: string) {
    Contains(ToLower(s), ToLower(term))
  }

  /** The empty search term matches every string. */
  lemma EmptyTermMatches(s: string)
    ensures ContainsIgnoringCase(s, "")
  {
    assert ToLower("") == "";
    ContainsEmpty(ToLower(s));
  }
}
