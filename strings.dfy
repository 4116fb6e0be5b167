/** String rules shared by the JavaScript screen and the Java bridge module.
    Strings are `seq<char>`; the rules only compare ASCII prefixes and
    commas, so code units and code points agree on everything they inspect. */
module Strings {
  import opened Wrappers

  /** `s.startsWith(p)` in both JavaScript and Java. */
  predicate StartsWith(s: string, p: string) {
    |p| <= |s| && s[..|p|] == p
  }

  /** `pat` occurs in `s` starting at index `i`. */
  predicate OccursAt(s: string, pat: string, i: int) {
    0 <= i && i + |pat| <= |s| && s[i..i + |pat|] == pat
  }

  /** `s.contains(pat)`. */
  predicate Contains(s: string, pat: string) {
    exists i | 0 <= i <= |s| :: OccursAt(s, pat, i)
  }

  /** The index of the first `c` in `s` (`s.indexOf(c)`), or None for -1. */
  function IndexOf(s: string, c: char): (r: Option<nat>)
    ensures r.None? <==> c !in s
    ensures r.Some? ==> r.value < |s| && s[r.value] == c && c !in s[..r.value]
  {
    if |s| == 0 then None
    else if s[0] == c then Some(0)
    else
      match IndexOf(s[1..], c)
      case None => None
      case Some(i) =>
        assert s[1..][..i] == s[1..i + 1];
        assert s[..i + 1] == [s[0]] + s[1..i + 1];
        Some(i + 1)
  }

  /** JavaScript `s.split(c)[1]`: the text between the first and the second
      `c` (or to the end of `s` when there is no second one); `undefined`,
      here None, when `s` holds no `c` at all. */
  function FieldAfterFirst(s: string, c: char): (r: Option<string>)
    ensures r.None? <==> c !in s
    ensures r.Some? ==> c !in r.value
    ensures r.Some? ==>
      exists i :: 0 <= i < |s| && s[i] == c && c !in s[..i]
                  && i + 1 + |r.value| <= |s| && s[i + 1..i + 1 + |r.value|] == r.value
                  && (i + 1 + |r.value| == |s| || s[i + 1 + |r.value|] == c)
  {
    match IndexOf(s, c)
    case None => None
    case Some(i) =>
      var rest := s[i + 1..];
      match IndexOf(rest, c)
      case None =>
        Some(rest)
      case Some(j) =>
        assert s[i + 1..i + 1 + j] == rest[..j];
        assert s[i + 1 + j] == rest[j];
        Some(rest[..j])
  }

  /** Java `s.replace(pat, "")`: one left-to-right scan that deletes every
      non-overlapping occurrence of `pat`. */
  function RemoveAll(s: string, pat: string): (r: string)
    requires |pat| > 0
    ensures |r| <= |s|
    decreases |s|
  {
    if |s| < |pat| then s
    else if s[..|pat|] == pat then RemoveAll(s[|pat|..], pat)
    else [s[0]] + RemoveAll(s[1..], pat)
  }

  /** A string in which `pat` never occurs is left as it is. */
  lemma {:induction false} RemoveAllWithoutOccurrence(s: string, pat: string)
    requires |pat| > 0
    requires !Contains(s, pat)
    ensures RemoveAll(s, pat) == s
    decreases |s|
  {
    if |pat| <= |s| {
      assert !OccursAt(s, pat, 0);
      forall i | OccursAt(s[1..], pat, i) ensures OccursAt(s, pat, i + 1) {
        assert s[1..][i..i + |pat|] == s[i + 1..i + 1 + |pat|];
      }
      RemoveAllWithoutOccurrence(s[1..], pat);
      assert [s[0]] + s[1..] == s;
    }
  }

  /** A leading occurrence is removed, and the scan carries on after it. */
  lemma RemoveAllLeading(pat: string, rest: string)
    requires |pat| > 0
    ensures RemoveAll(pat + rest, pat) == RemoveAll(rest, pat)
  {
    assert (pat + rest)[..|pat|] == pat;
    assert (pat + rest)[|pat|..] == rest;
  }
}
