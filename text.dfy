/**
 * The JavaScript string operations the recommender and the lore helpers rely on:
 * `toLowerCase` (ASCII letters only), `indexOf`/`includes`, and `replace` with a
 * string pattern, which rewrites only the first occurrence.
 */
module Text {
  import opened Wrappers

  /** `pat` occurs in `s` starting at position `k`. */
  predicate OccursAt(s: string, pat: string, k: nat) {
    k + |pat| <= |s| && s[k..k + |pat|] == pat
  }

  /** First position at or after `from` where `pat` occurs in `s`. */
  function IndexFrom(s: string, pat: string, from: nat): (r: Option<nat>)
    ensures r.Some? ==> from <= r.value && OccursAt(s, pat, r.value)
    ensures r.Some? ==> forall k :: from <= k < r.value ==> !OccursAt(s, pat, k)
    ensures r.None? ==> forall k :: from <= k ==> !OccursAt(s, pat, k)
    decreases |s| - from
  {
    if from + |pat| > |s| then None
    else if s[from..from + |pat|] == pat then Some(from)
    else IndexFrom(s, pat, from + 1)
  }

  /** `s.indexOf(pat)`, with `None` for -1: the first occurrence of `pat`. */
  function IndexOf(s: string, pat: string): (r: Option<nat>)
    ensures r.Some? ==> OccursAt(s, pat, r.value)
    ensures r.Some? ==> forall k: nat :: k < r.value ==> !OccursAt(s, pat, k)
    ensures r.None? <==> forall k: nat :: !OccursAt(s, pat, k)
  {
    IndexFrom(s, pat, 0)
  }

  /** `s.includes(pat)`. */
  predicate Includes(s: string, pat: string) {
    IndexOf(s, pat).Some?
  }

  /** `c.toLowerCase()` restricted to ASCII: upper-case Latin letters map to lower case. */
  function LowerChar(c: char): char {
    if 'A' <= c <= 'Z' then (c as int + 32) as char else c
  }

  /** `s.toLowerCase()` restricted to ASCII. */
  function ToLower(s: string): (r: string)
    ensures |r| == |s|
    ensures forall i :: 0 <= i < |s| ==> r[i] == LowerChar(s[i])
    ensures forall i :: 0 <= i < |r| ==> !('A' <= r[i] <= 'Z')
  {
    seq(|s|, i requires 0 <= i < |s| => LowerChar(s[i]))
  }

  /**
   * The text a replacement string stands for in `replace` with a string pattern
   * (there are no capture groups): `$$` is a dollar sign, `$&` the matched text,
   * `` $` `` the text before the match, `$'` the text after it; any other `$` is literal.
   */
  function Substitution(rep: string, matched: string, before: string, after: string): (r: string)
    ensures '$' !in rep ==> r == rep
    decreases |rep|
  {
    if rep == [] then []
    else if rep[0] == '$' && |rep| >= 2 && rep[1] in "$&`'" then
      var part := if rep[1] == '$' then "$"
                  else if rep[1] == '&' then matched
                  else if rep[1] == '`' then before
                  else after;
      part + Substitution(rep[2..], matched, before, after)
    else
      [rep[0]] + Substitution(rep[1..], matched, before, after)
  }

  /** `s.replace(pat, rep)` for a string `pat`: only the first occurrence is rewritten. */
  function ReplaceFirst(s: string, pat: string, rep: string): (r: string)
    ensures IndexOf(s, pat).None? ==> r == s
    ensures IndexOf(s, pat).Some? ==>
              var k := IndexOf(s, pat).value;
              s[..k] <= r && |s| - (k + |pat|) <= |r| && r[|r| - (|s| - (k + |pat|))..] == s[k + |pat|..]
  {
    match IndexOf(s, pat)
    case None => s
    case Some(k) => s[..k] + Substitution(rep, pat, s[..k], s[k + |pat|..]) + s[k + |pat|..]
  }

  /**
   * When `pat` first occurs at `k` and `rep` holds no `$`, `replace` splices `rep`
   * in place of that one occurrence and leaves the rest of `s` as it was.
   */
  lemma ReplaceFirstAt(s: string, pat: string, rep: string, k: nat)
    requires OccursAt(s, pat, k)
    requires forall j: nat :: j < k ==> !OccursAt(s, pat, j)
    requires '$' !in rep
    ensures ReplaceFirst(s, pat, rep) == s[..k] + rep + s[k + |pat|..]
  {
    var r := IndexOf(s, pat);
    assert r == Some(k);
  }

  /** A string without the pattern is returned unchanged by `replace`. */
  lemma ReplaceFirstAbsent(s: string, pat: string, rep: string)
    requires forall k: nat :: !OccursAt(s, pat, k)
    ensures ReplaceFirst(s, pat, rep) == s
  {
  }

  /**
   * In `head + pat + tail` the first occurrence of `pat` is the one after `head`
   * when `head` does not hold the first character of `pat`.
   */
  lemma {:induction false} FirstOccurrenceAfter(head: string, pat: string, tail: string)
    requires |pat| > 0 && pat[0] !in head
    ensures IndexOf(head + pat + tail, pat) == Some(|head|)
  {
    var s := head + pat + tail;
    assert s[|head|..|head| + |pat|] == pat;
    assert OccursAt(s, pat, |head|);
    forall j: nat | j < |head|
      ensures !OccursAt(s, pat, j)
    {
      assert s[j] == head[j];
      if j + |pat| <= |s| {
        assert s[j..j + |pat|][0] == s[j];
      }
    }
  }

  /**
   * Replacing the first "_" of `s` by a space changes exactly one character when
   * `s` has an underscore: the first one; every later underscore is kept.
   */
  lemma UnderscoreToSpace(s: string)
    ensures |ReplaceFirst(s, "_", " ")| == |s|
    ensures '_' !in s ==> ReplaceFirst(s, "_", " ") == s
    ensures '$' !in s ==> '$' !in ReplaceFirst(s, "_", " ")
    ensures forall k :: 0 <= k < |s| && s[k] == '_' && '_' !in s[..k] ==>
      ReplaceFirst(s, "_", " ") == s[..k] + " " + s[k + 1..]
  {
    var r := ReplaceFirst(s, "_", " ");
    match IndexOf(s, "_")
    case None =>
      forall k | 0 <= k < |s| ensures s[k] != '_' {
        assert !OccursAt(s, "_", k);
        assert s[k..k + 1] == [s[k]];
      }
    case Some(k) =>
      assert s[k..k + 1] == "_";
      assert r == s[..k] + " " + s[k + 1..];
      forall j | 0 <= j < |s| && s[j] == '_' && '_' !in s[..j] ensures j == k {
        assert OccursAt(s, "_", j) by { assert s[j..j + 1] == [s[j]]; }
        assert forall i :: 0 <= i < j ==> s[..j][i] == s[i];
      }
  }
}
