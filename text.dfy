/** First-occurrence search and replacement on strings, as JavaScript's
    `String.prototype.indexOf` and `String.prototype.replace` with a string
    pattern (and a replacement without `$` patterns). */
module Text {
  import opened Common

  /** `pat` occurs in `s` starting at index `i`. */
  predicate OccursAt(s: string, pat: string, i: nat) {
    i + |pat| <= |s| && s[i..i + |pat|] == pat
  }

  /** `k` is the first index at which `pat` occurs in `s`. */
  predicate FirstOccurrence(s: string, pat: string, k: nat) {
    OccursAt(s, pat, k) && forall j: nat :: j < k ==> !OccursAt(s, pat, j)
  }

  /** The first index at or after `from` where `pat` occurs, if any. */
  function IndexOfFrom(s: string, pat: string, from: nat): (r: Option<nat>)
    decreases |s| - from
    ensures r.Some? ==> from <= r.value && OccursAt(s, pat, r.value)
    ensures r.Some? ==> forall j: nat :: from <= j < r.value ==> !OccursAt(s, pat, j)
    ensures r.None? ==> forall j: nat :: from <= j ==> !OccursAt(s, pat, j)
  {
    if from + |pat| > |s| then None
    else if s[from..from + |pat|] == pat then Some(from)
    else IndexOfFrom(s, pat, from + 1)
  }

  /** The first index where `pat` occurs in `s`, or None when it does not occur. */
  function IndexOf(s: string, pat: string): (r: Option<nat>)
    ensures r.Some? ==> FirstOccurrence(s, pat, r.value)
    ensures r.None? <==> forall j: nat :: !OccursAt(s, pat, j)
  {
    IndexOfFrom(s, pat, 0)
  }

  /** `s` with its first occurrence of `pat` replaced by `rep`; `s` itself
      when `pat` does not occur. */
  function ReplaceFirst(s: string, pat: string, rep: string): (r: string)
    ensures (forall j: nat :: !OccursAt(s, pat, j)) ==> r == s
    ensures forall k: nat :: FirstOccurrence(s, pat, k) ==> r == s[..k] + rep + s[k + |pat|..]
  {
    match IndexOf(s, pat)
    case None => s
    case Some(k) => s[..k] + rep + s[k + |pat|..]
  }

  /** Replacing the first `pat` by `pat + extra` inserts `extra` right after
      that occurrence and changes nothing else. */
  lemma ReplaceFirstInserts(s: string, pat: string, extra: string, k: nat)
    requires FirstOccurrence(s, pat, k)
    ensures ReplaceFirst(s, pat, pat + extra) == s[..k + |pat|] + extra + s[k + |pat|..]
  {
    var r := ReplaceFirst(s, pat, pat + extra);
    assert r == s[..k] + (pat + extra) + s[k + |pat|..];
    assert s[..k + |pat|] == s[..k] + pat by {
      assert s[k..k + |pat|] == pat;
    }
    assert s[..k] + (pat + extra) + s[k + |pat|..] == (s[..k] + pat) + extra + s[k + |pat|..];
  }
}
