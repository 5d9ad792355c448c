/** Splitting text at a separator character: the inverse used to read back titles and URLs. */
module Text {
  import opened Wrappers

  /** The text before the first `sep` and the text after it, or None when `sep` does not occur. */
  function SplitAt(s: string, sep: char): (r: Option<(string, string)>)
    ensures r.None? <==> sep !in s
    ensures r.Some? ==> s == r.value.0 + [sep] + r.value.1 && sep !in r.value.0
  {
    if s == [] then None
    else if s[0] == sep then Some(([], s[1..]))
    else match SplitAt(s[1..], sep)
      case None => None
      case Some((before, after)) => Some(([s[0]] + before, after))
  }

  /** Joining two texts with a separator the first does not contain, then splitting, gives both back. */
  lemma SplitAtJoin(a: string, b: string, sep: char)
    requires sep !in a
    ensures SplitAt(a + [sep] + b, sep) == Some((a, b))
  {
    var s := a + [sep] + b;
    var n := |a|;
    assert s[n] == sep;
    var r := SplitAt(s, sep);
    var before, after := r.value.0, r.value.1;
    assert s[|before|] == sep;
    assert forall i :: 0 <= i < n ==> s[i] == a[i] != sep;
    assert forall i :: 0 <= i < |before| ==> s[i] == before[i] != sep;
    assert before == s[..n] == a;
    assert after == s[n + 1..] == b;
  }

  /** The middle part of a three-part join is found again at its offset. */
  lemma MiddleOf(p: string, m: string, q: string)
    ensures (p + m + q)[|p|..|p| + |m|] == m
  {
  }

  /** The last part of a join is what follows the first part. */
  lemma SuffixOf(p: string, q: string)
    ensures (p + q)[|p|..] == q
  {
  }
}
