/** The single editing primitive every text mutation reduces to: replace the
    characters in `[start, end)` of a text by a replacement string. */
module Splices {

  /** A replace range is accepted exactly when it lies inside the text and is
      not reversed. */
  predicate ValidRange(s: string, start: int, end: int)
  {
    0 <= start <= end <= |s|
  }

  /** The text obtained from `s` by replacing `s[start..end]` with `r`: the
      prefix before `start` is kept, `r` follows, then the suffix from `end`. */
  function Splice(s: string, start: int, end: int, r: string): (t: string)
    requires ValidRange(s, start, end)
    ensures |t| == |s| - (end - start) + |r|
    ensures t[..start] == s[..start]
    ensures t[start..start + |r|] == r
    ensures t[start + |r|..] == s[end..]
  {
    s[..start] + r + s[end..]
  }

  /** Replacing a range by the characters already there changes nothing. */
  lemma SpliceIdentity(s: string, start: int, end: int)
    requires ValidRange(s, start, end)
    ensures Splice(s, start, end, s[start..end]) == s
  {
    assert s == s[..start] + s[start..end] + s[end..];
  }

  /** Successive replaces on one buffer compose: a second replace of a range
      `[lo, hi)` that covers all the text the first one inserted equals one
      replace of the corresponding range of the original text. */
  lemma SpliceOverwrite(s: string, start: int, end: int, r1: string, lo: int, hi: int, r2: string)
    requires ValidRange(s, start, end)
    requires 0 <= lo <= start && start + |r1| <= hi <= |s| - (end - start) + |r1|
    ensures ValidRange(Splice(s, start, end, r1), lo, hi)
    ensures ValidRange(s, lo, hi + (end - start) - |r1|)
    ensures Splice(Splice(s, start, end, r1), lo, hi, r2) == Splice(s, lo, hi + (end - start) - |r1|, r2)
  {
    var t := Splice(s, start, end, r1);
    var shift := (end - start) - |r1|;
    assert t[..lo] == s[..lo] by {
      assert t[..lo] == t[..start][..lo];
    }
    assert t[hi..] == s[hi + shift..] by {
      assert t[hi..] == t[start + |r1|..][hi - (start + |r1|)..];
    }
  }

  /** A replace is undone by replacing the inserted text with what it
      removed. */
  lemma SpliceUndo(s: string, start: int, end: int, r: string)
    requires ValidRange(s, start, end)
    ensures ValidRange(Splice(s, start, end, r), start, start + |r|)
    ensures Splice(Splice(s, start, end, r), start, start + |r|, s[start..end]) == s
  {
    SpliceOverwrite(s, start, end, r, start, start + |r|, s[start..end]);
    SpliceIdentity(s, start, end);
  }

  /** Inserting at the end of the text is concatenation. */
  lemma SpliceAtEndIsConcat(s: string, r: string)
    ensures Splice(s, |s|, |s|, r) == s + r
  {
    assert s[..|s|] == s;
  }
}
