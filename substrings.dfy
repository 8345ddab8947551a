/**
 * Substring containment on strings, as Python's `needle in hay` computes it
 * for two `str` values: a case-sensitive search for a contiguous occurrence.
 */
module Substrings {

  /** `needle` occurs in `hay` starting at index `i`. */
  ghost predicate OccursAt(needle: string, hay: string, i: int) {
    0 <= i && i + |needle| <= |hay| && hay[i..i + |needle|] == needle
  }

  /** Reference definition: some index of `hay` starts an occurrence of `needle`. */
  ghost predicate IsSubstring(needle: string, hay: string) {
    exists i :: OccursAt(needle, hay, i)
  }

  /** An occurrence in the tail of `hay` is an occurrence one index later in `hay`. */
  lemma OccursInTail(needle: string, hay: string, i: int)
    requires |hay| > 0 && 0 <= i
    ensures OccursAt(needle, hay[1..], i) <==> OccursAt(needle, hay, i + 1)
  {
    if 0 <= i && i + |needle| <= |hay| - 1 {
      assert hay[1..][i..i + |needle|] == hay[i + 1..i + 1 + |needle|];
    }
  }

  /**
   * `needle in hay`: tries every start position from the left. The empty
   * needle is contained in every string, as in Python.
   */
  function Contains(hay: string, needle: string): (r: bool)
    ensures r <==> IsSubstring(needle, hay)
    decreases |hay|
  {
    if |needle| > |hay| then
      assert forall i :: !OccursAt(needle, hay, i);
      false
    else if hay[..|needle|] == needle then
      assert OccursAt(needle, hay, 0);
      true
    else
      var rest := Contains(hay[1..], needle);
      TailOccurrences(needle, hay);
      rest
  }

  /** `needle` occurs in `hay` away from index 0 exactly when it occurs in the tail. */
  lemma TailOccurrences(needle: string, hay: string)
    requires |hay| > 0 && !OccursAt(needle, hay, 0)
    ensures IsSubstring(needle, hay[1..]) <==> IsSubstring(needle, hay)
  {
    if IsSubstring(needle, hay[1..]) {
      var i :| OccursAt(needle, hay[1..], i);
      OccursInTail(needle, hay, i);
    }
    if IsSubstring(needle, hay) {
      var i :| OccursAt(needle, hay, i);
      assert i != 0;
      OccursInTail(needle, hay, i - 1);
    }
  }

  /** Every character of a contained needle occurs in the haystack. */
  lemma ContainedCharsOccur(hay: string, needle: string)
    ensures Contains(hay, needle) ==> forall c :: c in needle ==> c in hay
  {
    if Contains(hay, needle) {
      var i :| OccursAt(needle, hay, i);
      forall c | c in needle ensures c in hay {
        var j :| 0 <= j < |needle| && needle[j] == c;
        assert hay[i + j] == c;
      }
    }
  }

  /** A substring of a substring of `hay` is a substring of `hay`. */
  lemma ContainsTrans(a: string, b: string, c: string)
    requires Contains(c, b) && Contains(b, a)
    ensures Contains(c, a)
  {
    var i :| OccursAt(b, c, i);
    var j :| OccursAt(a, b, j);
    forall k | 0 <= k < |a| ensures c[i + j + k] == a[k] {
      assert b[j + k] == a[k];
      assert c[i + (j + k)] == b[j + k];
    }
    assert c[i + j..i + j + |a|] == a;
    assert OccursAt(a, c, i + j);
  }
}
