/**
 * Filtering a list while keeping order: JavaScript's `Array.prototype.filter`
 * and the PHP `foreach` loops that append the entries they keep.
 */
module Seqs {

  /**
   * The entries of `s` for which `keep` holds, in their original order.
   * Defined on the last entry, the way a loop that appends builds it.
   */
  function Where<T(!new)>(s: seq<T>, keep: T -> bool): (r: seq<T>)
    ensures |r| <= |s|
    ensures forall k :: 0 <= k < |r| ==> keep(r[k])
    decreases |s|
  {
    if |s| == 0 then []
    else
      var init := s[..|s| - 1];
      assert s == init + [s[|s| - 1]];
      Where(init, keep) + (if keep(s[|s| - 1]) then [s[|s| - 1]] else [])
  }

  /** Each value occurs in the result as often as in `s` when it passes the test, and not at all otherwise. */
  lemma {:induction false} WhereMultiset<T(!new)>(s: seq<T>, keep: T -> bool)
    ensures forall x :: multiset(Where(s, keep))[x] == if keep(x) then multiset(s)[x] else 0
    decreases |s|
  {
    if |s| > 0 {
      var init := s[..|s| - 1];
      assert s == init + [s[|s| - 1]];
      WhereMultiset(init, keep);
    }
  }

  /** Filtering commutes with concatenation, so kept entries keep their relative order. */
  lemma {:induction false} WhereConcat<T(!new)>(a: seq<T>, b: seq<T>, keep: T -> bool)
    ensures Where(a + b, keep) == Where(a, keep) + Where(b, keep)
    decreases |b|
  {
    if |b| > 0 {
      var b' := b[..|b| - 1];
      assert (a + b)[..|a + b| - 1] == a + b';
      WhereConcat(a, b', keep);
    } else {
      assert a + b == a;
    }
  }

  /** A filter whose test every entry passes returns the list unchanged. */
  lemma {:induction false} WhereAll<T(!new)>(s: seq<T>, keep: T -> bool)
    requires forall k :: 0 <= k < |s| ==> keep(s[k])
    ensures Where(s, keep) == s
    decreases |s|
  {
    if |s| > 0 {
      WhereAll(s[..|s| - 1], keep);
    }
  }
}
