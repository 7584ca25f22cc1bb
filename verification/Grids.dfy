/** Two-dimensional containers as sequences of rows (src/util/2d.hh). */
module Grids {

  /** All rows have the same width. */
  predicate IsGrid<T>(grid: seq<seq<T>>, width: nat) {
    forall r :: 0 <= r < |grid| ==> |grid[r]| == width
  }

  lemma SplitLast<T>(s: seq<T>, t: seq<T>, x: T, n: nat)
    requires 0 < n <= |s| && |t| == n - 1
    ensures t + [x] == s[..n] <==> t == s[..n - 1] && x == s[n - 1]
  {
    assert s[..n] == s[..n - 1] + [s[n - 1]];
    if t + [x] == s[..n] {
      assert (t + [x])[..n - 1] == t && (t + [x])[n - 1] == x;
    }
  }
}
