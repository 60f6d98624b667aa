/** Stretches of consecutive row pairs, as both log analyzers measure them. */
module Stretches {
  /** Rows `lo` to `hi`. */
  datatype Segment = Segment(lo: nat, hi: nat)

  /** The pair `i - 1, i` lengthens the last segment or starts one. */
  function Grow(before: seq<Segment>, i: nat): (after: seq<Segment>)
    requires i > 0
    ensures after != [] && after[|after| - 1].hi == i
  {
    if before != [] && before[|before| - 1].hi == i - 1 then
      before[..|before| - 1] + [Segment(before[|before| - 1].lo, i)]
    else before + [Segment(i - 1, i)]
  }

  ghost predicate Ordered(s: seq<Segment>, n: nat) {
    && (forall a :: 0 <= a < |s| ==> s[a].lo < s[a].hi < n)
    && (forall a, b :: 0 <= a < b < |s| ==> s[a].hi < s[b].lo)
  }

  predicate Inside(s: seq<Segment>, a: nat, i: nat) {
    a < |s| && s[a].lo < i <= s[a].hi
  }

  predicate Covered(s: seq<Segment>, i: nat) {
    exists a :: 0 <= a < |s| && Inside(s, a, i)
  }

  lemma GrowOrdered(before: seq<Segment>, i: nat)
    requires i > 0 && Ordered(before, i)
    ensures Ordered(Grow(before, i), i + 1)
  {
    var s := Grow(before, i);
    assert forall a :: 0 <= a < |s| - 1 ==> s[a] == before[a];
  }

  lemma GrowCovers(before: seq<Segment>, i: nat, j: nat)
    requires 0 < j <= i && Ordered(before, i)
    ensures Covered(Grow(before, i), j) <==> j == i || Covered(before, j)
  {
    var s := Grow(before, i);
    if a: nat :| Inside(before, a, j) {
      assert Inside(s, a, j);
    }
    if j == i {
      assert Inside(s, |s| - 1, j);
    } else if a: nat :| Inside(s, a, j) {
      assert Inside(before, a, j);
    }
  }

  lemma NoneInside(s: seq<Segment>, n: nat)
    requires Ordered(s, n)
    ensures !Covered(s, n)
  {}

  lemma OrderedWider(s: seq<Segment>, n: nat, m: nat)
    requires Ordered(s, n) && n <= m
    ensures Ordered(s, m)
  {}

  /** Last value minus first, over all segments. */
  function Gains(values: seq<int>, s: seq<Segment>): int
    requires Ordered(s, |values|)
  {
    if s == [] then 0
    else
      var n := |s| - 1;
      Gains(values, s[..n]) + values[s[n].hi] - values[s[n].lo]
  }

  lemma GrowGains(values: seq<int>, before: seq<Segment>, i: nat)
    requires 0 < i < |values| && Ordered(before, i) && Ordered(before, |values|) && Ordered(Grow(before, i), |values|)
    ensures Gains(values, Grow(before, i)) == Gains(values, before) + values[i] - values[i - 1]
  {
    var s := Grow(before, i);
    if before != [] && before[|before| - 1].hi == i - 1 {
      assert s[..|s| - 1] == before[..|before| - 1];
    } else {
      assert s[..|s| - 1] == before;
    }
  }
}
