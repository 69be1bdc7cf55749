/** Inclusive integer ranges, walked upward as `for (i = start; i <= end; i++)` walks them. */
module Ranges {

  /** start, start + 1, ..., end; empty when start > end. */
  function Interval(start: int, end: int): (r: seq<int>)
    ensures |r| == if start <= end then end - start + 1 else 0
    ensures forall i | 0 <= i < |r| :: r[i] == start + i
  {
    seq(if start <= end then end - start + 1 else 0, i => start + i)
  }

  /** Every value of the range appears, once, in ascending order, and nothing else does. */
  lemma IntervalMembers(start: int, end: int, x: int)
    ensures x in Interval(start, end) <==> start <= x <= end
    ensures forall i, j | 0 <= i < j < |Interval(start, end)| :: Interval(start, end)[i] < Interval(start, end)[j]
  {
    if start <= x <= end {
      assert Interval(start, end)[x - start] == x;
    }
  }

  /** Walking a range one step further appends its next value. */
  lemma IntervalStep(start: int, i: int)
    requires start <= i
    ensures Interval(start, i) == Interval(start, i - 1) + [i]
  {
  }
}
