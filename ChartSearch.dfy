/// The cursor lookup of the signal chart (src/customqchartview.cpp): a
/// binary search over the x-coordinates of the plotted series for the
/// point the mouse is over.
module ChartSearch {
  import opened Common

  /// The series' x-coordinates never decrease, as a graph built from a log
  /// in time order does.
  predicate Sorted(xs: seq<real>)
  {
    forall i, j :: 0 <= i < j < |xs| ==> xs[i] <= xs[j]
  }

  /// The first index whose x-coordinate is at least `x`, or `|xs|` when
  /// there is none.
  function LowerBound(xs: seq<real>, x: real): (r: nat)
    ensures r <= |xs|
    ensures forall i :: 0 <= i < r ==> xs[i] < x
    ensures r < |xs| ==> xs[r] >= x
  {
    match FirstIndex(xs, y => y >= x)
    case None => |xs|
    case Some(i) => i
  }

  /// On a sorted series, an index with a smaller x-coordinate just before
  /// it and a greater or equal one at it (or the end of the series) is the
  /// lower bound.
  lemma CrossingIsLowerBound(xs: seq<real>, x: real, i: nat)
    requires Sorted(xs) && i <= |xs|
    requires i == 0 || xs[i - 1] < x
    requires i == |xs| || xs[i] >= x
    ensures i == LowerBound(xs, x)
  {
  }

  /// `CustomQChartView::startSearchIndex`: `first` and `count` delimit the
  /// range still in question; the loop halves it until it is empty. The
  /// adjustment after the loop compares `first` with `count`, which is 0
  /// by then, so it fires exactly when the search ended at index 0 and
  /// turns that into -1. A search that passes every point returns
  /// `|xs|`, one past the last point.
  method StartSearchIndex(xs: seq<real>, x: real) returns (r: int)
    ensures -1 <= r <= |xs| && r != 0
    ensures r == -1 ==> |xs| == 0 || xs[0] >= x
    ensures r != -1 ==> xs[r - 1] < x && (r == |xs| || xs[r] >= x)
    ensures Sorted(xs) ==> r == (if LowerBound(xs, x) == 0 then -1 else LowerBound(xs, x))
  {
    var count := |xs|;
    var step := 0;
    var it := 0;
    var first := 0;
    while count > 0
      invariant 0 <= first && 0 <= count && first + count <= |xs|
      invariant first == 0 || xs[first - 1] < x
      invariant first + count == |xs| || xs[first + count] >= x
      decreases count
    {
      it := first;
      step := count / 2;
      it := it + step;
      if xs[it] < x {
        it := it + 1;
        first := it;
        count := count - (step + 1);
      } else {
        count := step;
      }
    }
    if first == count {
      first := count - 1;
    }
    r := first;
    if Sorted(xs) {
      if r == -1 {
        CrossingIsLowerBound(xs, x, 0);
      } else {
        CrossingIsLowerBound(xs, x, r);
      }
    }
  }

  /// On a sorted series the lookup lands on the first point at or after
  /// the cursor, never on one before it, and every earlier point lies to
  /// the left of the cursor.
  lemma SortedSearchLandsRight(xs: seq<real>, x: real, r: int)
    requires Sorted(xs)
    requires r == (if LowerBound(xs, x) == 0 then -1 else LowerBound(xs, x))
    ensures 0 <= r < |xs| ==> xs[r] >= x && forall i :: 0 <= i < r ==> xs[i] < x
    ensures r == |xs| ==> forall i :: 0 <= i < |xs| ==> xs[i] < x
    ensures r == -1 ==> forall i :: 0 <= i < |xs| ==> xs[i] >= x
  {
    if r == -1 && |xs| > 0 {
      assert xs[0] >= x;
      forall i | 0 <= i < |xs|
        ensures xs[i] >= x
      {
        assert xs[0] <= xs[i];
      }
    }
  }
}
