/**
 * The curve filter applied before quoting: the configuration's curve slots
 * become (sqrt_price, liquidity) pairs, and slots whose sqrt_price is zero
 * (unused padding) are dropped.
 */
module Curve {
  import opened Pool

  /** A retained curve point as the quoting code receives it: (sqrt_price, liquidity). */
  type CurvePair = (nat, nat)

  function Pair(p: CurvePoint): CurvePair {
    (p.sqrtPrice, p.liquidity)
  }

  /** The list comprehension over the configuration's curve. */
  function CurvePairs(points: seq<CurvePoint>): (r: seq<CurvePair>)
    ensures |r| <= |points|
    ensures forall j :: 0 <= j < |r| ==> r[j].0 != 0
  {
    if points == [] then []
    else (if points[0].sqrtPrice != 0 then [Pair(points[0])] else []) + CurvePairs(points[1..])
  }

  /**
   * Reference definition of the retained slots: the positions of the points
   * whose sqrt_price is not zero, in increasing order, and all of them.
   */
  function NonzeroIndices(points: seq<CurvePoint>): (idx: seq<nat>)
    ensures forall j :: 0 <= j < |idx| ==> idx[j] < |points| && points[idx[j]].sqrtPrice != 0
    ensures forall j, k :: 0 <= j < k < |idx| ==> idx[j] < idx[k]
    ensures forall i :: 0 <= i < |points| && points[i].sqrtPrice != 0 ==> i in idx
  {
    if points == [] then []
    else
      var n := |points| - 1;
      NonzeroIndices(points[..n]) + (if points[n].sqrtPrice != 0 then [n] else [])
  }

  /** Filtering distributes over concatenation, so relative order is kept. */
  lemma {:induction false} CurvePairsAppend(a: seq<CurvePoint>, b: seq<CurvePoint>)
    ensures CurvePairs(a + b) == CurvePairs(a) + CurvePairs(b)
  {
    if a == [] {
      assert a + b == b;
    } else {
      assert (a + b)[0] == a[0];
      assert (a + b)[1..] == a[1..] + b;
      CurvePairsAppend(a[1..], b);
    }
  }

  /**
   * The filtered curve is exactly the pairs of the points with a non-zero
   * sqrt_price, one per such point, in their original order.
   */
  lemma {:induction false} CurvePairsSelectsNonzero(points: seq<CurvePoint>)
    ensures |CurvePairs(points)| == |NonzeroIndices(points)|
    ensures forall j :: 0 <= j < |CurvePairs(points)| ==>
      CurvePairs(points)[j] == Pair(points[NonzeroIndices(points)[j]])
  {
    if points != [] {
      var n := |points| - 1;
      var init := points[..n];
      assert points == init + [points[n]];
      CurvePairsAppend(init, [points[n]]);
      CurvePairsSelectsNonzero(init);
      assert [points[n]][1..] == [];
      var tail := if points[n].sqrtPrice != 0 then [Pair(points[n])] else [];
      assert CurvePairs([points[n]]) == tail;
      var r := CurvePairs(points);
      var idx := NonzeroIndices(points);
      assert r == CurvePairs(init) + tail;
      assert idx == NonzeroIndices(init) + (if points[n].sqrtPrice != 0 then [n] else []);
      forall j | 0 <= j < |r|
        ensures r[j] == Pair(points[idx[j]])
      {
        if j < |CurvePairs(init)| {
          assert r[j] == CurvePairs(init)[j];
          assert idx[j] == NonzeroIndices(init)[j];
        } else {
          assert idx[j] == n;
        }
      }
    }
  }
}
