/**
 * Winding test of a boundary loop (src/signed-area.ts): the unhalved shoelace
 * sum over consecutive pairs with wrap-around, read as counter-clockwise,
 * clockwise or degenerate.
 */
module SignedArea {
  import opened Wrappers
  import opened Vectors
  import opened Cyclic

  /** Thrown as "collinear or degenerate polygon". */
  datatype WindingError = DegeneratePolygon

  /** Term `i` of the sum: x_i * y_{i+1} - x_{i+1} * y_i, the successor of the last point being the first. */
  function Term(pts: seq<Vec3>, i: nat): real
    requires i < |pts|
  {
    CrossXY(pts[i], pts[NextIndex(i, |pts|)])
  }

  /** The sum of the first `k` terms: the accumulator after `k` rounds of the loop. */
  function PartialSum(pts: seq<Vec3>, k: nat): real
    requires k <= |pts|
  {
    if k == 0 then 0.0 else PartialSum(pts, k - 1) + Term(pts, k - 1)
  }

  /** Twice the signed area of the loop. */
  function Shoelace(pts: seq<Vec3>): (r: real)
    ensures |pts| >= 1 ==> r == ChainSum(pts) + CrossXY(pts[|pts| - 1], pts[0])
  {
    if pts == [] then 0.0
    else
      PartialSumIsChain(pts, |pts| - 1);
      assert pts[..|pts|] == pts;
      PartialSum(pts, |pts|)
  }

  /** What `isCounterClockWise` returns or throws. */
  function Winding(pts: seq<Vec3>): Result<bool, WindingError> {
    var s := Shoelace(pts);
    if s == 0.0 then Failure(DegeneratePolygon) else Success(s > 0.0)
  }

  /** The loop of `isCounterClockWise`: accumulate the terms, then test the sign. */
  method IsCounterClockwise(points: seq<Vec3>) returns (r: Result<bool, WindingError>)
    ensures r.Failure? <==> Shoelace(points) == 0.0
    ensures r.Success? ==> (r.value <==> Shoelace(points) > 0.0)
    ensures r.Success? ==> (!r.value <==> Shoelace(points) < 0.0)
  {
    var sum := 0.0;
    var i := 0;
    while i < |points|
      invariant 0 <= i <= |points|
      invariant sum == PartialSum(points, i)
    {
      var current := points[i];
      var next := if i == |points| - 1 then points[0] else points[i + 1];
      sum := sum + (current.x * next.y - next.x * current.y);
      i := i + 1;
    }
    if sum == 0.0 {
      return Failure(DegeneratePolygon);
    }
    if sum > 0.0 {
      return Success(true);
    }
    return Success(false);
  }

  // ---------------------------------------------------------------------------
  // An independent, open-chain formulation of the same sum.

  /** Sum of cross products of consecutive points of an open chain (no wrap). */
  function ChainSum(s: seq<Vec3>): real
    decreases |s|
  {
    if |s| < 2 then 0.0 else CrossXY(s[0], s[1]) + ChainSum(s[1..])
  }

  /** The points in reverse order. */
  function Reverse(s: seq<Vec3>): (r: seq<Vec3>)
    ensures |r| == |s|
  {
    if s == [] then [] else Reverse(s[1..]) + [s[0]]
  }

  lemma {:induction false} ReverseAt(s: seq<Vec3>, k: nat)
    requires k < |s|
    ensures Reverse(s)[k] == s[|s| - 1 - k]
  {
    if k < |s| - 1 {
      ReverseAt(s[1..], k);
    }
  }

  lemma {:induction false} ChainSumAppend(s: seq<Vec3>, p: Vec3)
    requires |s| >= 1
    ensures ChainSum(s + [p]) == ChainSum(s) + CrossXY(s[|s| - 1], p)
    decreases |s|
  {
    if |s| == 1 {
      assert s + [p] == [s[0], p];
    } else {
      assert (s + [p])[1..] == s[1..] + [p];
      ChainSumAppend(s[1..], p);
    }
  }

  lemma {:induction false} ChainSumReverse(s: seq<Vec3>)
    ensures ChainSum(Reverse(s)) == -ChainSum(s)
    decreases |s|
  {
    if |s| >= 2 {
      var t := s[1..];
      ChainSumReverse(t);
      ReverseAt(t, |t| - 1);
      ChainSumAppend(Reverse(t), s[0]);
    } else if |s| == 1 {
      assert Reverse(s) == [s[0]];
    }
  }

  /** The loop's partial sums are chain sums of prefixes while no term wraps. */
  lemma {:induction false} PartialSumIsChain(pts: seq<Vec3>, k: nat)
    requires k < |pts|
    ensures PartialSum(pts, k) == ChainSum(pts[..k + 1])
  {
    if k == 0 {
    } else {
      PartialSumIsChain(pts, k - 1);
      assert pts[..k + 1] == pts[..k] + [pts[k]];
      ChainSumAppend(pts[..k], pts[k]);
    }
  }

  /** The whole sum is the open chain closed by the wrap-around term. */
  lemma {:induction false} ShoelaceClosed(pts: seq<Vec3>)
    requires |pts| >= 1
    ensures Shoelace(pts) == ChainSum(pts) + CrossXY(pts[|pts| - 1], pts[0])
  {
    var n := |pts|;
    PartialSumIsChain(pts, n - 1);
    assert pts[..n] == pts;
  }

  /** The shoelace sum of a triangle has exactly three terms. */
  lemma {:induction false} TriangleShoelace(a: Vec3, b: Vec3, c: Vec3)
    ensures Shoelace([a, b, c]) == CrossXY(a, b) + CrossXY(b, c) + CrossXY(c, a)
  {
    var t := [a, b, c];
    assert PartialSum(t, 1) == CrossXY(a, b);
    assert PartialSum(t, 2) == CrossXY(a, b) + CrossXY(b, c);
  }

  // ---------------------------------------------------------------------------
  // Properties the doc comment and callers rely on.

  /** Lists of at most two points have sum 0, so `isCounterClockWise` throws on them. */
  lemma {:induction false} ShortIsDegenerate(pts: seq<Vec3>)
    requires |pts| <= 2
    ensures Shoelace(pts) == 0.0
    ensures Winding(pts) == Failure(DegeneratePolygon)
  {
    if |pts| >= 1 {
      ShoelaceClosed(pts);
      if |pts| == 2 {
        assert pts[1..] == [pts[1]];
      }
    }
  }

  /** Reversing the list negates the sum. */
  lemma {:induction false} ReverseNegates(pts: seq<Vec3>)
    ensures Shoelace(Reverse(pts)) == -Shoelace(pts)
  {
    if |pts| >= 1 {
      var r := Reverse(pts);
      var n := |pts|;
      ShoelaceClosed(pts);
      ShoelaceClosed(r);
      ChainSumReverse(pts);
      ReverseAt(pts, 0);
      ReverseAt(pts, n - 1);
    }
  }

  /** A non-degenerate clockwise list becomes counter-clockwise once reversed, and vice versa. */
  lemma {:induction false} ReversalFlipsWinding(pts: seq<Vec3>)
    requires Winding(pts).Success?
    ensures Winding(Reverse(pts)) == Success(!Winding(pts).value)
  {
    ReverseNegates(pts);
  }

  /** The sum does not depend on which vertex the list starts at. */
  lemma {:induction false} RotationInvariant(pts: seq<Vec3>)
    requires |pts| >= 1
    ensures Shoelace(pts[1..] + [pts[0]]) == Shoelace(pts)
  {
    var n := |pts|;
    var rot := pts[1..] + [pts[0]];
    ShoelaceClosed(pts);
    ShoelaceClosed(rot);
    if n >= 2 {
      ChainSumAppend(pts[1..], pts[0]);
      assert rot[n - 1] == pts[0];
      assert rot[0] == pts[1];
    } else {
      assert rot == pts;
    }
  }

  /** Only x and y are read: lists that agree on them have the same sum. */
  lemma {:induction false} IgnoresZ(pts: seq<Vec3>, qts: seq<Vec3>, k: nat)
    requires |pts| == |qts| && k <= |pts|
    requires forall i | 0 <= i < |pts| :: pts[i].x == qts[i].x && pts[i].y == qts[i].y
    ensures PartialSum(pts, k) == PartialSum(qts, k)
  {
    if k > 0 {
      IgnoresZ(pts, qts, k - 1);
      var j := NextIndex(k - 1, |pts|);
      assert pts[j].x == qts[j].x && pts[j].y == qts[j].y;
    }
  }

  // ---------------------------------------------------------------------------
  // Scenarios of the winding normaliser.

  function Square(): seq<Vec3> {
    [Vec3(0.0, 0.0, 0.0), Vec3(4.0, 0.0, 0.0), Vec3(4.0, 3.0, 0.0), Vec3(0.0, 3.0, 0.0)]
  }

  /** The 4-by-3 rectangle listed counter-clockwise has doubled area 24. */
  lemma {:induction false} SquareIsCounterClockwise()
    ensures Shoelace(Square()) == 24.0
    ensures Winding(Square()) == Success(true)
  {
    ShoelaceClosed(Square());
  }

  /** The same rectangle listed clockwise is reported clockwise. */
  lemma {:induction false} ClockwiseSquare()
    ensures Winding([Vec3(0.0, 0.0, 0.0), Vec3(0.0, 3.0, 0.0), Vec3(4.0, 3.0, 0.0), Vec3(4.0, 0.0, 0.0)]) == Success(false)
  {
    ShoelaceClosed([Vec3(0.0, 0.0, 0.0), Vec3(0.0, 3.0, 0.0), Vec3(4.0, 3.0, 0.0), Vec3(4.0, 0.0, 0.0)]);
  }

  /** Three collinear points are degenerate. */
  lemma {:induction false} CollinearIsDegenerate()
    ensures Winding([Vec3(0.0, 0.0, 0.0), Vec3(1.0, 0.0, 0.0), Vec3(2.0, 0.0, 0.0)]) == Failure(DegeneratePolygon)
  {
    ShoelaceClosed([Vec3(0.0, 0.0, 0.0), Vec3(1.0, 0.0, 0.0), Vec3(2.0, 0.0, 0.0)]);
  }
}
