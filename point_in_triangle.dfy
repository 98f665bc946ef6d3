/**
 * Inclusive-epsilon point-in-triangle test (src/point-in-triangle.ts): points
 * and triangle vertices are padded to four components, and the kernel reports
 * 1 when the three edge cross products are all at least -1e-12.
 */
module PointInTriangle {
  import opened Wrappers
  import opened Vectors

  /** A padded point as laid out in the storage buffers: x, y, z and a zero pad. */
  datatype Point4 = Point4(x: real, y: real, z: real, pad: real)

  /** Thrown as "Invalid point dimension: <length>". */
  datatype PitError = InvalidPointDimension(length: nat)

  /** The kernel's tolerance, 1e-12. */
  const Epsilon: real := 0.000000000001

  /** Pads a 2D point with (0, 0) and a 3D point with 0; any other length throws. */
  function Normalize(p: seq<real>): (r: Result<Point4, PitError>)
    ensures r.Success? <==> |p| == 2 || |p| == 3
    ensures r.Failure? ==> r.error == InvalidPointDimension(|p|)
    ensures r.Success? ==> r.value.pad == 0.0 && (|p| == 2 ==> r.value.z == 0.0)
  {
    if |p| == 2 then Success(Point4(p[0], p[1], 0.0, 0.0))
    else if |p| == 3 then Success(Point4(p[0], p[1], p[2], 0.0))
    else Failure(InvalidPointDimension(|p|))
  }

  /** The first `k` components of a padded point. */
  function Components(q: Point4, k: nat): seq<real>
    requires k <= 4
  {
    [q.x, q.y, q.z, q.pad][..k]
  }

  /** Padding loses nothing: the leading components give the input back. */
  lemma {:induction false} NormalizeRoundTrip(p: seq<real>)
    requires Normalize(p).Success?
    ensures Components(Normalize(p).value, |p|) == p
  {
  }

  /** `triangle.map(...)`: every vertex is padded; the first bad vertex throws. */
  function NormalizeAll(tri: seq<seq<real>>): (r: Result<seq<Point4>, PitError>)
    ensures r.Success? ==> |r.value| == |tri|
  {
    if tri == [] then Success([])
    else
      match Normalize(tri[0])
      case Failure(e) => Failure(e)
      case Success(q) =>
        match NormalizeAll(tri[1..])
        case Failure(e) => Failure(e)
        case Success(qs) => Success([q] + qs)
  }

  /** The padded triangle is the vertex-wise padding, and it exists exactly when every vertex has 2 or 3 coordinates. */
  lemma {:induction false} NormalizeAllVertexwise(tri: seq<seq<real>>)
    ensures NormalizeAll(tri).Success? <==> forall i | 0 <= i < |tri| :: |tri[i]| == 2 || |tri[i]| == 3
    ensures NormalizeAll(tri).Success? ==>
              forall i | 0 <= i < |tri| :: Normalize(tri[i]) == Success(NormalizeAll(tri).value[i])
  {
    if tri != [] {
      NormalizeAllVertexwise(tri[1..]);
      assert forall i | 1 <= i < |tri| :: tri[i] == tri[1..][i - 1];
    }
  }

  /** A failure reports the dimension of the first vertex that is neither 2D nor 3D. */
  lemma {:induction false} NormalizeAllFirstError(tri: seq<seq<real>>)
    requires NormalizeAll(tri).Failure?
    ensures exists i | 0 <= i < |tri| ::
              NormalizeAll(tri).error == InvalidPointDimension(|tri[i]|) && !(|tri[i]| == 2 || |tri[i]| == 3) &&
              forall j | 0 <= j < i :: |tri[j]| == 2 || |tri[j]| == 3
  {
    if Normalize(tri[0]).Success? {
      NormalizeAllFirstError(tri[1..]);
      var i :| 0 <= i < |tri[1..]| &&
              NormalizeAll(tri[1..]).error == InvalidPointDimension(|tri[1..][i]|) && !(|tri[1..][i]| == 2 || |tri[1..][i]| == 3) &&
              forall j | 0 <= j < i :: |tri[1..][j]| == 2 || |tri[1..][j]| == 3;
      assert forall j | 1 <= j < i + 1 :: tri[j] == tri[1..][j - 1];
      assert NormalizeAll(tri).error == InvalidPointDimension(|tri[i + 1]|);
    } else {
      assert NormalizeAll(tri).error == InvalidPointDimension(|tri[0]|);
    }
  }

  /** c1 = cross(b - a, p - a), on x and y only. */
  function C1(a: Point4, b: Point4, c: Point4, p: Point4): real {
    Cross(b.x - a.x, b.y - a.y, p.x - a.x, p.y - a.y)
  }

  /** c2 = cross(c - b, p - b). */
  function C2(a: Point4, b: Point4, c: Point4, p: Point4): real {
    Cross(c.x - b.x, c.y - b.y, p.x - b.x, p.y - b.y)
  }

  /** c3 = cross(a - c, p - c). */
  function C3(a: Point4, b: Point4, c: Point4, p: Point4): real {
    Cross(a.x - c.x, a.y - c.y, p.x - c.x, p.y - c.y)
  }

  /** The kernel's verdict for one triangle and one point: 1 (inside or on the boundary) or 0. */
  function Kernel(a: Point4, b: Point4, c: Point4, p: Point4): (r: nat)
    ensures r == 0 || r == 1
    ensures C1(a, b, c, p) >= 0.0 && C2(a, b, c, p) >= 0.0 && C3(a, b, c, p) >= 0.0 ==> r == 1
  {
    if C1(a, b, c, p) >= -Epsilon && C2(a, b, c, p) >= -Epsilon && C3(a, b, c, p) >= -Epsilon then 1 else 0
  }

  /** `pointInTriangle`: pad the triangle, then the point, and run the kernel on the first three vertices. */
  function IsPointInTriangle(point: seq<real>, triangle: seq<seq<real>>): (r: Result<nat, PitError>)
    requires |triangle| >= 3
    ensures r.Success? <==> NormalizeAll(triangle).Success? && Normalize(point).Success?
    ensures r.Success? ==> r.value == 0 || r.value == 1
    ensures r.Success? ==>
              var tri := NormalizeAll(triangle).value;
              r.value == Kernel(tri[0], tri[1], tri[2], Normalize(point).value)
  {
    match NormalizeAll(triangle)
    case Failure(e) => Failure(e)
    case Success(tri) =>
      match Normalize(point)
      case Failure(e) => Failure(e)
      case Success(p) => Success(Kernel(tri[0], tri[1], tri[2], p))
  }

  // ---------------------------------------------------------------------------
  // What the three cross products mean.

  /** Twice the signed area of the triangle (a, b, c); positive when counter-clockwise. */
  function Area2(a: Point4, b: Point4, c: Point4): real {
    Cross(b.x - a.x, b.y - a.y, c.x - a.x, c.y - a.y)
  }

  /** Whatever the point, the three edge values add up to twice the triangle's signed area. */
  lemma {:induction false} EdgeValuesSum(a: Point4, b: Point4, c: Point4, p: Point4)
    ensures C1(a, b, c, p) + C2(a, b, c, p) + C3(a, b, c, p) == Area2(a, b, c)
  {
  }

  /** A point with barycentric weights (u, v, w) has edge values (w, u, v) times twice the area. */
  lemma {:induction false} BarycentricEdgeValues(a: Point4, b: Point4, c: Point4, p: Point4, u: real, v: real, w: real)
    requires u + v + w == 1.0
    requires p.x == u * a.x + v * b.x + w * c.x && p.y == u * a.y + v * b.y + w * c.y
    ensures C1(a, b, c, p) == w * Area2(a, b, c)
    ensures C2(a, b, c, p) == u * Area2(a, b, c)
    ensures C3(a, b, c, p) == v * Area2(a, b, c)
  {
    var D := Area2(a, b, c);
    assert p.x - a.x == v * (b.x - a.x) + w * (c.x - a.x);
    assert p.y - a.y == v * (b.y - a.y) + w * (c.y - a.y);
    assert p.x - b.x == u * (a.x - b.x) + w * (c.x - b.x);
    assert p.y - b.y == u * (a.y - b.y) + w * (c.y - b.y);
    assert p.x - c.x == u * (a.x - c.x) + v * (b.x - c.x);
    assert p.y - c.y == u * (a.y - c.y) + v * (b.y - c.y);
    assert Cross(c.x - b.x, c.y - b.y, a.x - b.x, a.y - b.y) == D;
    assert Cross(a.x - c.x, a.y - c.y, b.x - c.x, b.y - c.y) == D;
  }

  /** In the plane, (P x C) B + (B x P) C == (B x C) P, read on one axis. */
  lemma {:induction false} PlaneIdentity(ux: real, uy: real, vx: real, vy: real, wx: real, wy: real)
    ensures (wx * vy - wy * vx) * ux + (ux * wy - uy * wx) * vx == (ux * vy - uy * vx) * wx
  {
  }

  lemma {:induction false} MulNonNegative(s: real, t: real)
    requires s >= 0.0 && t >= 0.0
    ensures s * t >= 0.0
  {
  }

  /**
   * Every point of a closed counter-clockwise (or flat) triangle, vertices and
   * edges included, is reported inside.
   */
  lemma {:induction false} ClosedTriangleInside(a: Point4, b: Point4, c: Point4, p: Point4, u: real, v: real, w: real)
    requires Area2(a, b, c) >= 0.0
    requires u >= 0.0 && v >= 0.0 && w >= 0.0 && u + v + w == 1.0
    requires p.x == u * a.x + v * b.x + w * c.x && p.y == u * a.y + v * b.y + w * c.y
    ensures Kernel(a, b, c, p) == 1
  {
    BarycentricEdgeValues(a, b, c, p, u, v, w);
    MulNonNegative(u, Area2(a, b, c));
    MulNonNegative(v, Area2(a, b, c));
    MulNonNegative(w, Area2(a, b, c));
  }

  /** The edge values, used as weights on (a, b, c), reproduce the point scaled by twice the area (x axis). */
  lemma {:induction false} WeightedVerticesX(a: Point4, b: Point4, c: Point4, p: Point4)
    ensures C2(a, b, c, p) * a.x + C3(a, b, c, p) * b.x + C1(a, b, c, p) * c.x == Area2(a, b, c) * p.x
  {
    var c1, c2, c3 := C1(a, b, c, p), C2(a, b, c, p), C3(a, b, c, p);
    EdgeValuesSum(a, b, c, p);
    // Relative to a: with U = b - a, V = c - a, W = p - a, c1 = U x W and c3 = W x V.
    var ux, uy, vx, vy, wx, wy := b.x - a.x, b.y - a.y, c.x - a.x, c.y - a.y, p.x - a.x, p.y - a.y;
    assert c1 == ux * wy - uy * wx;
    assert c3 == wx * vy - wy * vx;
    PlaneIdentity(ux, uy, vx, vy, wx, wy);
    assert c2 * a.x + c3 * b.x + c1 * c.x == (c1 + c2 + c3) * a.x + c3 * ux + c1 * vx;
  }

  /** The same identity on the y axis. */
  lemma {:induction false} WeightedVerticesY(a: Point4, b: Point4, c: Point4, p: Point4)
    ensures C2(a, b, c, p) * a.y + C3(a, b, c, p) * b.y + C1(a, b, c, p) * c.y == Area2(a, b, c) * p.y
  {
    var c1, c2, c3 := C1(a, b, c, p), C2(a, b, c, p), C3(a, b, c, p);
    EdgeValuesSum(a, b, c, p);
    var ux, uy, vx, vy, wx, wy := b.x - a.x, b.y - a.y, c.x - a.x, c.y - a.y, p.x - a.x, p.y - a.y;
    assert c1 == ux * wy - uy * wx;
    assert c3 == wx * vy - wy * vx;
    PlaneIdentity(uy, ux, vy, vx, wy, wx);
    assert c2 * a.y + c3 * b.y + c1 * c.y == (c1 + c2 + c3) * a.y + c3 * uy + c1 * vy;
  }

  lemma {:induction false} DivideThrough(k1: real, k2: real, k3: real, x1: real, x2: real, x3: real, d: real, q: real)
    requires d != 0.0
    requires k1 * x1 + k2 * x2 + k3 * x3 == d * q
    ensures (k1 / d) * x1 + (k2 / d) * x2 + (k3 / d) * x3 == q
  {
    assert (k1 / d) * x1 + (k2 / d) * x2 + (k3 / d) * x3 == (k1 * x1 + k2 * x2 + k3 * x3) / d;
  }

  /**
   * Conversely, for a counter-clockwise triangle, non-negative edge values make
   * the point a convex combination of the vertices, with weights (c2, c3, c1)
   * divided by twice the area.
   */
  lemma {:induction false} NonNegativeEdgeValuesAreConvexCombination(a: Point4, b: Point4, c: Point4, p: Point4)
    requires Area2(a, b, c) > 0.0
    requires C1(a, b, c, p) >= 0.0 && C2(a, b, c, p) >= 0.0 && C3(a, b, c, p) >= 0.0
    ensures var D := Area2(a, b, c);
            var u, v, w := C2(a, b, c, p) / D, C3(a, b, c, p) / D, C1(a, b, c, p) / D;
            u >= 0.0 && v >= 0.0 && w >= 0.0 && u + v + w == 1.0 &&
            p.x == u * a.x + v * b.x + w * c.x && p.y == u * a.y + v * b.y + w * c.y
  {
    var D := Area2(a, b, c);
    var c1, c2, c3 := C1(a, b, c, p), C2(a, b, c, p), C3(a, b, c, p);
    EdgeValuesSum(a, b, c, p);
    WeightedVerticesX(a, b, c, p);
    WeightedVerticesY(a, b, c, p);
    DivideThrough(c2, c3, c1, a.x, b.x, c.x, D, p.x);
    DivideThrough(c2, c3, c1, a.y, b.y, c.y, D, p.y);
    assert c2 / D + c3 / D + c1 / D == (c1 + c2 + c3) / D;
  }

  /** Each vertex of a counter-clockwise triangle is reported inside. */
  lemma {:induction false} VerticesInside(a: Point4, b: Point4, c: Point4)
    requires Area2(a, b, c) >= 0.0
    ensures Kernel(a, b, c, a) == 1 && Kernel(a, b, c, b) == 1 && Kernel(a, b, c, c) == 1
  {
    ClosedTriangleInside(a, b, c, a, 1.0, 0.0, 0.0);
    ClosedTriangleInside(a, b, c, b, 0.0, 1.0, 0.0);
    ClosedTriangleInside(a, b, c, c, 0.0, 0.0, 1.0);
  }

  /** A point on edge BC (at parameter t from B) of a counter-clockwise triangle is reported inside. */
  lemma {:induction false} EdgePointInside(a: Point4, b: Point4, c: Point4, t: real, p: Point4)
    requires Area2(a, b, c) >= 0.0
    requires 0.0 <= t <= 1.0
    requires p.x == b.x + t * (c.x - b.x) && p.y == b.y + t * (c.y - b.y)
    ensures Kernel(a, b, c, p) == 1
  {
    ClosedTriangleInside(a, b, c, p, 0.0, 1.0 - t, t);
  }

  /** Listing the triangle from another vertex does not change the verdict. */
  lemma {:induction false} RotationInvariant(a: Point4, b: Point4, c: Point4, p: Point4)
    ensures Kernel(a, b, c, p) == Kernel(b, c, a, p)
  {
    assert C1(b, c, a, p) == C2(a, b, c, p);
    assert C2(b, c, a, p) == C3(a, b, c, p);
    assert C3(b, c, a, p) == C1(a, b, c, p);
  }

  /** Only x and y enter the test: z and the pad of every input are ignored. */
  lemma {:induction false} OnlyXYMatter(a: Point4, b: Point4, c: Point4, p: Point4, a': Point4, b': Point4, c': Point4, p': Point4)
    requires a.x == a'.x && a.y == a'.y && b.x == b'.x && b.y == b'.y
    requires c.x == c'.x && c.y == c'.y && p.x == p'.x && p.y == p'.y
    ensures Kernel(a, b, c, p) == Kernel(a', b', c', p')
  {
  }
}
