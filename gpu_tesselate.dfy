/**
 * Fan triangulation on the GPU (src/gpu-tesselate.ts): the unique boundary
 * points are flattened into a u32 vertex buffer and the `create_indices`
 * kernel writes the triangle (0, t + 1, t + 2) for every triangle id t below
 * the triangle count n - 2.
 */
module GpuTesselate {
  import opened Wrappers
  import opened Vectors
  import SignedArea

  /** Bytes per u32 (`BYTE_SIZE`). */
  const ByteSize: nat := 4

  /** Threads per workgroup of `create_indices`. */
  const WorkgroupSize: nat := 64

  /** `dispatchWorkgroups(64)`: a fixed number of workgroups whatever the polygon. */
  const FixedWorkgroups: nat := 64

  /** 2^32. */
  const U32Modulus: nat := 0x1_0000_0000

  /** Stores into a `Uint32Array`: truncate toward zero, then reduce modulo 2^32. */
  function ToUint32(v: real): (r: nat)
    ensures r < U32Modulus
  {
    var t: int := if v >= 0.0 then v.Floor else -((-v).Floor);
    t % U32Modulus
  }

  /** Integral coordinates in [0, 2^32) are stored unchanged. */
  lemma {:induction false} ToUint32Exact(k: nat)
    requires k < U32Modulus
    ensures ToUint32(k as real) == k
  {
  }

  /** Negative coordinates wrap around: -1 is stored as 2^32 - 1, and -0.5 truncates to 0. */
  lemma {:induction false} ToUint32Wraps()
    ensures ToUint32(-1.0) == U32Modulus - 1
    ensures ToUint32(-0.5) == 0
    ensures ToUint32(2.75) == 2
  {
  }

  /** `uniquePoints.flat()`: x, y, z of each point in order. */
  function FlatCoords(pts: seq<Vec3>): (r: seq<real>)
    ensures |r| == 3 * |pts|
  {
    if pts == [] then [] else [pts[0].x, pts[0].y, pts[0].z] + FlatCoords(pts[1..])
  }

  /** Flattening keeps the order: entry 3i + k is coordinate k of point i. */
  lemma {:induction false} FlatCoordsAt(pts: seq<Vec3>, i: nat, k: nat)
    requires i < |pts| && k < 3
    ensures FlatCoords(pts)[3 * i + k] == Coord(pts[i], k)
  {
    if i > 0 {
      FlatCoordsAt(pts[1..], i - 1, k);
      assert FlatCoords(pts) == [pts[0].x, pts[0].y, pts[0].z] + FlatCoords(pts[1..]);
    }
  }

  /** The `forEach` copying the flat coordinates into a new `Uint32Array`. */
  method ToUint32Array(values: seq<real>) returns (out: seq<nat>)
    ensures |out| == |values|
    ensures forall i | 0 <= i < |values| :: out[i] == ToUint32(values[i])
  {
    var buffer := new nat[|values|](_ => 0);
    var index := 0;
    while index < |values|
      invariant 0 <= index <= |values|
      invariant forall i | 0 <= i < index :: buffer[i] == ToUint32(values[i])
    {
      buffer[index] := ToUint32(values[index]);
      index := index + 1;
    }
    out := buffer[..];
  }

  // ---------------------------------------------------------------------------
  // The fan.

  /** Entry j of the fan: slot 3t holds 0, slot 3t + 1 holds t + 1, slot 3t + 2 holds t + 2. */
  function FanEntry(j: nat): (r: nat)
    ensures j % 3 == 0 ==> r == 0
    ensures j % 3 != 0 ==> j / 3 < r <= j / 3 + 2
  {
    var t := j / 3;
    if j % 3 == 0 then 0 else if j % 3 == 1 then t + 1 else t + 2
  }

  /** The full fan of `triangleCount` triangles. */
  function FanIndices(triangleCount: nat): (r: seq<nat>)
    ensures |r| == 3 * triangleCount
  {
    seq(3 * triangleCount, j requires 0 <= j < 3 * triangleCount => FanEntry(j))
  }

  /** Triangle t of the fan is (0, t + 1, t + 2). */
  lemma {:induction false} FanTriangle(triangleCount: nat, t: nat)
    requires t < triangleCount
    ensures FanIndices(triangleCount)[3 * t] == 0
    ensures FanIndices(triangleCount)[3 * t + 1] == t + 1
    ensures FanIndices(triangleCount)[3 * t + 2] == t + 2
  {
  }

  /** Every index of the fan names one of the n = triangleCount + 2 points, and each triangle's three are distinct. */
  lemma {:induction false} FanWellFormed(triangleCount: nat)
    ensures forall j | 0 <= j < 3 * triangleCount :: FanIndices(triangleCount)[j] < triangleCount + 2
    ensures forall t | 0 <= t < triangleCount ::
      var f := FanIndices(triangleCount);
      f[3 * t] != f[3 * t + 1] && f[3 * t + 1] != f[3 * t + 2] && f[3 * t] != f[3 * t + 2]
  {
    forall t | 0 <= t < triangleCount
      ensures var f := FanIndices(triangleCount);
              f[3 * t] != f[3 * t + 1] && f[3 * t + 1] != f[3 * t + 2] && f[3 * t] != f[3 * t + 2]
    {
      FanTriangle(triangleCount, t);
    }
  }

  /** Every one of the n >= 3 points is a corner of some fan triangle. */
  lemma {:induction false} FanCoversEveryPoint(triangleCount: nat, v: nat)
    requires 1 <= triangleCount && v < triangleCount + 2
    ensures exists j | 0 <= j < 3 * triangleCount :: FanIndices(triangleCount)[j] == v
  {
    if v == 0 {
      FanTriangle(triangleCount, 0);
    } else if v == triangleCount + 1 {
      FanTriangle(triangleCount, triangleCount - 1);
      assert FanIndices(triangleCount)[3 * (triangleCount - 1) + 2] == v;
    } else {
      FanTriangle(triangleCount, v - 1);
      assert FanIndices(triangleCount)[3 * (v - 1) + 1] == v;
    }
  }

  /** Every entry of an index buffer names one of `n` points. */
  predicate IndicesIn(idx: seq<nat>, n: nat) {
    forall j | 0 <= j < |idx| :: idx[j] < n
  }

  /** Sum of the shoelace sums of the first `k` triangles listed in an index buffer. */
  function IndexedArea(pts: seq<Vec3>, idx: seq<nat>, k: nat): real
    requires 3 * k <= |idx| && IndicesIn(idx, |pts|)
  {
    if k == 0 then 0.0
    else IndexedArea(pts, idx, k - 1)
         + SignedArea.Shoelace([pts[idx[3 * (k - 1)]], pts[idx[3 * (k - 1) + 1]], pts[idx[3 * (k - 1) + 2]]])
  }

  /** Sum of the shoelace sums of the fan triangles (p0, p(t+1), p(t+2)) for t < k. */
  function FanArea(pts: seq<Vec3>, k: nat): real
    requires k + 2 <= |pts|
  {
    if k == 0 then 0.0 else FanArea(pts, k - 1) + SignedArea.Shoelace([pts[0], pts[k], pts[k + 1]])
  }

  /** Triangle `t` of the index buffer is the fan triangle (0, t + 1, t + 2). */
  predicate ListsFanTriangle(idx: seq<nat>, t: nat) {
    3 * t + 2 < |idx| && idx[3 * t] == 0 && idx[3 * t + 1] == t + 1 && idx[3 * t + 2] == t + 2
  }

  /** Any index buffer whose first k triangles are the fan triangles has the fan's area over them. */
  lemma {:induction false} FanListedArea(pts: seq<Vec3>, idx: seq<nat>, k: nat)
    requires 3 * k <= |idx| && k + 2 <= |pts| && IndicesIn(idx, |pts|)
    requires forall t | 0 <= t < k :: ListsFanTriangle(idx, t)
    ensures IndexedArea(pts, idx, k) == FanArea(pts, k)
  {
    if k > 0 {
      var t := k - 1;
      FanListedArea(pts, idx, t);
      assert ListsFanTriangle(idx, t);
      assert [pts[idx[3 * t]], pts[idx[3 * t + 1]], pts[idx[3 * t + 2]]] == [pts[0], pts[k], pts[k + 1]];
    }
  }

  /** The index buffer of the fan lists exactly the fan triangles. */
  lemma {:induction false} FanIndicesArea(pts: seq<Vec3>, m: nat, k: nat)
    requires k <= m && m + 2 <= |pts|
    ensures IndicesIn(FanIndices(m), |pts|)
    ensures IndexedArea(pts, FanIndices(m), k) == FanArea(pts, k)
  {
    FanWellFormed(m);
    forall t | 0 <= t < k
      ensures ListsFanTriangle(FanIndices(m), t)
    {
      FanTriangle(m, t);
    }
    FanListedArea(pts, FanIndices(m), k);
  }

  /** The first k fan triangles cover the open chain p0 .. p(k+1) closed back to p0. */
  lemma {:induction false} FanAreaPrefix(pts: seq<Vec3>, k: nat)
    requires k + 2 <= |pts|
    ensures FanArea(pts, k) == SignedArea.ChainSum(pts[..k + 2]) + CrossXY(pts[k + 1], pts[0])
  {
    if k == 0 {
      assert pts[..2][1..] == [pts[1]];
    } else {
      var a, b, c := pts[0], pts[k], pts[k + 1];
      var s := pts[..k + 1];
      FanAreaPrefix(pts, k - 1);
      SignedArea.TriangleShoelace(a, b, c);
      CrossXYAntisymmetric(a, b);
      assert s[|s| - 1] == b;
      assert s + [c] == pts[..k + 2];
      SignedArea.ChainSumAppend(s, c);
      calc {
        FanArea(pts, k);
        FanArea(pts, k - 1) + SignedArea.Shoelace([a, b, c]);
        (SignedArea.ChainSum(s) + CrossXY(b, a)) + (CrossXY(a, b) + CrossXY(b, c) + CrossXY(c, a));
        SignedArea.ChainSum(s) + CrossXY(b, c) + CrossXY(c, a);
        SignedArea.ChainSum(pts[..k + 2]) + CrossXY(c, a);
      }
    }
  }

  /** The signed areas of the n - 2 fan triangles add up to the signed area of the polygon. */
  lemma {:induction false} FanPreservesArea(pts: seq<Vec3>)
    requires |pts| >= 2
    ensures IndicesIn(FanIndices(|pts| - 2), |pts|)
    ensures IndexedArea(pts, FanIndices(|pts| - 2), |pts| - 2) == SignedArea.Shoelace(pts)
  {
    var m := |pts| - 2;
    FanIndicesArea(pts, m, m);
    FanAreaPrefix(pts, m);
    assert pts[..m + 2] == pts;
    SignedArea.ShoelaceClosed(pts);
    assert FanArea(pts, m) == SignedArea.Shoelace(pts);
  }

  // ---------------------------------------------------------------------------
  // The kernel and its dispatch.

  /** The index buffer after invocations 0 .. invocations - 1 of `create_indices`. */
  function KernelOutput(before: seq<nat>, triangleCount: nat, invocations: nat): (r: seq<nat>)
    requires 3 * triangleCount <= |before|
    ensures |r| == |before|
  {
    seq(|before|, j requires 0 <= j < |before| =>
      if j / 3 < triangleCount && j / 3 < invocations then FanEntry(j) else before[j])
  }

  /** One dispatch of `create_indices`: invocation t < triangleCount writes triangle t, the others return. */
  method FanKernel(indices: array<nat>, triangleCount: nat, invocations: nat)
    requires 3 * triangleCount <= indices.Length
    modifies indices
    ensures indices[..] == KernelOutput(old(indices[..]), triangleCount, invocations)
  {
    ghost var before := indices[..];
    var id := 0;
    while id < invocations
      invariant 0 <= id <= invocations
      invariant forall j | 0 <= j < indices.Length ::
        indices[j] == if j / 3 < triangleCount && j / 3 < id then FanEntry(j) else before[j]
    {
      if id < triangleCount {
        var i := id + 1;
        var base := id * 3;
        indices[base + 0] := 0;
        indices[base + 1] := i;
        indices[base + 2] := i + 1;
      }
      id := id + 1;
    }
    assert indices[..] == KernelOutput(before, triangleCount, invocations);
  }

  /** Enough invocations turn a zeroed buffer of the exact size into the full fan. */
  lemma {:induction false} FullDispatchGivesFan(triangleCount: nat, invocations: nat)
    requires triangleCount <= invocations
    ensures KernelOutput(seq(3 * triangleCount, _ => 0), triangleCount, invocations) == FanIndices(triangleCount)
  {
  }

  /** Why `gpuTesselate` throws: a negative `indexCount * 4` buffer size. */
  datatype TesselateError = NegativeBufferSize(size: int)

  /**
   * `gpuTesselate(uniquePoints)`: flatten the points, size the index buffer
   * for n - 2 triangles, dispatch 64 workgroups of 64, read the indices back.
   */
  method Tesselate(uniquePoints: seq<Vec3>) returns (r: Result<seq<nat>, TesselateError>)
    ensures r.Failure? <==> |uniquePoints| < 2
    ensures r.Success? ==> |r.value| == 3 * (|uniquePoints| - 2)
    ensures r.Success? ==> forall j | 0 <= j < |r.value| ::
      r.value[j] == if j / 3 < WorkgroupSize * FixedWorkgroups then FanEntry(j) else 0
    ensures r.Success? && |uniquePoints| - 2 <= WorkgroupSize * FixedWorkgroups ==>
      r.value == FanIndices(|uniquePoints| - 2)
  {
    var vertexBuffer := ToUint32Array(FlatCoords(uniquePoints));
    var triangleCount: int := |uniquePoints| - 2;
    var indexCount: int := triangleCount * 3;
    if indexCount * ByteSize < 0 {
      return Failure(NegativeBufferSize(indexCount * ByteSize));
    }
    var indices := new nat[indexCount](_ => 0);
    ghost var zeros := indices[..];
    FanKernel(indices, triangleCount, WorkgroupSize * FixedWorkgroups);
    r := Success(indices[..]);
    if triangleCount <= WorkgroupSize * FixedWorkgroups {
      assert zeros == seq(3 * triangleCount, _ => 0);
      FullDispatchGivesFan(triangleCount, WorkgroupSize * FixedWorkgroups);
    }
  }

  /** Past 4096 triangles the fixed dispatch leaves the rest of the buffer zero. */
  lemma {:induction false} FixedDispatchTruncates(triangleCount: nat, j: nat)
    requires j < 3 * triangleCount && j / 3 >= WorkgroupSize * FixedWorkgroups
    ensures KernelOutput(seq(3 * triangleCount, _ => 0), triangleCount, WorkgroupSize * FixedWorkgroups)[j] == 0
  {
  }
}
