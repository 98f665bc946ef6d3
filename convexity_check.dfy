/**
 * The `classifyPoints` compute kernel of src/convexity-check.ts: every vertex
 * of a closed loop is classified from its cyclic neighbours by the sign of a
 * 2D cross product and the verdict is written into its own slot of a u32
 * storage buffer. One dispatch is modelled as a loop over the invocation ids.
 */
module ConvexityCheck {
  import opened Wrappers
  import opened Vectors
  import opened Cyclic
  import SignedArea

  /** The three verdict codes of the kernel; `Collinear` is declared but never written. */
  const Reflex: nat := 0
  const Convex: nat := 1
  const Collinear: nat := 2

  /** Threads per workgroup of the kernel. */
  const WorkgroupSize: nat := 32

  /** Largest u32: what `0u - 1u` wraps to. */
  const U32Max: nat := 0xFFFF_FFFF

  /**
   * What a storage-buffer read past the end returns. WGSL leaves this to the
   * implementation (zero, a clamped element, or any element of the buffer).
   */
  type OutOfRange = nat -> Vec3

  /** `pointsBuffer[j]`, with whatever the implementation returns past the end. */
  function Read(pts: seq<Vec3>, j: nat, oob: OutOfRange): (r: Vec3)
    ensures j < |pts| ==> r == pts[j]
  {
    if j < |pts| then pts[j] else oob(j)
  }

  /** `n - 1` evaluated on u32. */
  function WrappingPred(n: nat): nat {
    if n == 0 then U32Max else n - 1
  }

  /** The kernel's corner (A, B, C) for invocation `i`, branch for branch. */
  function Corner(pts: seq<Vec3>, i: nat, oob: OutOfRange): (r: (Vec3, Vec3, Vec3))
    ensures i < |pts| ==> r.1 == pts[i]
    ensures 2 <= |pts| && i < |pts| ==>
      r == (pts[PrevIndex(i, |pts|)], pts[i], pts[NextIndex(i, |pts|)])
  {
    var n := |pts|;
    if i == 0 then (Read(pts, WrappingPred(n), oob), Read(pts, i, oob), Read(pts, i + 1, oob))
    else if i == WrappingPred(n) then (Read(pts, i - 1, oob), Read(pts, i, oob), Read(pts, 0, oob))
    else (Read(pts, i - 1, oob), Read(pts, i, oob), Read(pts, i + 1, oob))
  }

  /** E1 = B - A, E2 = C - B and their cross product E1.x * E2.y - E1.y * E2.x. */
  function TurnOf(a: Vec3, b: Vec3, c: Vec3): (r: real)
    ensures a == b || b == c ==> r == 0.0
  {
    Cross(b.x - a.x, b.y - a.y, c.x - b.x, c.y - b.y)
  }

  /** The turn at vertex `i` of the closed loop, from its cyclic neighbours. */
  function Turn(pts: seq<Vec3>, i: nat): (r: real)
    requires i < |pts|
    ensures var n := |pts|; r == SignedArea.Shoelace([pts[PrevIndex(i, n)], pts[i], pts[NextIndex(i, n)]])
  {
    var n := |pts|;
    SignedArea.TriangleShoelace(pts[PrevIndex(i, n)], pts[i], pts[NextIndex(i, n)]);
    TurnOf(pts[PrevIndex(i, n)], pts[i], pts[NextIndex(i, n)])
  }

  /** The slot after the kernel's write: CONVEX on a left turn, REFLEX on a right turn, untouched when straight. */
  function Slot(turn: real, prior: nat): (r: nat)
    ensures r == Collinear ==> prior == Collinear && turn == 0.0
    ensures r != prior ==> (r == Convex && turn > 0.0) || (r == Reflex && turn < 0.0)
  {
    if turn > 0.0 then Convex else if turn < 0.0 then Reflex else prior
  }

  /** The whole buffer after invocations `0 .. invocations - 1` of the kernel (with the guard `i >= n`). */
  function KernelOutput(pts: seq<Vec3>, before: seq<nat>, invocations: nat): (r: seq<nat>)
    requires |pts| <= |before|
    ensures |r| == |before|
  {
    seq(|before|, j requires 0 <= j < |before| =>
      if j < invocations && j < |pts| then Slot(Turn(pts, j), before[j]) else before[j])
  }

  /** Invocation `i < n` computes the turn of the cyclic corner at `i`, whatever out-of-range reads return. */
  lemma {:induction false} CornerIsCyclic(pts: seq<Vec3>, i: nat, oob: OutOfRange)
    requires i < |pts|
    ensures var (a, b, c) := Corner(pts, i, oob); TurnOf(a, b, c) == Turn(pts, i)
  {
    if |pts| == 1 {
      // B - A is zero, so the out-of-range C does not matter.
      var (a, b, c) := Corner(pts, i, oob);
      assert a == b;
    }
  }

  /** One dispatch of the kernel over `invocations` ids, writing each vertex's own slot. */
  method ClassifyKernel(pts: seq<Vec3>, oob: OutOfRange, classified: array<nat>, invocations: nat)
    requires |pts| <= classified.Length
    modifies classified
    ensures classified[..] == KernelOutput(pts, old(classified[..]), invocations)
  {
    ghost var before := classified[..];
    var n := |pts|;
    var i := 0;
    while i < invocations
      invariant 0 <= i <= invocations
      invariant classified.Length == |before|
      invariant forall j | 0 <= j < classified.Length ::
        classified[j] == if j < i && j < n then Slot(Turn(pts, j), before[j]) else before[j]
    {
      if i < n {
        var (a, b, c) := Corner(pts, i, oob);
        var crossProduct := TurnOf(a, b, c);
        CornerIsCyclic(pts, i, oob);
        if crossProduct > 0.0 {
          classified[i] := Convex;
        } else if crossProduct < 0.0 {
          classified[i] := Reflex;
        }
      }
      i := i + 1;
    }
    assert classified[..] == KernelOutput(pts, before, invocations);
  }

  // ---------------------------------------------------------------------------
  // Properties of the kernel's output.

  /** A zero-filled buffer reads back 1 exactly at the vertices that turn left. */
  lemma {:induction false} ZeroBufferReadsBack(pts: seq<Vec3>, size: nat, invocations: nat, j: nat)
    requires |pts| <= size && |pts| <= invocations && j < size
    ensures KernelOutput(pts, seq(size, _ => Reflex), invocations)[j]
              == if j < |pts| && Turn(pts, j) > 0.0 then Convex else Reflex
  {
  }

  /** COLLINEAR is never written: a buffer free of it stays free of it. */
  lemma {:induction false} NeverCollinear(pts: seq<Vec3>, before: seq<nat>, invocations: nat)
    requires |pts| <= |before|
    requires forall j | 0 <= j < |before| :: before[j] != Collinear
    ensures forall j | 0 <= j < |before| :: KernelOutput(pts, before, invocations)[j] != Collinear
  {
  }

  /** Invocations past the last vertex change nothing. */
  lemma {:induction false} SurplusInvocationsInert(pts: seq<Vec3>, before: seq<nat>, invocations: nat)
    requires |pts| <= |before| && |pts| <= invocations
    ensures KernelOutput(pts, before, invocations) == KernelOutput(pts, before, |pts|)
  {
  }

  /** The turn of a corner is the sum of the three cross products around it. */
  lemma {:induction false} TurnOfExpands(a: Vec3, b: Vec3, c: Vec3)
    ensures TurnOf(a, b, c) == CrossXY(a, b) + CrossXY(b, c) + CrossXY(c, a)
  {
  }

  /** The turn at a vertex is the shoelace sum of the triangle (prev, vertex, next). */
  lemma {:induction false} TurnIsCornerShoelace(pts: seq<Vec3>, i: nat)
    requires i < |pts|
    ensures var n := |pts|;
            Turn(pts, i) == SignedArea.Shoelace([pts[PrevIndex(i, n)], pts[i], pts[NextIndex(i, n)]])
  {
    var n := |pts|;
    TurnOfExpands(pts[PrevIndex(i, n)], pts[i], pts[NextIndex(i, n)]);
    SignedArea.TriangleShoelace(pts[PrevIndex(i, n)], pts[i], pts[NextIndex(i, n)]);
  }

  /** Convex means the corner triangle winds counter-clockwise, reflex clockwise, unwritten degenerate. */
  lemma {:induction false} ClassificationIsCornerWinding(pts: seq<Vec3>, i: nat)
    requires i < |pts|
    ensures var n := |pts|;
            var w := SignedArea.Winding([pts[PrevIndex(i, n)], pts[i], pts[NextIndex(i, n)]]);
            && (Slot(Turn(pts, i), Collinear) == Convex <==> w == Success(true))
            && (Slot(Turn(pts, i), Collinear) == Reflex <==> w == Success(false))
            && (Slot(Turn(pts, i), Collinear) == Collinear <==> w.Failure?)
  {
    TurnIsCornerShoelace(pts, i);
  }

  /** Walking a corner backwards negates its turn. */
  lemma {:induction false} TurnOfReversed(a: Vec3, b: Vec3, c: Vec3)
    ensures TurnOf(c, b, a) == -TurnOf(a, b, c)
  {
    TurnOfExpands(a, b, c);
    TurnOfExpands(c, b, a);
  }

  /** In the reversed loop, the corner of vertex `i` has its neighbours swapped. */
  lemma {:induction false} ReversedCorner(pts: seq<Vec3>, i: nat)
    requires i < |pts|
    ensures var r, n, k := SignedArea.Reverse(pts), |pts|, |pts| - 1 - i;
      r[PrevIndex(k, n)] == pts[NextIndex(i, n)] && r[k] == pts[i] && r[NextIndex(k, n)] == pts[PrevIndex(i, n)]
  {
    var n := |pts|;
    var k := n - 1 - i;
    var before, after := PrevIndex(k, n), NextIndex(k, n);
    assert n - 1 - before == NextIndex(i, n) && n - 1 - after == PrevIndex(i, n);
    SignedArea.ReverseAt(pts, k);
    SignedArea.ReverseAt(pts, before);
    SignedArea.ReverseAt(pts, after);
  }

  /** Reversing the loop swaps left and right turns: vertex `i` becomes vertex `n - 1 - i` with the opposite turn. */
  lemma {:induction false} ReversalNegatesTurn(pts: seq<Vec3>, i: nat)
    requires i < |pts|
    ensures Turn(SignedArea.Reverse(pts), |pts| - 1 - i) == -Turn(pts, i)
  {
    var n := |pts|;
    ReversedCorner(pts, i);
    TurnOfReversed(pts[PrevIndex(i, n)], pts[i], pts[NextIndex(i, n)]);
  }

  /** Every vertex of the counter-clockwise 4-by-3 rectangle is convex. */
  lemma {:induction false} RectangleAllConvex()
    ensures forall i | 0 <= i < 4 :: Turn(SignedArea.Square(), i) == 12.0
  {
    var sq := SignedArea.Square();
    forall i | 0 <= i < 4
      ensures Turn(sq, i) == 12.0
    {
      if i == 0 {
        assert Turn(sq, 0) == TurnOf(sq[3], sq[0], sq[1]);
      } else if i == 1 {
        assert Turn(sq, 1) == TurnOf(sq[0], sq[1], sq[2]);
      } else if i == 2 {
        assert Turn(sq, 2) == TurnOf(sq[1], sq[2], sq[3]);
      } else {
        assert Turn(sq, 3) == TurnOf(sq[2], sq[3], sq[0]);
      }
    }
  }

  // ---------------------------------------------------------------------------
  // Host side: upload, dispatch, read back.

  /** `points.flat()`: the coordinate lists concatenated in order. */
  function Flatten(points: seq<seq<real>>): (r: seq<real>)
    ensures points == [] ==> r == []
  {
    if points == [] then [] else points[0] + Flatten(points[1..])
  }

  /** Three coordinates per point flatten to three floats per point. */
  lemma {:induction false} FlattenLength(points: seq<seq<real>>, width: nat)
    requires forall i | 0 <= i < |points| :: |points[i]| == width
    ensures |Flatten(points)| == width * |points|
  {
    if points != [] {
      FlattenLength(points[1..], width);
    }
  }

  /**
   * How the shader sees a float buffer: `array<Point>` with `Point { position: vec3<f32> }`
   * has a 16-byte stride, so point k is floats 4k, 4k+1, 4k+2 and `arrayLength` is
   * the byte length over 16.
   */
  function ShaderView(flat: seq<real>): (r: seq<Vec3>)
    ensures |r| == |flat| / 4
  {
    seq(|flat| / 4, k requires 0 <= k < |flat| / 4 => Vec3(flat[4 * k], flat[4 * k + 1], flat[4 * k + 2]))
  }

  /** `Math.ceil(count / 32)` workgroups of 32 threads. */
  function DispatchSize(count: nat): (r: nat)
    ensures r >= count && r < count + WorkgroupSize
    ensures r % WorkgroupSize == 0
  {
    ((count + WorkgroupSize - 1) / WorkgroupSize) * WorkgroupSize
  }

  /**
   * `classifyPoints` as written: upload the packed floats, allocate a zeroed u32
   * buffer of as many slots as there are floats, dispatch the kernel with its
   * guard `i > n`, read the buffer back. Slot n holds whatever invocation n
   * wrote from its out-of-range reads.
   */
  method ClassifyPoints(points: seq<seq<real>>, oob: OutOfRange) returns (result: seq<nat>)
    ensures |result| == |Flatten(points)|
    ensures forall j | 0 <= j < |result| ::
      var view := ShaderView(Flatten(points));
      result[j] == if j < |view| && Turn(view, j) > 0.0 then Convex
                   else if j == |view| && CornerTurn(view, j, oob) > 0.0 then Convex
                   else Reflex
  {
    var flat := Flatten(points);
    var view := ShaderView(flat);
    var classified := new nat[|flat|](_ => 0);
    ghost var zeros := classified[..];
    assert zeros == seq(|flat|, _ => Reflex);
    ClassifyKernelAsWritten(view, oob, classified, DispatchSize(|flat|));
    result := classified[..];
    forall j | 0 <= j < |result|
      ensures result[j] == if j < |view| && Turn(view, j) > 0.0 then Convex
                           else if j == |view| && CornerTurn(view, j, oob) > 0.0 then Convex
                           else Reflex
    {
      if j < |view| {
        CornerIsCyclic(view, j, oob);
      }
    }
  }

  // ---------------------------------------------------------------------------
  // The packed upload against the shader's 16-byte stride.

  /** Four 3D points packed as the host uploads them: 12 floats. */
  function PackedSquare(): seq<seq<real>> {
    [[0.0, 0.0, 0.0], [4.0, 0.0, 0.0], [4.0, 3.0, 0.0], [0.0, 3.0, 0.0]]
  }

  /**
   * As written, the shader sees 3 points instead of 4, and its point 1 is
   * (y1, z1, x2) of the input rather than point 1.
   */
  lemma {:induction false} PackedUploadMisreads()
    ensures |Flatten(PackedSquare())| == 12
    ensures |ShaderView(Flatten(PackedSquare()))| == 3
    ensures ShaderView(Flatten(PackedSquare()))[1] == Vec3(0.0, 0.0, 4.0)
    ensures ShaderView(Flatten(PackedSquare()))[1] != SignedArea.Square()[1]
  {
    var s := PackedSquare();
    assert s[1..][1..][1..][1..] == [];
    assert Flatten(s) == [0.0, 0.0, 0.0, 4.0, 0.0, 0.0, 4.0, 3.0, 0.0, 0.0, 3.0, 0.0];
  }

  /** Each point padded to the shader's stride: x, y, z, 0. */
  function Padded(points: seq<Vec3>): (r: seq<real>)
    ensures |r| == 4 * |points|
  {
    if points == [] then []
    else [points[0].x, points[0].y, points[0].z, 0.0] + Padded(points[1..])
  }

  lemma {:induction false} PaddedAt(points: seq<Vec3>, k: nat)
    requires k < |points|
    ensures Padded(points)[4 * k] == points[k].x
    ensures Padded(points)[4 * k + 1] == points[k].y
    ensures Padded(points)[4 * k + 2] == points[k].z
  {
    if k > 0 {
      PaddedAt(points[1..], k - 1);
      assert Padded(points) == [points[0].x, points[0].y, points[0].z, 0.0] + Padded(points[1..]);
    }
  }

  /** With the padded upload the shader sees exactly the input points. */
  lemma {:induction false} PaddedUploadRoundTrip(points: seq<Vec3>)
    ensures ShaderView(Padded(points)) == points
  {
    forall k | 0 <= k < |points|
      ensures ShaderView(Padded(points))[k] == points[k]
    {
      PaddedAt(points, k);
    }
  }

  /**
   * `classifyPoints` corrected twice: the padded upload, and the kernel with the
   * guard `i >= n` (`ClassifyKernel`) instead of `i > n`. Slot j (j < n) reads 1
   * exactly when vertex j of the input loop turns left; all other slots read 0.
   */
  method ClassifyVertices(points: seq<Vec3>, oob: OutOfRange) returns (result: seq<nat>)
    ensures |result| == 4 * |points|
    ensures forall j | 0 <= j < |result| ::
      result[j] == if j < |points| && Turn(points, j) > 0.0 then Convex else Reflex
  {
    var flat := Padded(points);
    PaddedUploadRoundTrip(points);
    var classified := new nat[|flat|](_ => 0);
    ghost var zeros := classified[..];
    assert zeros == seq(|flat|, _ => Reflex);
    ClassifyKernel(points, oob, classified, DispatchSize(|flat|));
    result := classified[..];
    forall j | 0 <= j < |result|
      ensures result[j] == if j < |points| && Turn(points, j) > 0.0 then Convex else Reflex
    {
      ZeroBufferReadsBack(points, |flat|, DispatchSize(|flat|), j);
    }
  }

  // ---------------------------------------------------------------------------
  // The guard `i > pointsBufferLength` as written.

  /** The guard as written returns only for `i > n`. */
  predicate AsWrittenGuardPasses(i: nat, n: nat) {
    !(i > n)
  }

  /** The turn invocation `i` computes from the corner it reads. */
  function CornerTurn(pts: seq<Vec3>, i: nat, oob: OutOfRange): real {
    var (a, b, c) := Corner(pts, i, oob);
    TurnOf(a, b, c)
  }

  /** The verdict invocation `i` would write if it gets past the guard. */
  function InvocationWrite(pts: seq<Vec3>, i: nat, oob: OutOfRange): Option<nat> {
    var t := CornerTurn(pts, i, oob);
    if t > 0.0 then Some(Convex) else if t < 0.0 then Some(Reflex) else None
  }

  /** The whole buffer after invocations `0 .. invocations - 1` of the kernel as written, with the guard `i > n`. */
  function AsWrittenOutput(pts: seq<Vec3>, before: seq<nat>, invocations: nat, oob: OutOfRange): (r: seq<nat>)
    ensures |r| == |before|
  {
    seq(|before|, j requires 0 <= j < |before| =>
      if j < invocations && AsWrittenGuardPasses(j, |pts|) then Slot(CornerTurn(pts, j, oob), before[j]) else before[j])
  }

  /**
   * One dispatch of the kernel as written: invocation n passes the guard and
   * reads past the end; a store past the end of the buffer is dropped.
   */
  method ClassifyKernelAsWritten(pts: seq<Vec3>, oob: OutOfRange, classified: array<nat>, invocations: nat)
    modifies classified
    ensures classified[..] == AsWrittenOutput(pts, old(classified[..]), invocations, oob)
  {
    ghost var before := classified[..];
    var n := |pts|;
    var i := 0;
    while i < invocations
      invariant 0 <= i <= invocations
      invariant classified.Length == |before|
      invariant forall j | 0 <= j < classified.Length ::
        classified[j] == if j < i && AsWrittenGuardPasses(j, n) then Slot(CornerTurn(pts, j, oob), before[j]) else before[j]
    {
      if !(i > n) {
        var (a, b, c) := Corner(pts, i, oob);
        var crossProduct := TurnOf(a, b, c);
        if i < classified.Length {
          if crossProduct > 0.0 {
            classified[i] := Convex;
          } else if crossProduct < 0.0 {
            classified[i] := Reflex;
          }
        }
      }
      i := i + 1;
    }
    assert classified[..] == AsWrittenOutput(pts, before, invocations, oob);
  }

  /** The kernel as written and the corrected one differ in slot n at most. */
  lemma {:induction false} AsWrittenDiffersOnlyAtEnd(pts: seq<Vec3>, before: seq<nat>, invocations: nat, oob: OutOfRange)
    requires |pts| <= |before|
    ensures forall j | 0 <= j < |before| && j != |pts| ::
      AsWrittenOutput(pts, before, invocations, oob)[j] == KernelOutput(pts, before, invocations)[j]
  {
    forall j | 0 <= j < |before| && j != |pts|
      ensures AsWrittenOutput(pts, before, invocations, oob)[j] == KernelOutput(pts, before, invocations)[j]
    {
      if j < |pts| {
        CornerIsCyclic(pts, j, oob);
      }
    }
  }

  function Triangle(): seq<Vec3> {
    [Vec3(0.0, 0.0, 0.0), Vec3(1.0, 0.0, 0.0), Vec3(0.0, 1.0, 0.0)]
  }

  /** Reads past the end that return two different buffer elements. */
  function ScatteredReads(j: nat): Vec3 {
    if j == 3 then Vec3(0.0, 0.0, 0.0) else Vec3(1.0, 0.0, 0.0)
  }

  /**
   * As written, invocation n passes the guard and, when out-of-range reads
   * return different elements, writes CONVEX into slot n, outside the loop.
   */
  lemma {:induction false} AsWrittenWritesPastEnd()
    ensures AsWrittenGuardPasses(|Triangle()|, |Triangle()|)
    ensures InvocationWrite(Triangle(), |Triangle()|, ScatteredReads) == Some(Convex)
    ensures AsWrittenOutput(Triangle(), [Reflex, Reflex, Reflex, Reflex], 4, ScatteredReads)[3] == Convex
    ensures KernelOutput(Triangle(), [Reflex, Reflex, Reflex, Reflex], 4)[3] == Reflex
  {
    var t := Triangle();
    var zeros := [Reflex, Reflex, Reflex, Reflex];
    assert Corner(t, 3, ScatteredReads) == (t[2], Vec3(0.0, 0.0, 0.0), Vec3(1.0, 0.0, 0.0));
    assert TurnOf(t[2], Vec3(0.0, 0.0, 0.0), Vec3(1.0, 0.0, 0.0)) == 1.0;
    AsWrittenSlotAtEnd(t, zeros, 4, ScatteredReads);
    KernelSlotAtEnd(t, zeros, 4);
  }

  /** Under the corrected guard, slot n keeps what it held. */
  lemma {:induction false} KernelSlotAtEnd(pts: seq<Vec3>, before: seq<nat>, invocations: nat)
    requires |pts| < |before|
    ensures KernelOutput(pts, before, invocations)[|pts|] == before[|pts|]
  {
  }

  /** Under the guard as written, slot n holds what invocation n computed from its out-of-range reads. */
  lemma {:induction false} AsWrittenSlotAtEnd(pts: seq<Vec3>, before: seq<nat>, invocations: nat, oob: OutOfRange)
    requires |pts| < |before| && |pts| < invocations
    ensures AsWrittenOutput(pts, before, invocations, oob)[|pts|] == Slot(CornerTurn(pts, |pts|, oob), before[|pts|])
  {
  }

  /** When every out-of-range read returns the same value (zero or a clamp), invocation n writes nothing. */
  lemma {:induction false} UniformReadsMakeGuardHarmless(pts: seq<Vec3>, v: Vec3)
    ensures InvocationWrite(pts, |pts|, _ => v) == None
  {
  }

  /** With uniform out-of-range reads the kernel as written leaves what the corrected kernel leaves. */
  lemma {:induction false} UniformReadsAsCorrected(pts: seq<Vec3>, before: seq<nat>, invocations: nat, v: Vec3)
    requires |pts| <= |before|
    ensures AsWrittenOutput(pts, before, invocations, _ => v) == KernelOutput(pts, before, invocations)
  {
    AsWrittenDiffersOnlyAtEnd(pts, before, invocations, _ => v);
    UniformReadsMakeGuardHarmless(pts, v);
    if |pts| < |before| {
      assert CornerTurn(pts, |pts|, _ => v) == 0.0;
    }
  }
}
