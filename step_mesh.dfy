/**
 * `parseStepToMesh`: the walk from the first face of a parsed STEP model to
 * the points of its outer boundary, the close-and-drop of the last point, the
 * flat position buffer, and the `main_indices` fan kernel of `tesselate`.
 */
module StepMesh {
  import opened Wrappers
  import opened Vectors
  import opened StepEntities
  import opened StepReader
  import SignedArea
  import GpuTesselate

  // ---------------------------------------------------------------------------
  // Point equality.

  /** The per-axis tolerance of `vec3Equal`. */
  const Tolerance: real := 0.000000001

  function Abs(v: real): (r: real)
    ensures r >= 0.0 && (r == v || r == -v)
  {
    if v < 0.0 then -v else v
  }

  /** `vec3Equal(a, b)`: the points differ by less than 1e-9 on every axis. */
  predicate Vec3Equal(a: Vec3, b: Vec3)
    ensures a == b ==> Vec3Equal(a, b)
  {
    Abs(a.x - b.x) < Tolerance && Abs(a.y - b.y) < Tolerance && Abs(a.z - b.z) < Tolerance
  }

  /** `vec3Equal` is reflexive and symmetric, and equal points are `vec3Equal`. */
  lemma {:induction false} Vec3EqualIsTolerance(a: Vec3, b: Vec3)
    ensures Vec3Equal(a, a)
    ensures Vec3Equal(a, b) <==> Vec3Equal(b, a)
  {
    assert Abs(a.x - b.x) == Abs(b.x - a.x);
    assert Abs(a.y - b.y) == Abs(b.y - a.y);
    assert Abs(a.z - b.z) == Abs(b.z - a.z);
  }

  /** Distinct points can be `vec3Equal`, and `vec3Equal` is not transitive. */
  lemma {:induction false} Vec3EqualNotTransitive()
    ensures Vec3(0.0, 0.0, 0.0) != Vec3(0.0000000006, 0.0, 0.0)
    ensures Vec3Equal(Vec3(0.0, 0.0, 0.0), Vec3(0.0000000006, 0.0, 0.0))
    ensures Vec3Equal(Vec3(0.0000000006, 0.0, 0.0), Vec3(0.0000000012, 0.0, 0.0))
    ensures !Vec3Equal(Vec3(0.0, 0.0, 0.0), Vec3(0.0000000012, 0.0, 0.0))
  {
  }

  // ---------------------------------------------------------------------------
  // The walk.

  /** Why `parseStepToMesh` throws. */
  datatype MeshError =
    | ParseFailed(parseError: ParseError)
    | NoFace                                          // "No ADVANCED_FACE found in STEP file."
    | BoundNotFound(boundId: Option<nat>)             // None: the face lists no bound ("#undefined")
    | LoopNotFound(loopId: nat)
    | OrientedEdgeNotFound(orientedEdgeId: nat)
    | EdgeCurveNotFound(edgeCurveId: nat)
    | VertexNotFound(startVertexId: nat, endVertexId: nat)
    | PointNotFound(startPointId: nat, endPointId: nat)
    | EmptyBoundary                                   // `vec3Equal(undefined, undefined)` is a TypeError
    | BufferSizeNegative(sizeError: GpuTesselate.TesselateError)

  /** A face is stored exactly when the face order is non-empty; the first listed id is a face. */
  lemma {:induction false} FirstFaceListed(t: Tables)
    requires FacesListed(t) && |t.faces| != 0
    ensures t.faceOrder != [] && t.faceOrder[0] in t.faces
  {
    var id :| id in t.faces;
    assert id in t.faces.Keys;
  }

  /**
   * The edge loop of the first bound of the first face, in insertion order,
   * or why it cannot be found.
   */
  function FaceLoop(t: Tables): (r: Result<seq<nat>, MeshError>)
    requires FacesListed(t)
    ensures r == Failure(NoFace) <==> |t.faces| == 0
    ensures r.Success? ==> r.value in t.edgeLoops.Values
  {
    if |t.faces| == 0 then Failure(NoFace)
    else
      FirstFaceListed(t);
      var face := t.faces[t.faceOrder[0]];
      if face.boundIds == [] then Failure(BoundNotFound(None))
      else if face.boundIds[0] !in t.faceBounds then Failure(BoundNotFound(Some(face.boundIds[0])))
      else
        var loopId := t.faceBounds[face.boundIds[0]].loopId;
        if loopId !in t.edgeLoops then Failure(LoopNotFound(loopId))
        else Success(t.edgeLoops[loopId])
  }

  /**
   * With a face present, the walk takes the first face in insertion order and
   * the first id of its bound list: it throws `BoundNotFound` when that bound is
   * missing, `LoopNotFound` when the bound's loop is missing, and otherwise
   * yields that loop.
   */
  lemma {:induction false} FaceLoopSelects(t: Tables)
    requires FacesListed(t) && |t.faces| != 0
    ensures t.faceOrder != [] && t.faceOrder[0] in t.faces
    ensures var bounds := t.faces[t.faceOrder[0]].boundIds;
            && (bounds == [] ==> FaceLoop(t) == Failure(BoundNotFound(None)))
            && (bounds != [] && bounds[0] !in t.faceBounds ==> FaceLoop(t) == Failure(BoundNotFound(Some(bounds[0]))))
            && (bounds != [] && bounds[0] in t.faceBounds ==>
                  var loopId := t.faceBounds[bounds[0]].loopId;
                  && (loopId !in t.edgeLoops ==> FaceLoop(t) == Failure(LoopNotFound(loopId)))
                  && (loopId in t.edgeLoops ==> FaceLoop(t) == Success(t.edgeLoops[loopId])))
  {
    FirstFaceListed(t);
  }

  /** The walk throws for a model without faces, and only then with `NoFace`. */
  lemma {:induction false} NoFaceExactly(t: Tables)
    requires FacesListed(t)
    ensures FaceLoop(t) == Failure(NoFace) <==> |t.faces| == 0
  {
  }

  /** Start and end vertex of an oriented edge: the curve's own, swapped when the orientation is `.F.`. */
  function Ends(oe: OrientedEdge, ec: EdgeCurve): (nat, nat) {
    if oe.orientation then (ec.startVertexId, ec.endVertexId) else (ec.endVertexId, ec.startVertexId)
  }

  /** The start point of one oriented edge, or the first reference on the way that does not resolve. */
  function EdgeStart(t: Tables, orientedEdgeId: nat): (r: Result<Vec3, MeshError>)
    ensures r.Success? ==> orientedEdgeId in t.orientedEdges && r.value in t.points.Values
  {
    if orientedEdgeId !in t.orientedEdges then Failure(OrientedEdgeNotFound(orientedEdgeId))
    else
      var oe := t.orientedEdges[orientedEdgeId];
      if oe.edgeElementId !in t.edgeCurves then Failure(EdgeCurveNotFound(oe.edgeElementId))
      else
        var ends := Ends(oe, t.edgeCurves[oe.edgeElementId]);
        if ends.0 !in t.vertices || ends.1 !in t.vertices then Failure(VertexNotFound(ends.0, ends.1))
        else if t.vertices[ends.0] !in t.points || t.vertices[ends.1] !in t.points then
          Failure(PointNotFound(t.vertices[ends.0], t.vertices[ends.1]))
        else Success(t.points[t.vertices[ends.0]])
  }

  /**
   * An oriented edge resolves exactly when its edge, both vertices and both
   * points do; its point is that of the curve's start vertex when the
   * orientation is `.T.` and of its end vertex when it is `.F.`, whatever the
   * curve's same-sense flag.
   */
  lemma {:induction false} EdgeStartResolves(t: Tables, orientedEdgeId: nat)
    ensures EdgeStart(t, orientedEdgeId).Success? <==>
      && orientedEdgeId in t.orientedEdges
      && t.orientedEdges[orientedEdgeId].edgeElementId in t.edgeCurves
      && var oe := t.orientedEdges[orientedEdgeId];
         var ec := t.edgeCurves[oe.edgeElementId];
         && ec.startVertexId in t.vertices && ec.endVertexId in t.vertices
         && t.vertices[ec.startVertexId] in t.points && t.vertices[ec.endVertexId] in t.points
    ensures EdgeStart(t, orientedEdgeId).Success? ==>
      var oe := t.orientedEdges[orientedEdgeId];
      var ec := t.edgeCurves[oe.edgeElementId];
      EdgeStart(t, orientedEdgeId).value ==
        t.points[t.vertices[if oe.orientation then ec.startVertexId else ec.endVertexId]]
  {
  }

  /** The start points of the oriented edges in loop order, or the error of the first that does not resolve. */
  function BoundaryPoints(t: Tables, ids: seq<nat>): (r: Result<seq<Vec3>, MeshError>)
    ensures r.Success? ==> |r.value| == |ids| && forall i | 0 <= i < |r.value| :: r.value[i] in t.points.Values
    decreases |ids|
  {
    if ids == [] then Success([])
    else
      match BoundaryPoints(t, ids[..|ids| - 1])
      case Failure(e) => Failure(e)
      case Success(b) =>
        match EdgeStart(t, ids[|ids| - 1])
        case Failure(e) => Failure(e)
        case Success(p) => Success(b + [p])
  }

  /**
   * The boundary resolves exactly when every oriented edge does, and then it
   * has one point per oriented edge, in loop order: that edge's start point.
   */
  lemma {:induction false} BoundaryPointsAt(t: Tables, ids: seq<nat>)
    ensures BoundaryPoints(t, ids).Success? <==> forall i | 0 <= i < |ids| :: EdgeStart(t, ids[i]).Success?
    ensures BoundaryPoints(t, ids).Success? ==>
      |BoundaryPoints(t, ids).value| == |ids| &&
      forall i | 0 <= i < |ids| :: BoundaryPoints(t, ids).value[i] == EdgeStart(t, ids[i]).value
    decreases |ids|
  {
    if ids != [] {
      var n := |ids| - 1;
      BoundaryPointsAt(t, ids[..n]);
      assert forall i | 0 <= i < n :: ids[..n][i] == ids[i];
    }
  }

  /** An oriented edge that does not resolve, after edges that do, makes the walk throw its error. */
  lemma {:induction false} BoundaryFirstError(t: Tables, ids: seq<nat>, i: nat)
    requires i < |ids| && EdgeStart(t, ids[i]).Failure?
    requires forall j | 0 <= j < i :: EdgeStart(t, ids[j]).Success?
    ensures BoundaryPoints(t, ids) == Failure(EdgeStart(t, ids[i]).error)
    decreases |ids|
  {
    var n := |ids| - 1;
    if i < n {
      BoundaryFirstError(t, ids[..n], i);
    } else {
      BoundaryPointsAt(t, ids[..n]);
    }
  }

  // ---------------------------------------------------------------------------
  // Close and drop.

  /** `boundaryPoints` after closing: the first point is appended unless the last already equals it. */
  function Closed(b: seq<Vec3>): (r: seq<Vec3>)
    requires b != []
    ensures |b| <= |r| <= |b| + 1 && r[..|b|] == b
    ensures Vec3Equal(r[0], r[|r| - 1])
  {
    if Vec3Equal(b[0], b[|b| - 1]) then b else b + [b[0]]
  }

  /** `boundaryPoints.slice(0, boundaryPoints.length - 1)` after closing. */
  function UniquePoints(b: seq<Vec3>): (r: seq<Vec3>)
    requires b != []
    ensures |b| - 1 <= |r| <= |b| && r == b[..|r|]
  {
    var c := Closed(b);
    c[..|c| - 1]
  }

  /**
   * The closed boundary extends the walked one and ends on a point equal to
   * its first; the unique points are the boundary minus its last point
   * exactly when that point equals the first, and the whole boundary otherwise.
   */
  lemma {:induction false} CloseAndDrop(b: seq<Vec3>)
    requires b != []
    ensures |Closed(b)| >= |b| && Closed(b)[..|b|] == b
    ensures Vec3Equal(Closed(b)[0], Closed(b)[|Closed(b)| - 1])
    ensures Vec3Equal(b[0], b[|b| - 1]) ==> UniquePoints(b) == b[..|b| - 1]
    ensures !Vec3Equal(b[0], b[|b| - 1]) ==> UniquePoints(b) == b
  {
    Vec3EqualIsTolerance(b[0], b[|b| - 1]);
    if !Vec3Equal(b[0], b[|b| - 1]) {
      assert (b + [b[0]])[..|b|] == b;
    }
  }

  /** The unique points of the first face: the walked boundary, closed and dropped. */
  function FacePoints(t: Tables): (r: Result<seq<Vec3>, MeshError>)
    requires FacesListed(t)
    ensures r.Success? ==> FaceLoop(t).Success? && |r.value| <= |FaceLoop(t).value|
    ensures r.Success? ==> forall i | 0 <= i < |r.value| :: r.value[i] in t.points.Values
  {
    match FaceLoop(t)
    case Failure(e) => Failure(e)
    case Success(ids) =>
      match BoundaryPoints(t, ids)
      case Failure(e) => Failure(e)
      case Success(b) => if b == [] then Failure(EmptyBoundary) else Success(UniquePoints(b))
  }

  /**
   * For a loop whose last start point is not the first one again (the usual
   * STEP loop, one start point per edge), the unique points are exactly the
   * start points of the oriented edges, in loop order.
   */
  lemma {:induction false} FacePointsOfLoop(t: Tables)
    requires FacesListed(t) && FaceLoop(t).Success?
    requires forall i | 0 <= i < |FaceLoop(t).value| :: EdgeStart(t, FaceLoop(t).value[i]).Success?
    requires var ids := FaceLoop(t).value;
      ids != [] && !Vec3Equal(EdgeStart(t, ids[0]).value, EdgeStart(t, ids[|ids| - 1]).value)
    ensures FacePoints(t).Success?
    ensures var ids := FaceLoop(t).value;
      |FacePoints(t).value| == |ids| &&
      forall i | 0 <= i < |ids| :: FacePoints(t).value[i] == EdgeStart(t, ids[i]).value
  {
    var ids := FaceLoop(t).value;
    BoundaryPointsAt(t, ids);
    CloseAndDrop(BoundaryPoints(t, ids).value);
  }

  // ---------------------------------------------------------------------------
  // Positions.

  /** `uniquePoints.forEach` writing x, y, z of point i to slots 3i, 3i + 1, 3i + 2. */
  method Positions(points: seq<Vec3>) returns (positions: array<real>)
    ensures fresh(positions)
    ensures positions[..] == GpuTesselate.FlatCoords(points)
  {
    positions := new real[|points| * 3](_ => 0.0);
    var i := 0;
    while i < |points|
      invariant 0 <= i <= |points|
      invariant forall j | 0 <= j < 3 * i :: positions[j] == GpuTesselate.FlatCoords(points)[j]
    {
      GpuTesselate.FlatCoordsAt(points, i, 0);
      GpuTesselate.FlatCoordsAt(points, i, 1);
      GpuTesselate.FlatCoordsAt(points, i, 2);
      positions[i * 3 + 0] := points[i].x;
      positions[i * 3 + 1] := points[i].y;
      positions[i * 3 + 2] := points[i].z;
      i := i + 1;
    }
  }

  // ---------------------------------------------------------------------------
  // `tesselate` and its `main_indices` kernel.

  /** What `tesselate` resolves to. */
  datatype TesselateOutput = TesselateOutput(indicesU32: seq<nat>, vertexCount: nat, triCount: nat)

  /** `Math.ceil(triCount / workgroupSize)` for a non-negative count. */
  function WorkgroupCount(triCount: nat): nat {
    (triCount + GpuTesselate.WorkgroupSize - 1) / GpuTesselate.WorkgroupSize
  }

  /** The dispatch is the fewest workgroups of 64 that give every triangle an invocation. */
  lemma {:induction false} WorkgroupCountIsCeiling(triCount: nat)
    ensures WorkgroupCount(triCount) * GpuTesselate.WorkgroupSize >= triCount
    ensures WorkgroupCount(triCount) == 0 || (WorkgroupCount(triCount) - 1) * GpuTesselate.WorkgroupSize < triCount
  {
    var q := WorkgroupCount(triCount);
    assert GpuTesselate.WorkgroupSize == 64;
    assert triCount + 63 == 64 * q + (triCount + 63) % 64;
  }

  /** The fan over the n unique points, or the negative index-buffer size for fewer than two. */
  function TesselateSpec(points: seq<Vec3>): (r: Result<TesselateOutput, GpuTesselate.TesselateError>)
    ensures r.Success? <==> |points| >= 2
    ensures r.Success? ==>
      && r.value.vertexCount == |points| && |r.value.indicesU32| == 3 * r.value.triCount
      && GpuTesselate.IndicesIn(r.value.indicesU32, |points|)
  {
    if |points| < 2 then Failure(GpuTesselate.NegativeBufferSize((|points| - 2) * 3 * GpuTesselate.ByteSize))
    else
      GpuTesselate.FanWellFormed(|points| - 2);
      Success(TesselateOutput(GpuTesselate.FanIndices(|points| - 2), |points|, |points| - 2))
  }

  /**
   * `tesselate(uniquePoints)`: size the index buffer for n - 2 triangles,
   * dispatch ceil((n - 2) / 64) workgroups of `main_indices`, read the
   * indices back.
   */
  method StepTesselate(uniquePoints: seq<Vec3>) returns (r: Result<TesselateOutput, GpuTesselate.TesselateError>)
    ensures r == TesselateSpec(uniquePoints)
  {
    var uniquePointsFlat := Positions(uniquePoints);  // uploaded, but never read by the kernel
    var vertexCount := |uniquePoints|;
    var triCount: int := vertexCount - 2;
    var indexCount: int := triCount * 3;
    if indexCount * GpuTesselate.ByteSize < 0 {
      return Failure(GpuTesselate.NegativeBufferSize(indexCount * GpuTesselate.ByteSize));
    }
    var indices := new nat[indexCount](_ => 0);
    ghost var zeros := indices[..];
    var invocations := WorkgroupCount(triCount) * GpuTesselate.WorkgroupSize;
    GpuTesselate.FanKernel(indices, triCount, invocations);
    WorkgroupCountIsCeiling(triCount);
    assert zeros == seq(3 * triCount, _ => 0);
    GpuTesselate.FullDispatchGivesFan(triCount, invocations);
    return Success(TesselateOutput(indices[..], vertexCount, triCount));
  }

  // ---------------------------------------------------------------------------
  // The index copy.

  /** Largest count of points a `Uint16Array` index can name. */
  const U16Modulus: nat := 0x1_0000

  /** Storing into a `Uint16Array`: the value modulo 2^16. */
  function ToUint16(v: nat): (r: nat)
    ensures r < U16Modulus
    ensures v < U16Modulus ==> r == v
  {
    v % U16Modulus
  }

  /** Each index stored into a `Uint16Array`. */
  function Uint16Of(values: seq<nat>): (r: seq<nat>)
    ensures |r| == |values|
    ensures forall i | 0 <= i < |r| :: r[i] < U16Modulus
  {
    seq(|values|, i requires 0 <= i < |values| => ToUint16(values[i]))
  }

  /** `new Uint16Array(length)`: zero-filled, with an `undefined` length read as 0. */
  function NewUint16Array(length: Option<nat>): (r: seq<nat>)
    ensures length.None? ==> r == []
    ensures length.Some? ==> |r| == length.value && forall i | 0 <= i < |r| :: r[i] == 0
  {
    seq(if length.Some? then length.value else 0, _ => 0)
  }

  /** `gpuIndices.length` of the object `tesselate` resolves to: it has no `length`. */
  function LengthOf(output: TesselateOutput): Option<nat> {
    None
  }

  /**
   * The index copy as written: a `Uint16Array` of `gpuIndices.length`,
   * filled while `i < gpuIndices.length`, which with `undefined` never holds.
   */
  function IndicesAsWritten(output: TesselateOutput): seq<nat> {
    NewUint16Array(LengthOf(output))
  }

  /** As written, a face of three or more points gets a fan from the kernel and no index in its mesh. */
  lemma {:induction false} AsWrittenDropsIndices(points: seq<Vec3>)
    requires |points| >= 3
    ensures TesselateSpec(points).Success? && |TesselateSpec(points).value.indicesU32| >= 3
    ensures IndicesAsWritten(TesselateSpec(points).value) == []
  {
  }

  /** The copy evidently intended: `indicesU32` into a `Uint16Array` of its own length. */
  method CopyToUint16(source: seq<nat>) returns (indices: array<nat>)
    ensures fresh(indices)
    ensures indices[..] == Uint16Of(source)
  {
    indices := new nat[|source|](_ => 0);
    var i := 0;
    while i < |source|
      invariant 0 <= i <= |source|
      invariant forall j | 0 <= j < i :: indices[j] == ToUint16(source[j])
    {
      indices[i] := ToUint16(source[i]);
      i := i + 1;
    }
  }

  /** Up to 2^16 points the copy keeps the fan; one point more and the last index wraps to 0. */
  lemma {:induction false} Uint16KeepsFan(n: nat)
    requires 2 <= n
    ensures n <= U16Modulus ==> Uint16Of(GpuTesselate.FanIndices(n - 2)) == GpuTesselate.FanIndices(n - 2)
    ensures n == U16Modulus + 1 ==>
      GpuTesselate.FanIndices(n - 2)[3 * (n - 3) + 2] == U16Modulus &&
      Uint16Of(GpuTesselate.FanIndices(n - 2))[3 * (n - 3) + 2] == 0
  {
    GpuTesselate.FanWellFormed(n - 2);
    if n == U16Modulus + 1 {
      GpuTesselate.FanTriangle(n - 2, n - 3);
    }
  }

  // ---------------------------------------------------------------------------
  // The mesh.

  /** The `Mesh` `parseStepToMesh` resolves to. */
  datatype Mesh = Mesh(positions: seq<real>, indices: seq<nat>)

  /** The mesh of the first face of the tables, with the index copy corrected. */
  function MeshOfTables(t: Tables): (r: Result<Mesh, MeshError>)
    requires FacesListed(t)
    ensures r.Success? ==> |r.value.positions| % 3 == 0 && |r.value.indices| % 3 == 0
    ensures r.Success? ==> forall j | 0 <= j < |r.value.indices| :: r.value.indices[j] < U16Modulus
  {
    match FacePoints(t)
    case Failure(e) => Failure(e)
    case Success(points) =>
      match TesselateSpec(points)
      case Failure(e) => Failure(BufferSizeNegative(e))
      case Success(output) =>
        ThreeEach(|points|);
        ThreeEach(output.triCount);
        Success(Mesh(GpuTesselate.FlatCoords(points), Uint16Of(output.indicesU32)))
  }

  /** Three entries per item make a multiple of three. */
  lemma {:induction false} ThreeEach(k: nat)
    ensures (3 * k) % 3 == 0
  {
  }

  /** `parseStepToMesh(stepText)` with the index copy corrected. */
  function MeshOf(text: string, lit: Lit): (r: Result<Mesh, MeshError>)
    ensures ParseText(text, lit).Failure? ==> r == Failure(ParseFailed(ParseText(text, lit).error))
    ensures r.Success? ==> |r.value.positions| % 3 == 0 && |r.value.indices| % 3 == 0
    ensures r.Success? ==> forall j | 0 <= j < |r.value.indices| :: r.value.indices[j] < U16Modulus
  {
    match ParseText(text, lit)
    case Failure(e) => Failure(ParseFailed(e))
    case Success(t) =>
      ParseKeepsFacesListed(text, lit);
      MeshOfTables(t)
  }

  /**
   * A mesh has three coordinates per unique point of the face and three
   * indices per fan triangle; up to 2^16 points the indices are the fan,
   * every one names a unique point, and the triangles' signed areas add up
   * to the signed area of the face's boundary.
   */
  lemma {:induction false} MeshTriangulatesFace(t: Tables)
    requires FacesListed(t) && MeshOfTables(t).Success?
    ensures FacePoints(t).Success? && |FacePoints(t).value| >= 2
    ensures var points := FacePoints(t).value;
            var m := MeshOfTables(t).value;
      && |m.positions| == 3 * |points|
      && (forall i, k | 0 <= i < |points| && 0 <= k < 3 :: m.positions[3 * i + k] == Coord(points[i], k))
      && |m.indices| == 3 * (|points| - 2)
    ensures var points := FacePoints(t).value;
            var m := MeshOfTables(t).value;
      |points| <= U16Modulus ==>
        && m.indices == GpuTesselate.FanIndices(|points| - 2)
        && GpuTesselate.IndicesIn(m.indices, |points|)
        && GpuTesselate.IndexedArea(points, m.indices, |points| - 2) == SignedArea.Shoelace(points)
  {
    var points := FacePoints(t).value;
    assert TesselateSpec(points).Success?;
    var fan := GpuTesselate.FanIndices(|points| - 2);
    assert TesselateSpec(points).value.indicesU32 == fan;
    var m := MeshOfTables(t).value;
    assert m == Mesh(GpuTesselate.FlatCoords(points), Uint16Of(fan));
    forall i, k | 0 <= i < |points| && 0 <= k < 3
      ensures GpuTesselate.FlatCoords(points)[3 * i + k] == Coord(points[i], k)
    {
      GpuTesselate.FlatCoordsAt(points, i, k);
    }
    if |points| <= U16Modulus {
      Uint16KeepsFan(|points|);
      assert m.indices == fan;
      GpuTesselate.FanPreservesArea(points);
    }
  }

  // ---------------------------------------------------------------------------
  // The function itself.

  /** The boundary loop of `parseStepToMesh`: one start point pushed per oriented edge. */
  method WalkBoundary(model: StepModel, orientedEdgeIds: seq<nat>) returns (r: Result<seq<Vec3>, MeshError>)
    ensures r == BoundaryPoints(model.Contents(), orientedEdgeIds)
  {
    var boundaryPoints: seq<Vec3> := [];
    var i := 0;
    while i < |orientedEdgeIds|
      invariant 0 <= i <= |orientedEdgeIds|
      invariant BoundaryPoints(model.Contents(), orientedEdgeIds[..i]) == Success(boundaryPoints)
    {
      var orientedEdgeId := orientedEdgeIds[i];
      assert orientedEdgeIds[..i + 1][..i] == orientedEdgeIds[..i];
      if orientedEdgeId !in model.orientedEdges {
        BoundaryFirstStop(model.Contents(), orientedEdgeIds, i);
        return Failure(OrientedEdgeNotFound(orientedEdgeId));
      }
      var oedge := model.orientedEdges[orientedEdgeId];
      if oedge.edgeElementId !in model.edgeCurves {
        BoundaryFirstStop(model.Contents(), orientedEdgeIds, i);
        return Failure(EdgeCurveNotFound(oedge.edgeElementId));
      }
      var edgeCurve := model.edgeCurves[oedge.edgeElementId];
      var startVertexId := edgeCurve.startVertexId;
      var endVertexId := edgeCurve.endVertexId;
      if !oedge.orientation {
        startVertexId, endVertexId := endVertexId, startVertexId;
      }
      if startVertexId !in model.vertices || endVertexId !in model.vertices {
        BoundaryFirstStop(model.Contents(), orientedEdgeIds, i);
        return Failure(VertexNotFound(startVertexId, endVertexId));
      }
      var startPointId := model.vertices[startVertexId];
      var endPointId := model.vertices[endVertexId];
      if startPointId !in model.points || endPointId !in model.points {
        BoundaryFirstStop(model.Contents(), orientedEdgeIds, i);
        return Failure(PointNotFound(startPointId, endPointId));
      }
      boundaryPoints := boundaryPoints + [model.points[startPointId]];
      i := i + 1;
    }
    assert orientedEdgeIds[..i] == orientedEdgeIds;
    return Success(boundaryPoints);
  }

  /** When the walk of the first i edges succeeds and edge i does not resolve, the whole walk throws its error. */
  lemma {:induction false} BoundaryFirstStop(t: Tables, ids: seq<nat>, i: nat)
    requires i < |ids| && BoundaryPoints(t, ids[..i]).Success? && EdgeStart(t, ids[i]).Failure?
    ensures BoundaryPoints(t, ids) == Failure(EdgeStart(t, ids[i]).error)
  {
    BoundaryPointsAt(t, ids[..i]);
    assert forall j | 0 <= j < i :: ids[..i][j] == ids[j];
    BoundaryFirstError(t, ids, i);
  }

  /**
   * `parseStepToMesh(stepText)`: parse, walk the first face's outer loop,
   * close and drop, flatten the positions, run the fan kernel and copy its
   * indices into a `Uint16Array`. The copy is the corrected one,
   * `CopyToUint16` of `indicesU32`; the copy as written, from the missing
   * `gpuIndices.length`, is `IndicesAsWritten`, and `AsWrittenDropsIndices`
   * shows that it is empty.
   */
  method ParseStepToMesh(text: string, lit: Lit) returns (r: Result<Mesh, MeshError>)
    ensures r == MeshOf(text, lit)
  {
    var parsed := ParseStep(text, lit);
    if parsed.Failure? {
      return Failure(ParseFailed(parsed.error));
    }
    var model := parsed.value;
    ghost var t := model.Contents();
    ParseKeepsFacesListed(text, lit);
    assert MeshOf(text, lit) == MeshOfTables(t);
    if |model.faces| == 0 {
      return Failure(NoFace);
    }
    FirstFaceListed(t);
    var face := model.faces[model.faceOrder[0]];
    if face.boundIds == [] {
      return Failure(BoundNotFound(None));
    }
    var outerBoundId := face.boundIds[0];
    if outerBoundId !in model.faceBounds {
      return Failure(BoundNotFound(Some(outerBoundId)));
    }
    var outerBound := model.faceBounds[outerBoundId];
    if outerBound.loopId !in model.edgeLoops {
      return Failure(LoopNotFound(outerBound.loopId));
    }
    var loop := model.edgeLoops[outerBound.loopId];
    assert FaceLoop(t) == Success(loop);
    var walked := WalkBoundary(model, loop);
    if walked.Failure? {
      return Failure(walked.error);
    }
    var boundaryPoints := walked.value;
    if boundaryPoints == [] {
      return Failure(EmptyBoundary);
    }
    ghost var walkedPoints := boundaryPoints;
    var first := boundaryPoints[0];
    var last := boundaryPoints[|boundaryPoints| - 1];
    if !Vec3Equal(first, last) {
      boundaryPoints := boundaryPoints + [first];
    }
    var uniquePoints := boundaryPoints[..|boundaryPoints| - 1];
    assert FacePoints(t) == Success(uniquePoints) by {
      assert boundaryPoints == Closed(walkedPoints);
    }
    var positions := Positions(uniquePoints);
    var gpuIndices := StepTesselate(uniquePoints);
    if gpuIndices.Failure? {
      return Failure(BufferSizeNegative(gpuIndices.error));
    }
    var indices := CopyToUint16(gpuIndices.value.indicesU32);
    return Success(Mesh(positions[..], indices[..]));
  }
}
