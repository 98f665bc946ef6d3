# STEP face to triangle mesh, modelled in Dafny

This project models the triangulation core of a small WebGPU application. The
application reads one planar face out of a STEP (ISO 10303-21) text. It walks
the face's outer edge loop to a polygon of unique boundary points, and
triangulates that polygon with compute kernels. The modelled parts are:

- `StepText`, `StepPatterns`, `StepEntities`, `StepReader` (src/step-parser.ts, `parseStep`).
  - Comment stripping, line splitting and trimming.
  - The entity-line regular expression and the seven entity parsers
    (`CARTESIAN_POINT`, `VERTEX_POINT`, `EDGE_CURVE`, `ORIENTED_EDGE`,
    `EDGE_LOOP`, `FACE_OUTER_BOUND`, `ADVANCED_FACE`).
  - The tables of parsed entities. JS `Map`s are `map`s; the insertion order
    of faces is kept in a sequence.
  - The `StepModel` object that `parseStep` fills line by line.
- `StepMesh` (src/step-parser.ts, `parseStepToMesh`, `tesselate`, `vec3Equal`).
  - Taking the first face, its first bound and its loop.
  - Resolving every oriented edge to its start point.
  - Closing the loop and dropping the duplicate.
  - The flat positions, the `main_indices` fan kernel and the 16-bit index copy.
- `SignedArea` (src/signed-area.ts): the shoelace sum and the winding verdict.
- `PointInTriangle` and `PointInTriangleTable` (src/point-in-triangle.ts and its test table): the inclusive edge test.
- `ConvexityCheck` (src/convexity-check.ts): the per-vertex convex/reflex classification kernel and its buffer layout.
- `EarClipping` (src/ear-clipping.ts): the buffer sizes and the initial `prev`/`next` links of the ear-clipping set-up.
- `GpuTesselate` (src/gpu-tesselate.ts): flattening, the `Uint32Array` conversion and the `create_indices` fan kernel.
- `Wrappers` and `Vectors`: `Option`/`Result`, points, 2D cross products and cyclic neighbour indices.

How the model is built:

- A GPU kernel is a method that runs the invocations `0 .. k - 1` in order
  over an `array`. Each invocation writes the slots the kernel writes, and a
  new buffer starts zeroed.
- A specification function describes the whole buffer afterwards.
- Coordinates are real numbers.
- `parseFloat` is the parameter `lit`, applied to the numeral text the point
  pattern captured.
- A `throw` is the `Failure` of a `Result`, with one error constructor per
  message.

## Model

| member | source | states |
|---|---|---|
| StepText.Trim | src/step-parser.ts:348 | the trimmed line neither starts nor ends with white space |
| StepText.TrimPadded | src/step-parser.ts:348 | trimming white space around a text that has none at its ends gives back that text |
| StepText.TrimIdempotent | src/step-parser.ts:348 | trimming twice is trimming once |
| StepText.Split | src/step-parser.ts:343 | splitting yields at least one piece and no piece holds the separator |
| StepText.SplitJoin | src/step-parser.ts:343 | joining the pieces with the separator restores the text |
| StepText.JoinSplit | src/step-parser.ts:343 | splitting pieces that hold no separator, once joined, gives the pieces back |
| StepText.DropReturn | src/step-parser.ts:343 | a line without a carriage return is left alone by the `\r?\n` split |
| StepText.SplitLines | src/step-parser.ts:343 | the text splits into one line per `\n`-separated piece, each with a `\r` before its `\n` dropped (`DropReturn`, `JoinCrlfSplit`) |
| StepText.LinesJoin | src/step-parser.ts:343 | for text without carriage returns, the lines joined by newlines are the text |
| StepText.JoinLinesSplit | src/step-parser.ts:343 | lines without line breaks, joined by newlines, split back into the same lines |
| StepText.JoinCrlfSplit | src/step-parser.ts:343 | lines without line breaks, joined by `\r\n`, split back into the same lines: every `\r` before a `\n` is dropped |
| StepText.ShowNat | src/step-parser.ts:354 | the decimal numeral of an id is a non-empty run of digits |
| StepText.ParseShow | src/step-parser.ts:354 | `parseInt(_, 10)` of an id's decimal numeral is the id |
| StepText.StripBlockComments | src/step-parser.ts:339 | removing block comments never lengthens the text |
| StepText.BlockCommentRemoved | src/step-parser.ts:339 | a `/* ... */` comment is removed up to its first `*/` (non-greedy) and the text before it is kept |
| StepText.NoBlockCommentUnchanged | src/step-parser.ts:339 | text without `/*` is unchanged |
| StepText.StripLineComments | src/step-parser.ts:340 | no `--` survives the line-comment pass, and a leading line break is kept |
| StepText.LineCommentRemoved | src/step-parser.ts:340 | `--` and the rest of its line are removed and the line break after it is kept |
| StepText.NoLineCommentUnchanged | src/step-parser.ts:340 | text without `--` is unchanged |
| StepText.LineCommentsKeepLines | src/step-parser.ts:340 | removing line comments keeps every line terminator, so the line structure survives |
| StepPatterns.MatchRender | src/step-parser.ts:345 | a pattern matched against the text it renders from some captures yields exactly those captures |
| StepPatterns.SearchQuotedRender | src/step-parser.ts:404 | the greedy `'.*'` search finds the captures of a rendered argument tail after the quoted name |
| StepEntities.ParseArgs | src/step-parser.ts:358-381 | an unrecognised type is skipped; a recognised type yields its entity or throws |
| StepEntities.TypeName | src/step-parser.ts:358-381 | every entity kind has one of the seven recognised type names |
| StepEntities.RefRoundTrip | src/step-parser.ts:452-454 | `#n` survives trimming and matches `^#(\d+)$` with value n |
| StepEntities.RefListRoundTrip | src/step-parser.ts:446-455 | a comma-separated list of `#id` references parses back to exactly those ids in order (padded and empty pieces: `ParseRefsKept`) |
| StepEntities.Kept | src/step-parser.ts:448-450 | `map(trim).filter(Boolean)` keeps no more pieces than given, each non-empty and already trimmed |
| StepEntities.ParseRefs | src/step-parser.ts:446-455 | a read list has at most one id per piece; a throw is an invalid reference of the type, naming a non-empty piece that is not `#digits` |
| StepEntities.ParseRefList | src/step-parser.ts:446-455 | at most one id per comma-separated piece; a throw is an invalid reference of the type, naming a piece that is not `#digits` |
| StepEntities.ParseRefsKept | src/step-parser.ts:446-455 | the list parses iff every trimmed non-empty piece is `#digits`, and then to exactly those ids in order, whatever white space and empty pieces surround them |
| StepEntities.ParseRefsFirstBad | src/step-parser.ts:474-482 | when every earlier kept piece is a reference, the first trimmed non-empty piece that is not is thrown as the invalid reference |
| StepEntities.ParseCartesianPoint | src/step-parser.ts:389-400 | yields a point, or throws the mismatch error naming `CARTESIAN_POINT` and the whole argument text |
| StepEntities.ParseVertexPoint | src/step-parser.ts:402-408 | yields a vertex, or throws the mismatch error naming `VERTEX_POINT` and the argument text |
| StepEntities.ParseEdgeCurve | src/step-parser.ts:410-426 | yields an edge curve, or throws the mismatch error naming `EDGE_CURVE` and the argument text |
| StepEntities.ParseOrientedEdge | src/step-parser.ts:428-440 | yields an oriented edge, or throws the mismatch error naming `ORIENTED_EDGE` and the argument text |
| StepEntities.ParseEdgeLoop | src/step-parser.ts:442-458 | yields an edge loop, or throws the `EDGE_LOOP` mismatch error or an invalid `EDGE_LOOP` reference |
| StepEntities.ParseFaceOuterBound | src/step-parser.ts:460-468 | yields a face outer bound, or throws the mismatch error naming `FACE_OUTER_BOUND` and the argument text |
| StepEntities.ParseAdvancedFace | src/step-parser.ts:470-488 | yields an advanced face, or throws the `ADVANCED_FACE` mismatch error or an invalid `ADVANCED_FACE` reference |
| StepEntities.PointRoundTrip | src/step-parser.ts:389-400 | `('', (x, y, z))` parses to the point whose coordinates are `parseFloat` of x, y and z |
| StepEntities.VertexRoundTrip | src/step-parser.ts:402-408 | the arguments of a vertex parse back to the same vertex |
| StepEntities.CurveRoundTrip | src/step-parser.ts:410-426 | the arguments of an edge curve parse back to the same start, end, curve and same-sense flag |
| StepEntities.OrientedEdgeRoundTrip | src/step-parser.ts:428-440 | the arguments of an oriented edge parse back to the same edge and orientation |
| StepEntities.LoopRoundTrip | src/step-parser.ts:442-458 | the arguments of an edge loop parse back to the same oriented edge ids |
| StepEntities.BoundRoundTrip | src/step-parser.ts:460-468 | the arguments of a face outer bound parse back to the same loop and orientation |
| StepEntities.FaceRoundTrip | src/step-parser.ts:470-488 | the arguments of an advanced face parse back to the same bound ids, surface and flag |
| StepEntities.ArgsRoundTrip | src/step-parser.ts:358-381 | dispatching on an entity's type name parses its rendered arguments back to it |
| StepReader.CloseArgs | src/step-parser.ts:345 | the captured arguments are a single line, followed by `)` or `);` at the end of the line |
| StepReader.EntityLineRoundTrip | src/step-parser.ts:345 | the entity pattern on `#id=TYPE(args);` captures exactly id, TYPE and args |
| StepReader.MatchEntityLine | src/step-parser.ts:345 | a matching line starts with `#`, and its captured arguments are a single line |
| StepReader.LineEntity | src/step-parser.ts:347-381 | a blank line yields nothing; an entity or a throw comes only from a line that matches the entity pattern with a recognised type, and the entity carries that line's id |
| StepReader.EntityLineRead | src/step-parser.ts:347-381 | the line written for an entity with an id is read back as that entity under that id |
| StepReader.PointLineRead | src/step-parser.ts:347-400 | a `CARTESIAN_POINT` line is read as the point of its three numerals |
| StepReader.UnknownTypeSkipped | src/step-parser.ts:380 | an entity line of any other type changes nothing and throws nothing |
| StepReader.MismatchThrows | src/step-parser.ts:358-381 | a recognised type whose arguments do not fit its pattern throws that parser's error |
| StepReader.StoreLookup | src/step-parser.ts:399-487 | after `set`, the id is found with the new entity in its own table and every other entry is unchanged |
| StepReader.StoreOverwrites | src/step-parser.ts:399-487 | setting an id twice in the same table keeps only the second entity |
| StepReader.Store | src/step-parser.ts:399-487 | storing keeps the face order or appends the stored id to it, and changes the faces only when a face is stored |
| StepReader.StoreFaces | src/step-parser.ts:487 | a new face id is appended to the face order; an existing one keeps its place; other kinds leave faces alone |
| StepReader.StoreKeepsFacesListed | src/step-parser.ts:487 | the face order stays a duplicate-free listing of exactly the stored faces, and it only grows at its end |
| StepReader.FailureSticks | src/step-parser.ts:347-382 | once a line has thrown, the later lines do not change the outcome |
| StepReader.FirstErrorThrown | src/step-parser.ts:347-382 | the error thrown is the one of the first line that throws |
| StepReader.NoErrorParses | src/step-parser.ts:347-382 | if no line throws, parsing succeeds |
| StepReader.ErrorHasLine | src/step-parser.ts:347-382 | every parse error comes from some line |
| StepReader.Fold | src/step-parser.ts:347-382 | an error of the fold is the outcome of one of the lines |
| StepReader.ParseText | src/step-parser.ts:327-385 | a successful parse lists every stored face exactly once, in insertion order |
| StepReader.FoldKeepsFacesListed | src/step-parser.ts:347-382 | the faces of any successful parse are listed in insertion order |
| StepReader.ParseKeepsFacesListed | src/step-parser.ts:327-385 | the faces of a parsed text are listed in insertion order |
| StepReader.ReadEntries | src/step-parser.ts:327-385 | a file written as one line per entity parses to tables holding exactly those entities |
| StepReader.PlainTextLines | src/step-parser.ts:338-343 | a text without comments is parsed line by line as written |
| StepReader.StepModel.constructor | src/step-parser.ts:328-336 | a new model holds seven empty tables |
| StepReader.StepModel.Set | src/step-parser.ts:399-487 | `model.<table>.set(id, entity)` updates exactly the entity's table |
| StepReader.ParseStep | src/step-parser.ts:327-385 | the loop's model equals the tables of the specification function `ParseText`, and its throw equals that function's first error |
| StepMesh.Abs | src/step-parser.ts:319-321 | `Math.abs` is non-negative and equals the value or its negation |
| StepMesh.Vec3Equal | src/step-parser.ts:317-323 | equal points are `vec3Equal` |
| StepMesh.Vec3EqualIsTolerance | src/step-parser.ts:317-323 | the point comparison is reflexive and symmetric |
| StepMesh.Vec3EqualNotTransitive | src/step-parser.ts:317-323 | the tolerance comparison is not transitive and equates distinct points |
| StepMesh.FirstFaceListed | src/step-parser.ts:77 | when a face exists, the first face in insertion order is a stored face |
| StepMesh.NoFaceExactly | src/step-parser.ts:72-74 | "No ADVANCED_FACE" is thrown exactly when no face was parsed |
| StepMesh.FaceLoop | src/step-parser.ts:72-86 | throws "No ADVANCED_FACE" exactly when no face was parsed; a found loop is one of the stored edge loops |
| StepMesh.FaceLoopSelects | src/step-parser.ts:76-85 | with a face present, the loop is that of the first id in the bound list of the first face in insertion order; a missing bound throws `BoundNotFound` and a missing loop throws `LoopNotFound` |
| StepMesh.EdgeStart | src/step-parser.ts:91-122 | a resolved start point is a stored point, reached from a stored oriented edge |
| StepMesh.BoundaryPoints | src/step-parser.ts:88-123 | a walked boundary has one point per oriented edge, each a stored point |
| StepMesh.EdgeStartResolves | src/step-parser.ts:91-122 | an oriented edge resolves iff its edge, both vertices and both points exist; its point is the curve's start vertex's for `.T.` and the end vertex's for `.F.` |
| StepMesh.BoundaryPointsAt | src/step-parser.ts:90-123 | the walk succeeds iff every oriented edge resolves, with one start point per edge in loop order |
| StepMesh.BoundaryFirstError | src/step-parser.ts:90-123 | a failing walk throws the error of the first edge that does not resolve |
| StepMesh.BoundaryFirstStop | src/step-parser.ts:90-123 | once a prefix has resolved and the next edge fails, the walk throws that edge's error |
| StepMesh.Closed | src/step-parser.ts:125-131 | closing appends at most one point, keeps the walk as a prefix, and ends on a point `vec3Equal` to the first |
| StepMesh.UniquePoints | src/step-parser.ts:135 | the unique points are a prefix of the walk, at most one point shorter |
| StepMesh.CloseAndDrop | src/step-parser.ts:125-135 | the closed loop extends the walk and ends where it starts; the unique points drop the last point iff it equals the first |
| StepMesh.FacePoints | src/step-parser.ts:72-135 | unique points exist only when the face's loop was found; there are no more of them than oriented edges, and each is a stored point |
| StepMesh.FacePointsOfLoop | src/step-parser.ts:88-135 | for a loop that does not already end on its first point, the unique points are the edges' start points in order |
| StepMesh.Positions | src/step-parser.ts:139-145 | the positions are x, y, z of each unique point in order |
| StepMesh.WorkgroupCountIsCeiling | src/step-parser.ts:286-288 | the dispatch gives every triangle an invocation with the fewest workgroups of 64 |
| StepMesh.TesselateSpec | src/step-parser.ts:160-303 | succeeds iff there are at least two points; it then reports n vertices and three indices per triangle, each index naming a point |
| StepMesh.StepTesselate | src/step-parser.ts:160-303 | with n unique points the kernel returns the fan of n - 2 triangles; fewer than two points make the buffer size negative |
| StepMesh.ToUint16 | src/step-parser.ts:154 | a `Uint16Array` store is below 2^16 and keeps smaller values |
| StepMesh.Uint16Of | src/step-parser.ts:152-155 | the 16-bit copy has one entry per source index, each below 2^16 |
| StepMesh.NewUint16Array | src/step-parser.ts:152 | `new Uint16Array(undefined)` is empty; a length gives that many zeros |
| StepMesh.AsWrittenDropsIndices | src/step-parser.ts:149-155 | as written, every face with three or more points gets an empty index list, though the fan has indices |
| StepMesh.CopyToUint16 | src/step-parser.ts:152-155 | the corrected copy stores each index modulo 2^16 |
| StepMesh.Uint16KeepsFan | src/step-parser.ts:152-155 | up to 2^16 points the 16-bit copy is the fan; one point more wraps the last index to 0 |
| StepMesh.MeshOfTables | src/step-parser.ts:72-158 | a mesh has three coordinates per point and three indices per triangle, each below 2^16 |
| StepMesh.MeshOf | src/step-parser.ts:67-158 | a parse error is thrown as it is; a mesh has three coordinates per point and three indices per triangle, each below 2^16 |
| StepMesh.MeshTriangulatesFace | src/step-parser.ts:67-158 | a mesh has three coordinates per unique point and three indices per fan triangle; up to 2^16 points the indices name unique points and the triangles' areas sum to the face's signed area |
| StepMesh.WalkBoundary | src/step-parser.ts:88-123 | the imperative walk returns what the specification function `BoundaryPoints` returns, points and errors alike |
| StepMesh.ParseStepToMesh | src/step-parser.ts:67-158 | parsing and meshing return the mesh of `MeshOf` or its first error; the 16-bit index list is the corrected copy `CopyToUint16` of `indicesU32` (the as-written copy is empty, `AsWrittenDropsIndices`) |
| SignedArea.IsCounterClockwise | src/signed-area.ts:1-40 | throws iff the shoelace sum is zero; otherwise true iff the sum is positive and false iff it is negative |
| SignedArea.Shoelace | src/signed-area.ts:9-30 | the loop's sum is the open chain's cross products plus the closing term from the last point to the first |
| SignedArea.ShoelaceClosed | src/signed-area.ts:9-30 | the sum is the open chain's cross products plus the closing edge from last to first |
| SignedArea.PartialSumIsChain | src/signed-area.ts:9-30 | the loop's running sum is the chain sum of the points visited so far |
| SignedArea.ShortIsDegenerate | src/signed-area.ts:32-34 | one or two points always throw as degenerate |
| SignedArea.ReverseNegates | src/signed-area.ts:9-30 | reversing the points negates the sum |
| SignedArea.ReversalFlipsWinding | src/signed-area.ts:36-39 | reversing a non-degenerate polygon flips the verdict |
| SignedArea.RotationInvariant | src/signed-area.ts:9-30 | starting the loop at the next point does not change the sum |
| SignedArea.IgnoresZ | src/signed-area.ts:17-20 | only x and y enter the sum |
| SignedArea.SquareIsCounterClockwise | src/signed-area.ts:36-38 | the 4 by 3 rectangle listed counter-clockwise has sum 24 and is counter-clockwise |
| SignedArea.ClockwiseSquare | src/signed-area.ts:36-39 | the same rectangle listed clockwise is not counter-clockwise |
| SignedArea.CollinearIsDegenerate | src/signed-area.ts:32-34 | three collinear points throw as degenerate |
| PointInTriangle.Normalize | src/point-in-triangle.ts:36-40 | a point of 2 or 3 coordinates is padded to four with zeros; any other length throws with that length |
| PointInTriangle.NormalizeRoundTrip | src/point-in-triangle.ts:9-13 | the padded point's leading components are the input coordinates |
| PointInTriangle.NormalizeAll | src/point-in-triangle.ts:9-13 | the normalised triangle has one point per vertex |
| PointInTriangle.NormalizeAllVertexwise | src/point-in-triangle.ts:9-13 | the triangle normalises iff every vertex has 2 or 3 coordinates, each vertex on its own |
| PointInTriangle.NormalizeAllFirstError | src/point-in-triangle.ts:9-13 | a failing triangle throws the dimension of its first bad vertex |
| PointInTriangle.IsPointInTriangle | src/point-in-triangle.ts:4-184 | the test runs iff the triangle and the point normalise, and its result is the kernel's 0/1 flag on the first three normalised vertices and the normalised point, for 2D and 3D inputs alike |
| PointInTriangle.EdgeValuesSum | src/point-in-triangle.ts:106-125 | c1 + c2 + c3 is twice the triangle's signed area, for every point |
| PointInTriangle.Kernel | src/point-in-triangle.ts:177-184 | the verdict is 0 or 1, and 1 whenever all three edge values are non-negative |
| PointInTriangle.BarycentricEdgeValues | src/point-in-triangle.ts:106-125 | each edge value is a barycentric weight times twice the area |
| PointInTriangle.WeightedVerticesX | src/point-in-triangle.ts:106-125 | the edge values weight the vertices' x to the point's x times twice the area |
| PointInTriangle.WeightedVerticesY | src/point-in-triangle.ts:106-125 | likewise for y |
| PointInTriangle.ClosedTriangleInside | src/point-in-triangle.ts:177-184 | every point of a counter-clockwise closed triangle is reported inside |
| PointInTriangle.NonNegativeEdgeValuesAreConvexCombination | src/point-in-triangle.ts:177-184 | when all three edge values are non-negative, the point is a convex combination of the vertices |
| PointInTriangle.VerticesInside | src/point-in-triangle.ts:177-184 | the vertices themselves are inside |
| PointInTriangle.EdgePointInside | src/point-in-triangle.ts:177-184 | points on an edge are inside |
| PointInTriangle.RotationInvariant | src/point-in-triangle.ts:106-125 | rotating the vertex order does not change the verdict |
| PointInTriangle.OnlyXYMatter | src/point-in-triangle.ts:100-104 | z and padding never change the verdict |
| PointInTriangleTable.NormalizeTriangle | src/point-in-triangle.ts:9-13 | a table triangle normalises to its three vertices padded with zeros |
| PointInTriangleTable.RowResult | src/point-in-triangle.ts:95-184 | a table row's result is the kernel's verdict on its flat points |
| PointInTriangleTable.RowsAgree | src/point-in-triangle.test.ts:15-314 | rows whose expectation matches the kernel's verdict match the function's result |
| PointInTriangleTable.CorrectedCases | src/point-in-triangle.test.ts:128-135 | the corrected table differs from the original only in row T2_P4, now expected inside |
| PointInTriangleTable.AsWrittenRowT2P4Disagrees | src/point-in-triangle.test.ts:128-135 | (3, 1.5) lies on edge AB (c1 = 0), so the test reports inside, but the row expects outside |
| PointInTriangleTable.CorrectedTableAgrees | src/point-in-triangle.test.ts:15-314 | every row of the corrected table agrees with the function |
| ConvexityCheck.Read | src/convexity-check.ts:55-66 | an in-range read returns the stored point |
| ConvexityCheck.Corner | src/convexity-check.ts:54-68 | every branch reads vertex i as B; for two or more points, A and C are its cyclic neighbours |
| ConvexityCheck.TurnOf | src/convexity-check.ts:69-71 | a corner with a repeated point does not turn (the expansion is `TurnOfExpands`) |
| ConvexityCheck.Turn | src/convexity-check.ts:54-71 | a vertex's turn is the shoelace sum of its cyclic corner triangle |
| ConvexityCheck.Slot | src/convexity-check.ts:72-76 | COLLINEAR is never written; a slot changes only to CONVEX on a left turn or to REFLEX on a right turn |
| ConvexityCheck.KernelOutput | src/convexity-check.ts:41-77 | the classified buffer keeps its length through the kernel |
| ConvexityCheck.CornerIsCyclic | src/convexity-check.ts:54-71 | the kernel's three branches all pick the cyclic previous, current and next point |
| ConvexityCheck.ClassifyKernel | src/convexity-check.ts:41-77 | with the guard `i >= n`, the imperative kernel leaves the buffer the specification function `KernelOutput` describes |
| ConvexityCheck.ZeroBufferReadsBack | src/convexity-check.ts:17-22 | from a zeroed buffer every vertex reads CONVEX iff its turn is positive, and REFLEX otherwise |
| ConvexityCheck.NeverCollinear | src/convexity-check.ts:72-76 | the kernel never writes COLLINEAR |
| ConvexityCheck.SurplusInvocationsInert | src/convexity-check.ts:44-48 | invocations beyond the point count change nothing |
| ConvexityCheck.TurnOfExpands | src/convexity-check.ts:69-71 | E1 × E2 is the sum of the corner's three edge cross products |
| ConvexityCheck.TurnIsCornerShoelace | src/convexity-check.ts:69-71 | a vertex's turn is the shoelace sum of the corner triangle |
| ConvexityCheck.ClassificationIsCornerWinding | src/convexity-check.ts:72-76 | CONVEX iff the corner is counter-clockwise, REFLEX iff clockwise, unwritten iff degenerate |
| ConvexityCheck.ReversalNegatesTurn | src/convexity-check.ts:69-71 | reversing the polygon negates every vertex's turn |
| ConvexityCheck.RectangleAllConvex | src/convexity-check.ts:72-73 | each corner of the counter-clockwise rectangle turns by +12 |
| ConvexityCheck.Flatten | src/convexity-check.ts:9 | flattening no points gives no numbers |
| ConvexityCheck.FlattenLength | src/convexity-check.ts:9 | points of equal width flatten to width times count numbers |
| ConvexityCheck.ShaderView | src/convexity-check.ts:30-38 | the shader sees one point per 16 bytes of the buffer |
| ConvexityCheck.DispatchSize | src/convexity-check.ts:123-124 | the workgroups of 32 cover the count with less than one workgroup to spare |
| ConvexityCheck.ClassifyPoints | src/convexity-check.ts:4-147 | as written (packed upload, guard `i > n`), the result has one slot per float; slot j of the shader's n points is CONVEX iff its cyclic turn is positive, slot n is CONVEX iff invocation n's out-of-range corner turns left, and every other slot is REFLEX |
| ConvexityCheck.PackedUploadMisreads | src/convexity-check.ts:9 | the packed 4 by 3 rectangle is read as three points, the second of them wrong |
| ConvexityCheck.Padded | src/convexity-check.ts:30-32 | padding takes four floats per point |
| ConvexityCheck.PaddedAt | src/convexity-check.ts:30-32 | point k's x, y, z sit at floats 4k, 4k + 1, 4k + 2 |
| ConvexityCheck.PaddedUploadRoundTrip | src/convexity-check.ts:30-38 | the shader reads a padded upload back as exactly the input points |
| ConvexityCheck.ClassifyVertices | src/convexity-check.ts:4-147 | with a padded upload and the corrected kernel (guard `i >= n`, `ClassifyKernel`), vertex j reads CONVEX iff its cyclic turn is positive |
| ConvexityCheck.AsWrittenWritesPastEnd | src/convexity-check.ts:46-48 | the guard `i > n` lets invocation n through, and it writes past the last vertex |
| ConvexityCheck.AsWrittenOutput | src/convexity-check.ts:41-77 | with the guard `i > n`, the classified buffer keeps its length through the kernel |
| ConvexityCheck.ClassifyKernelAsWritten | src/convexity-check.ts:41-77 | with the guard `i > n`, the imperative kernel leaves the buffer the specification function `AsWrittenOutput` describes |
| ConvexityCheck.AsWrittenDiffersOnlyAtEnd | src/convexity-check.ts:46-48 | the kernel as written and the corrected kernel leave every slot but slot n alike |
| ConvexityCheck.AsWrittenSlotAtEnd | src/convexity-check.ts:46-76 | as written, slot n holds invocation n's verdict on its out-of-range corner |
| ConvexityCheck.KernelSlotAtEnd | src/convexity-check.ts:46-48 | with the guard `i >= n`, slot n is left as it was |
| ConvexityCheck.UniformReadsAsCorrected | src/convexity-check.ts:46-76 | when out-of-range reads all return one point, the kernel as written leaves what the corrected kernel leaves |
| ConvexityCheck.UniformReadsMakeGuardHarmless | src/convexity-check.ts:46-76 | if out-of-range reads all return the same point, invocation n writes nothing |
| EarClipping.PrevTable | src/ear-clipping.ts:151-157 | one previous-link per vertex |
| EarClipping.NextTable | src/ear-clipping.ts:151-157 | one next-link per vertex |
| EarClipping.InitPrevNext | src/ear-clipping.ts:151-157 | the loop fills `prev` and `next` with the cyclic links |
| EarClipping.LinksInverse | src/ear-clipping.ts:154-157 | links stay in range, and `next` undoes `prev` and vice versa |
| EarClipping.WalkVisitsInOrder | src/ear-clipping.ts:156 | following `next` k times from vertex 0 reaches vertex k |
| EarClipping.SingleCycle | src/ear-clipping.ts:151-157 | the next-links form one cycle through all n vertices |
| EarClipping.Sizes | src/ear-clipping.ts:131-188 | every buffer size as allocated; fewer than two points make the output size negative |
| EarClipping.PerVertexSlots | src/ear-clipping.ts:134-140 | per-vertex buffers have n slots and the output has 3(n - 2) |
| EarClipping.WriteBuffer | src/ear-clipping.ts:165-166 | `writeBuffer` replaces the leading slots with the data and keeps the rest; oversized data is refused |
| EarClipping.Zeroed | src/ear-clipping.ts:174 | `new Uint32Array(n)` is n zeros |
| EarClipping.AsWrittenActiveCountIsZero | src/ear-clipping.ts:174 | as written, the active count holds 0 rather than n |
| EarClipping.ActiveCountReadsN | src/ear-clipping.ts:174-182 | writing `[n]` makes the active count n; the triangle count starts at 0 |
| GpuTesselate.ToUint32 | src/gpu-tesselate.ts:13-16 | storing a number into a `Uint32Array` gives a value below 2^32 |
| GpuTesselate.ToUint32Exact | src/gpu-tesselate.ts:13-16 | whole numbers below 2^32 are stored exactly |
| GpuTesselate.ToUint32Wraps | src/gpu-tesselate.ts:13-16 | -1 wraps to 2^32 - 1 and fractions truncate toward zero |
| GpuTesselate.FlatCoords | src/gpu-tesselate.ts:12 | three numbers per point |
| GpuTesselate.FlatCoordsAt | src/gpu-tesselate.ts:12 | point i's coordinate k is at 3i + k |
| GpuTesselate.ToUint32Array | src/gpu-tesselate.ts:12-16 | the copy converts each flattened number in place |
| GpuTesselate.FanIndices | src/gpu-tesselate.ts:92-106 | the fan has three indices per triangle |
| GpuTesselate.FanTriangle | src/gpu-tesselate.ts:100-105 | triangle t is (0, t + 1, t + 2) |
| GpuTesselate.FanEntry | src/gpu-tesselate.ts:100-105 | slot 3t holds vertex 0, and slots 3t + 1 and 3t + 2 hold vertices after t, at most t + 2 |
| GpuTesselate.FanWellFormed | src/gpu-tesselate.ts:100-105 | every index names a point and no triangle repeats a vertex |
| GpuTesselate.FanCoversEveryPoint | src/gpu-tesselate.ts:92-106 | every point is a vertex of some triangle |
| GpuTesselate.FanIndicesArea | src/gpu-tesselate.ts:92-106 | the first k fan triangles read through the index buffer have the fan's area |
| GpuTesselate.FanAreaPrefix | src/gpu-tesselate.ts:92-106 | the first k fan triangles sum to the shoelace sum of the first k + 2 points, closed |
| GpuTesselate.FanPreservesArea | src/gpu-tesselate.ts:92-106 | the fan's signed triangle areas add up to the polygon's signed area |
| GpuTesselate.KernelOutput | src/gpu-tesselate.ts:92-106 | the index buffer keeps its length through the kernel |
| GpuTesselate.FanKernel | src/gpu-tesselate.ts:92-106 | the imperative kernel leaves the buffer the specification function `KernelOutput` describes |
| GpuTesselate.FullDispatchGivesFan | src/gpu-tesselate.ts:96-105 | with an invocation per triangle, a zeroed buffer becomes the fan |
| GpuTesselate.Tesselate | src/gpu-tesselate.ts:6-168 | throws iff fewer than two points; returns 3(n - 2) indices, the fan wherever an invocation ran and 0 elsewhere |
| GpuTesselate.FixedDispatchTruncates | src/gpu-tesselate.ts:145 | triangles beyond the 64 × 64 fixed invocations stay 0 |

## Left out

- WebGPU itself is not modelled: devices, pipelines, bind groups, command encoding and the asynchronous `mapAsync`. A kernel is modelled by its effect on its output buffer, and a new buffer starts zeroed.
- Floating point is not modelled. `Float32Array`/`f32` rounding and JS doubles are real numbers, and the epsilons 1e-9 and 1e-12 are exact.
- `parseFloat` is an opaque parameter `lit` and is applied to the numeral the point pattern captured.
- `parseInt` loses precision above 2^53; ids here are unbounded.
- Strings are sequences of Unicode scalar values, not UTF-16 code units.
- Logging (`console.log`) is not modelled.
- `parseBrowserFileToMesh` is not modelled. It only reads a browser `File` and calls `parseStepToMesh`.
- Rendering is not part of this model: src/gpu-render.ts, src/render.ts, src/threejs-render.ts and src/main.ts.
- Platform glue is not part of this model: src/lib.ts (`getGPUDevice`) and src/fs-shim.d.ts.
- Untitled-1.js is not part of this model.
- The ear-clipping scheduler is not modelled because the source has none. `earClipping` only sets buffers up and declares a classification kernel. That kernel writes to the undeclared name `classifiedPoints` and would not compile. What it computes is `ConvexityCheck.ClassifyKernel` with the guard `i >= n` of src/ear-clipping.ts:72.
- The ear-clipping `pointsBuffer` upload is left out. It calls `normalizePoints`, which src/lib.ts does not export.
- The point-in-triangle debug buffer is left out.
- The test harness compares a `Uint32Array` with a boolean; the table here compares each row's expectation with the kernel's 0/1 verdict.
- StepMesh.StepTesselate: two WebGPU validation errors are not modelled, and the kernel's output is taken as read back.
  - The index buffer lacks `MAP_READ` usage, so `mapAsync` would reject.
  - The `auto` layout omits the unused binding 0, yet the bind group names it.
- StepMesh.StepTesselate: the `uniquePointsFlat` upload is computed, but the kernel never reads it.
- Uniform-buffer sizes and their 16-byte alignment are not modelled.
- Entity records omit their `id` field; it always equals the key they are stored under.
- `sameSense`, `curveId`, `surfaceId` and a bound's orientation are parsed and stored but never used.
- PointInTriangle.IsPointInTriangle: requires three triangle vertices. With fewer, the kernel reads past its buffer, and WGSL leaves that result to the implementation.
- ConvexityCheck.TurnOf: the contract states only that a corner with a repeated point does not turn; the expansion into edge cross products is the lemma `TurnOfExpands`.
- PointInTriangle.Kernel: the contract states the 0/1 range and that non-negative edge values give 1; the 1e-12 tolerance below zero is stated by its definition only.
- ConvexityCheck.ClassifyKernelAsWritten: a store past the end of the output buffer is taken as dropped. The method reaches one only when a caller passes a buffer with no more than n slots and more than n invocations. Inside `ClassifyPoints` no store reaches past the end: the buffer has 3k slots for k points, and the shader sees fewer than 3k points when k ≥ 1, while an empty list dispatches no invocation.
- StepMesh.FacePoints: an edge loop with no oriented edges is the error `EmptyBoundary`. In the source it is the `TypeError` of `vec3Equal(undefined, undefined)`.
- StepMesh.TesselateSpec: fewer than two unique points is the error `BufferSizeNegative`. In the source it is the `TypeError` that `createBuffer` raises for a negative size.

## What the code does and does not do

The model follows the code in each of these.

- **Triangulation.** `parseStepToMesh` fan-triangulates through `tesselate`'s `main_indices` kernel (src/step-parser.ts:149, src/step-parser.ts:233-248); `create_indices` in src/gpu-tesselate.ts:92-106 builds the same fan. No ear is clipped: src/ear-clipping.ts:131-188 only sets buffers up.
- **Index type.** The indices are copied into a `Uint16Array` (src/step-parser.ts:152-155), and as written that copy is empty (Findings).
- **Short loops.** There is no minimum-length check. Two unique points give an empty index list, and fewer give a negative buffer size (src/step-parser.ts:187-190).
- **Which face and bound.** The first face in insertion order is taken (src/step-parser.ts:77), with the first id of its bound list (src/step-parser.ts:80); the rest are ignored.
- **Winding.** `isCounterClockWise` (src/signed-area.ts:1-40) reports the winding or throws on a zero sum; nothing on the mesh path (src/step-parser.ts:67-158) calls it, and no loop is reversed.
- **Resolution errors.** Each entity kind has its own message (src/step-parser.ts:73, 82, 85, 92, 95, 109, 115), and the model keeps them apart.
- **Collinear vertices.** The kernel writes only CONVEX or REFLEX (src/convexity-check.ts:72-76), so a collinear vertex's slot is left unwritten and a zeroed buffer reads REFLEX there.

## Findings

| source | as written | input that shows it | evidently intended | confidence | as-written member | corrected member |
|---|---|---|---|---|---|---|
| src/convexity-check.ts:46 | the guard `i > n` lets invocation n run past the last point | the triangle (0,0),(1,0),(0,1), with out-of-range reads returning different points: invocation 3 writes CONVEX into slot 3 | `i >= n`, as src/ear-clipping.ts:72 has it | not executed | ConvexityCheck.AsWrittenWritesPastEnd | ConvexityCheck.ClassifyKernel |
| src/convexity-check.ts:9 | points are uploaded packed, three floats each, but the shader's `Point { vec3<f32> }` has a 16-byte stride | the 4 by 3 rectangle: the shader sees 3 points, and its second is (0, 0, 4) | upload four floats per point | not executed | ConvexityCheck.PackedUploadMisreads | ConvexityCheck.PaddedUploadRoundTrip |
| src/ear-clipping.ts:174 | `new Uint32Array(points.length)` writes n zeros, so the active count reads 0 | any loop with n ≥ 1 points | write `[n]`, the number of active vertices | not executed | EarClipping.AsWrittenActiveCountIsZero | EarClipping.ActiveCountReadsN |
| src/step-parser.ts:152 | `gpuIndices.length` reads a property the returned object does not have, so the copy is empty | any face with three or more unique points | copy `gpuIndices.indicesU32` | not executed | StepMesh.AsWrittenDropsIndices | StepMesh.Uint16KeepsFan |
| src/point-in-triangle.test.ts:128-135 | row T2_P4 expects (3, 1.5) to be outside the triangle (1,1),(5,2),(2,4) | (3, 1.5) lies on edge AB, and the inclusive test reports inside | expect inside, as the edge rows of the table do | not executed | PointInTriangleTable.AsWrittenRowT2P4Disagrees | PointInTriangleTable.CorrectedTableAgrees |
