/**
 * The buffer set-up of `earClipping` (src/ear-clipping.ts): the active-vertex
 * list as a doubly linked cycle embedded in the `prev`/`next` index arrays,
 * the byte sizes of the eight buffers, and their initial contents.
 */
module EarClipping {
  import opened Wrappers
  import opened Cyclic

  /** `BYTE_SIZE`: bytes per u32 slot. */
  const ByteSize: nat := 4

  /** `VERTEX_PER_TRIANGLE`. */
  const VertexPerTriangle: nat := 3

  /** The `prev` table: the predecessor of each vertex in the closed loop. */
  function PrevTable(n: nat): (r: seq<nat>)
    ensures |r| == n
  {
    seq(n, i requires 0 <= i < n => PrevIndex(i, n))
  }

  /** The `next` table: the successor of each vertex in the closed loop. */
  function NextTable(n: nat): (r: seq<nat>)
    ensures |r| == n
  {
    seq(n, i requires 0 <= i < n => NextIndex(i, n))
  }

  /** The `for` loop of `initializeBuffers` filling two zeroed `Uint32Array`s of length n. */
  method InitPrevNext(n: nat) returns (prev: array<nat>, next: array<nat>)
    ensures fresh(prev) && fresh(next)
    ensures prev[..] == PrevTable(n) && next[..] == NextTable(n)
  {
    prev := new nat[n](_ => 0);
    next := new nat[n](_ => 0);
    var i := 0;
    while i < n
      invariant 0 <= i <= n
      invariant prev.Length == n && next.Length == n
      invariant forall j | 0 <= j < i :: prev[j] == PrevIndex(j, n) && next[j] == NextIndex(j, n)
    {
      prev[i] := if i == 0 then n - 1 else i - 1;
      next[i] := if i == n - 1 then 0 else i + 1;
      i := i + 1;
    }
  }

  /** The two tables are mutually inverse links that stay inside [0, n). */
  lemma {:induction false} LinksInverse(n: nat, i: nat)
    requires i < n
    ensures PrevTable(n)[i] < n && NextTable(n)[i] < n
    ensures NextTable(n)[PrevTable(n)[i]] == i
    ensures PrevTable(n)[NextTable(n)[i]] == i
  {
  }

  /** Every entry of a link table points inside the table. */
  predicate Closed(links: seq<nat>) {
    forall i | 0 <= i < |links| :: links[i] < |links|
  }

  /** The vertex reached from `start` after following `links` `k` times. */
  function Walk(links: seq<nat>, start: nat, k: nat): (r: nat)
    requires Closed(links) && start < |links|
    ensures r < |links|
    decreases k
  {
    if k == 0 then start else Walk(links, links[start], k - 1)
  }

  /** One more step of a walk follows one more link. */
  lemma {:induction false} WalkStep(links: seq<nat>, start: nat, k: nat)
    requires Closed(links) && start < |links|
    ensures Walk(links, start, k + 1) == links[Walk(links, start, k)]
    decreases k
  {
    if k > 0 {
      WalkStep(links, links[start], k - 1);
    }
  }

  /** Following `next` from vertex 0, step k lands on vertex k for every k < n. */
  lemma {:induction false} WalkVisitsInOrder(n: nat, k: nat)
    requires 0 < n && k < n
    ensures Closed(NextTable(n))
    ensures Walk(NextTable(n), 0, k) == k
  {
    if k > 0 {
      WalkVisitsInOrder(n, k - 1);
      WalkStep(NextTable(n), 0, k - 1);
    }
  }

  /**
   * The `next` links form one cycle through all n vertices: the first n steps
   * from 0 visit pairwise different vertices, and step n is back at 0.
   */
  lemma {:induction false} SingleCycle(n: nat)
    requires 0 < n
    ensures Closed(NextTable(n))
    ensures forall a, b | 0 <= a < b < n :: Walk(NextTable(n), 0, a) != Walk(NextTable(n), 0, b)
    ensures Walk(NextTable(n), 0, n) == 0
  {
    WalkVisitsInOrder(n, 0);
    forall a, b | 0 <= a < b < n
      ensures Walk(NextTable(n), 0, a) != Walk(NextTable(n), 0, b)
    {
      WalkVisitsInOrder(n, a);
      WalkVisitsInOrder(n, b);
    }
    WalkVisitsInOrder(n, n - 1);
    WalkStep(NextTable(n), 0, n - 1);
  }

  // ---------------------------------------------------------------------------
  // Buffer sizes and initial contents.

  /** `createBuffer` rejects a negative size. */
  datatype BufferError = NegativeBufferSize(size: int)

  /** Byte sizes of the buffers created by `initializeBuffers` (the points buffer is left out). */
  datatype BufferSizes = BufferSizes(
    outputIndices: nat, vertexIsEar: nat, previousVertex: nat, nextVertex: nat,
    activeCount: nat, triangleCount: nat, classifiedPoints: nat)

  /** The sizes for `n` points, or the failure of the output-index buffer when n < 2. */
  function Sizes(n: nat): (r: Result<BufferSizes, BufferError>)
    ensures r.Failure? <==> n < 2
    ensures r.Success? ==> r.value.outputIndices == VertexPerTriangle * (n - 2) * ByteSize
    ensures r.Success? ==> r.value.vertexIsEar == ByteSize * n && r.value.previousVertex == ByteSize * n
    ensures r.Success? ==> r.value.nextVertex == ByteSize * n && r.value.classifiedPoints == ByteSize * n
    ensures r.Success? ==> r.value.activeCount == ByteSize && r.value.triangleCount == ByteSize
  {
    var outputSize: int := VertexPerTriangle * (n - 2) * ByteSize;
    if outputSize < 0 then Failure(NegativeBufferSize(outputSize))
    else Success(BufferSizes(outputSize, ByteSize * n, ByteSize * n, ByteSize * n, ByteSize, ByteSize, ByteSize * n))
  }

  /** A u32 buffer of `bytes` bytes holds `bytes / 4` slots; each per-vertex buffer holds exactly one per vertex. */
  lemma {:induction false} PerVertexSlots(n: nat)
    requires n >= 2
    ensures Sizes(n).value.vertexIsEar / ByteSize == n
    ensures Sizes(n).value.outputIndices / ByteSize == VertexPerTriangle * (n - 2)
  {
  }

  /**
   * `writeBuffer(buffer, 0, data)`: the first `|data|` slots take `data` when it
   * fits; data longer than the buffer is rejected and leaves the buffer as it was.
   */
  function WriteBuffer(buffer: seq<nat>, data: seq<nat>): (r: seq<nat>)
    ensures |r| == |buffer|
    ensures |data| <= |buffer| ==> r[..|data|] == data && r[|data|..] == buffer[|data|..]
    ensures |data| > |buffer| ==> r == buffer
  {
    if |data| <= |buffer| then data + buffer[|data|..] else buffer
  }

  /** A freshly created buffer of `slots` u32 slots: all zero. */
  function Zeroed(slots: nat): (r: seq<nat>)
    ensures |r| == slots && forall i | 0 <= i < slots :: r[i] == 0
  {
    seq(slots, _ => 0)
  }

  /** The one-slot `activeCount` buffer after `writeBuffer(activeCount, 0, new Uint32Array(n))` as written. */
  function ActiveCountAsWritten(n: nat): seq<nat> {
    WriteBuffer(Zeroed(1), Zeroed(n))
  }

  /** The one-slot `activeCount` buffer after writing `[n]`, the count of active vertices. */
  function ActiveCount(n: nat): seq<nat> {
    WriteBuffer(Zeroed(1), [n])
  }

  /** The one-slot `triangleCount` buffer after writing an empty array. */
  function TriangleCountInit(): seq<nat> {
    WriteBuffer(Zeroed(1), [])
  }

  /** As written, the active count reads 0 for every loop with at least one vertex, instead of n. */
  lemma {:induction false} AsWrittenActiveCountIsZero(n: nat)
    requires n >= 1
    ensures ActiveCountAsWritten(n) == [0]
    ensures ActiveCountAsWritten(n) != [n]
  {
  }

  /** Writing `[n]` makes the active count read n; the triangle count reads 0 as intended. */
  lemma {:induction false} ActiveCountReadsN(n: nat)
    ensures ActiveCount(n) == [n]
    ensures TriangleCountInit() == [0]
  {
  }
}
