/**
 * The expected results of src/point-in-triangle.test.ts, evaluated against the
 * model of the kernel over exact reals.
 */
module PointInTriangleTable {
  import opened Wrappers
  import opened PointInTriangle

  /** A 2D point as the test writes it (`Vec2`). */
  datatype V2 = V2(x: real, y: real)

  /** A triangle as the test writes it (`Triangle`, three `Vec2`). */
  datatype Tri = Tri(a: V2, b: V2, c: V2)

  /** One row of the test table. */
  datatype Case = Case(triangle: Tri, point: V2, expected: bool)

  /** The coordinates handed to the operation: `[x, y]`. */
  function Coords(v: V2): (r: seq<real>)
    ensures |r| == 2 && r[0] == v.x && r[1] == v.y
  {
    [v.x, v.y]
  }

  /** The triangle handed to the operation: three 2D coordinate lists. */
  function Vertices(t: Tri): (r: seq<seq<real>>)
    ensures |r| == 3 && r[0] == Coords(t.a) && r[1] == Coords(t.b) && r[2] == Coords(t.c)
  {
    [Coords(t.a), Coords(t.b), Coords(t.c)]
  }

  /** A 2D point padded with zero `z` and padding. */
  function Flat(v: V2): Point4 {
    Point4(v.x, v.y, 0.0, 0.0)
  }

  const T1: Tri := Tri(V2(0.0, 0.0), V2(4.0, 0.0), V2(0.0, 3.0))
  const T2: Tri := Tri(V2(1.0, 1.0), V2(5.0, 2.0), V2(2.0, 4.0))
  const T3: Tri := Tri(V2(0.0, 0.0), V2(2.0, 0.0), V2(1.0, 2.0))
  const T4: Tri := Tri(V2(4.0, 0.0), V2(4.0, 4.0), V2(2.0, 2.0))
  const Nano: real := 0.000000001

  const Row00: Case := Case(T1, V2(1.0, 1.0), true)  // T1_P1_inside_simple
  const Row01: Case := Case(T1, V2(2.0, 0.5), true)  // T1_P2_inside_simple
  const Row02: Case := Case(T1, V2(4.0, 0.0), true)  // T1_P3_on_vertex_B
  const Row03: Case := Case(T1, V2(2.0, 0.0), true)  // T1_P4_on_edge_AB
  const Row04: Case := Case(T1, V2(0.0, 1.5), true)  // T1_P5_on_edge_AC
  const Row05: Case := Case(T1, V2(2.0, 1.5), true)  // T1_P6_on_edge_BC
  const Row06: Case := Case(T1, V2(5.0, 5.0), false)  // T1_P7_outside_far
  const Row07: Case := Case(T1, V2(-1.0, -1.0), false)  // T1_P8_outside_negative
  const Row08: Case := Case(T2, V2(2.5, 2.5), true)  // T2_P1_inside
  const Row09: Case := Case(T2, V2(3.0, 3.2), true)  // T2_P2_inside
  const Row10: Case := Case(T2, V2(1.0, 1.0), true)  // T2_P3_on_vertex_A
  const Row11: Case := Case(T2, V2(3.0, 1.5), false)  // T2_P4_outside_below
  const Row12: Case := Case(T2, V2(3.0, 3.5), false)  // T2_P5_outside_above
  const Row13: Case := Case(T3, V2(1.0, 1.0), true)  // T3_P1_inside
  const Row14: Case := Case(T3, V2(0.0, 0.0), true)  // T3_P2_on_vertex_A
  const Row15: Case := Case(T3, V2(2.0, 0.0), true)  // T3_P3_on_vertex_B
  const Row16: Case := Case(T3, V2(1.0, 2.0), true)  // T3_P4_on_vertex_C
  const Row17: Case := Case(T3, V2(1.0, 0.0), true)  // T3_P5_on_edge_AB
  const Row18: Case := Case(T3, V2(0.5, 1.0), true)  // T3_P6_on_edge_AC
  const Row19: Case := Case(T3, V2(1.5, 1.0), true)  // T3_P7_on_edge_BC
  const Row20: Case := Case(T3, V2(1.0, -0.1), false)  // T3_P8_outside_below
  const Row21: Case := Case(T3, V2(-0.1, 0.2), false)  // T3_P9_outside_left
  const Row22: Case := Case(T1, V2(2.0, Nano), true)  // T1_eps1_almost_on_AB_inside
  const Row23: Case := Case(T1, V2(2.0, -Nano), false)  // T1_eps2_almost_on_AB_outside
  const Row24: Case := Case(T1, V2(2.0, 1.5 + Nano), false)  // T1_eps3_almost_on_BC_outside
  const Row25: Case := Case(T1, V2(2.0, 1.5 - Nano), true)  // T1_eps4_almost_on_BC_inside
  const Row26: Case := Case(T4, V2(0.0, 0.0), false)  // T4_P1_outside_V0
  const Row27: Case := Case(T4, V2(0.0, 4.0), false)  // T4_P2_outside_V4
  const Row28: Case := Case(T4, V2(2.0, 2.0), true)  // T4_P3_on_vertex_V3

  /** The rows on triangle T1. */
  function T1Rows(): seq<Case> {
    [Row00, Row01, Row02, Row03, Row04, Row05, Row06, Row07]
  }

  /** The rows on triangle T2. */
  function T2Rows(): seq<Case> {
    [Row08, Row09, Row10, Row11, Row12]
  }

  /** The rows on triangle T3. */
  function T3Rows(): seq<Case> {
    [Row13, Row14, Row15, Row16, Row17, Row18, Row19, Row20, Row21]
  }

  /** The rows a billionth off an edge of T1. */
  function EpsilonRows(): seq<Case> {
    [Row22, Row23, Row24, Row25]
  }

  /** The rows on triangle T4. */
  function T4Rows(): seq<Case> {
    [Row26, Row27, Row28]
  }

  /** The rows after those on T2. */
  function LaterRows(): seq<Case> {
    T3Rows() + EpsilonRows() + T4Rows()
  }

  /** The table as the test file writes it, in its order. */
  function Cases(): seq<Case> {
    T1Rows() + T2Rows() + LaterRows()
  }

  /** Index of row T2_P4 in the table. */
  const RowT2P4: nat := 11

  /** A row agrees with the operation when it returns 1 exactly for the rows expected true. */
  predicate Agrees(t: Case) {
    IsPointInTriangle(Coords(t.point), Vertices(t.triangle)) == Success(if t.expected then 1 else 0)
  }

  /** A row agrees with the bare kernel run on the padded inputs. */
  predicate KernelAgrees(t: Case) {
    Kernel(Flat(t.triangle.a), Flat(t.triangle.b), Flat(t.triangle.c), Flat(t.point)) == if t.expected then 1 else 0
  }

  /** The table with row T2_P4 expecting `true`: its point (3, 1.5) lies on edge AB. */
  function CorrectedCases(): (cs: seq<Case>)
    ensures |cs| == |Cases()|
    ensures cs[RowT2P4] == Cases()[RowT2P4].(expected := true)
    ensures forall i | 0 <= i < |cs| && i != RowT2P4 :: cs[i] == Cases()[i]
  {
    T1Rows() + T2Rows()[3 := Row11.(expected := true)] + LaterRows()
  }

  /** Padding three 2D vertices gives three flat points. */
  lemma {:induction false} NormalizeTriangle(tri: Tri)
    ensures NormalizeAll(Vertices(tri)) == Success([Flat(tri.a), Flat(tri.b), Flat(tri.c)])
  {
    var v0, v1, v2 := Coords(tri.a), Coords(tri.b), Coords(tri.c);
    var q0, q1, q2 := Flat(tri.a), Flat(tri.b), Flat(tri.c);
    assert Normalize(v2) == Success(q2);
    assert [v2][1..] == [];
    assert [q2] + [] == [q2];
    assert NormalizeAll([v2]) == Success([q2]);
    assert Normalize(v1) == Success(q1);
    assert [v1, v2][1..] == [v2];
    assert [q1] + [q2] == [q1, q2];
    assert NormalizeAll([v1, v2]) == Success([q1, q2]);
    assert Normalize(v0) == Success(q0);
    assert Vertices(tri)[1..] == [v1, v2];
    assert [q0] + [q1, q2] == [q0, q1, q2];
  }

  /** On any 2D row, the operation returns the kernel's flag on the padded inputs. */
  lemma {:induction false} RowResult(t: Case)
    ensures IsPointInTriangle(Coords(t.point), Vertices(t.triangle))
              == Success(Kernel(Flat(t.triangle.a), Flat(t.triangle.b), Flat(t.triangle.c), Flat(t.point)))
  {
    NormalizeTriangle(t.triangle);
  }

  /** A list of rows agrees with the operation whenever it agrees with the kernel. */
  lemma {:induction false} RowsAgree(cs: seq<Case>)
    requires forall i | 0 <= i < |cs| :: KernelAgrees(cs[i])
    ensures forall i | 0 <= i < |cs| :: Agrees(cs[i])
  {
    forall i | 0 <= i < |cs|
      ensures Agrees(cs[i])
    {
      RowResult(cs[i]);
    }
  }

  /** As written, row T2_P4 contradicts the inclusive boundary policy: the point is on AB and the operation reports 1. */
  lemma {:induction false} AsWrittenRowT2P4Disagrees()
    ensures Cases()[RowT2P4] == Row11 && !Row11.expected
    ensures C1(Flat(V2(1.0, 1.0)), Flat(V2(5.0, 2.0)), Flat(V2(2.0, 4.0)), Flat(V2(3.0, 1.5))) == 0.0
    ensures IsPointInTriangle(Coords(Row11.point), Vertices(Row11.triangle)) == Success(1)
    ensures !Agrees(Cases()[RowT2P4])
  {
    assert Cases()[RowT2P4] == T2Rows()[3];
    assert C1(Flat(T2.a), Flat(T2.b), Flat(T2.c), Flat(Row11.point)) == 0.0;
    RowResult(Row11);
  }

  /** Every row of a list agrees with the kernel. */
  predicate AllKernelAgree(cs: seq<Case>) {
    forall i | 0 <= i < |cs| :: KernelAgrees(cs[i])
  }

  /** A row that agrees, put in front of rows that agree, gives rows that agree. */
  lemma {:induction false} ConsAgrees(x: Case, rest: seq<Case>)
    requires KernelAgrees(x) && AllKernelAgree(rest)
    ensures AllKernelAgree([x] + rest)
  {
    forall i | 0 <= i < |[x] + rest|
      ensures KernelAgrees(([x] + rest)[i])
    {
      if i > 0 {
        assert ([x] + rest)[i] == rest[i - 1];
      }
    }
  }

  lemma {:induction false} KernelAgreesAppend(a: seq<Case>, b: seq<Case>)
    requires AllKernelAgree(a) && AllKernelAgree(b)
    ensures AllKernelAgree(a + b)
  {
    forall i | 0 <= i < |a + b|
      ensures KernelAgrees((a + b)[i])
    {
      if i < |a| {
        assert (a + b)[i] == a[i];
      } else {
        assert (a + b)[i] == b[i - |a|];
      }
    }
  }

  /** T1_P1_inside_simple */
  lemma {:induction false} Row00Agrees()
    ensures KernelAgrees(Row00)
  {
  }

  /** T1_P2_inside_simple */
  lemma {:induction false} Row01Agrees()
    ensures KernelAgrees(Row01)
  {
  }

  /** T1_P3_on_vertex_B */
  lemma {:induction false} Row02Agrees()
    ensures KernelAgrees(Row02)
  {
  }

  /** T1_P4_on_edge_AB */
  lemma {:induction false} Row03Agrees()
    ensures KernelAgrees(Row03)
  {
  }

  /** T1_P5_on_edge_AC */
  lemma {:induction false} Row04Agrees()
    ensures KernelAgrees(Row04)
  {
  }

  /** T1_P6_on_edge_BC */
  lemma {:induction false} Row05Agrees()
    ensures KernelAgrees(Row05)
  {
  }

  /** T1_P7_outside_far */
  lemma {:induction false} Row06Agrees()
    ensures KernelAgrees(Row06)
  {
  }

  /** T1_P8_outside_negative */
  lemma {:induction false} Row07Agrees()
    ensures KernelAgrees(Row07)
  {
  }

  /** T2_P1_inside */
  lemma {:induction false} Row08Agrees()
    ensures KernelAgrees(Row08)
  {
  }

  /** T2_P2_inside */
  lemma {:induction false} Row09Agrees()
    ensures KernelAgrees(Row09)
  {
  }

  /** T2_P3_on_vertex_A */
  lemma {:induction false} Row10Agrees()
    ensures KernelAgrees(Row10)
  {
  }

  /** T2_P4_outside_below, expecting inside. */
  lemma {:induction false} Row11CorrectedAgrees()
    ensures KernelAgrees(Row11.(expected := true))
  {
  }

  /** T2_P5_outside_above */
  lemma {:induction false} Row12Agrees()
    ensures KernelAgrees(Row12)
  {
  }

  /** T3_P1_inside */
  lemma {:induction false} Row13Agrees()
    ensures KernelAgrees(Row13)
  {
  }

  /** T3_P2_on_vertex_A */
  lemma {:induction false} Row14Agrees()
    ensures KernelAgrees(Row14)
  {
  }

  /** T3_P3_on_vertex_B */
  lemma {:induction false} Row15Agrees()
    ensures KernelAgrees(Row15)
  {
  }

  /** T3_P4_on_vertex_C */
  lemma {:induction false} Row16Agrees()
    ensures KernelAgrees(Row16)
  {
  }

  /** T3_P5_on_edge_AB */
  lemma {:induction false} Row17Agrees()
    ensures KernelAgrees(Row17)
  {
  }

  /** T3_P6_on_edge_AC */
  lemma {:induction false} Row18Agrees()
    ensures KernelAgrees(Row18)
  {
  }

  /** T3_P7_on_edge_BC */
  lemma {:induction false} Row19Agrees()
    ensures KernelAgrees(Row19)
  {
  }

  /** T3_P8_outside_below */
  lemma {:induction false} Row20Agrees()
    ensures KernelAgrees(Row20)
  {
  }

  /** T3_P9_outside_left */
  lemma {:induction false} Row21Agrees()
    ensures KernelAgrees(Row21)
  {
  }

  /** T1_eps1_almost_on_AB_inside */
  lemma {:induction false} Row22Agrees()
    ensures KernelAgrees(Row22)
  {
  }

  /** T1_eps2_almost_on_AB_outside */
  lemma {:induction false} Row23Agrees()
    ensures KernelAgrees(Row23)
  {
  }

  /** T1_eps3_almost_on_BC_outside */
  lemma {:induction false} Row24Agrees()
    ensures KernelAgrees(Row24)
  {
  }

  /** T1_eps4_almost_on_BC_inside */
  lemma {:induction false} Row25Agrees()
    ensures KernelAgrees(Row25)
  {
  }

  /** T4_P1_outside_V0 */
  lemma {:induction false} Row26Agrees()
    ensures KernelAgrees(Row26)
  {
  }

  /** T4_P2_outside_V4 */
  lemma {:induction false} Row27Agrees()
    ensures KernelAgrees(Row27)
  {
  }

  /** T4_P3_on_vertex_V3 */
  lemma {:induction false} Row28Agrees()
    ensures KernelAgrees(Row28)
  {
  }

  lemma {:induction false} T1RowsAgree()
    ensures AllKernelAgree(T1Rows())
  {
    Row07Agrees();
    ConsAgrees(Row07, []);
    Row06Agrees();
    ConsAgrees(Row06, [Row07]);
    Row05Agrees();
    ConsAgrees(Row05, [Row06, Row07]);
    Row04Agrees();
    ConsAgrees(Row04, [Row05, Row06, Row07]);
    Row03Agrees();
    ConsAgrees(Row03, [Row04, Row05, Row06, Row07]);
    Row02Agrees();
    ConsAgrees(Row02, [Row03, Row04, Row05, Row06, Row07]);
    Row01Agrees();
    ConsAgrees(Row01, [Row02, Row03, Row04, Row05, Row06, Row07]);
    Row00Agrees();
    ConsAgrees(Row00, [Row01, Row02, Row03, Row04, Row05, Row06, Row07]);
    assert T1Rows() == [Row00] + [Row01, Row02, Row03, Row04, Row05, Row06, Row07];
  }

  lemma {:induction false} T2RowsCorrectedAgree()
    ensures AllKernelAgree(T2Rows()[3 := Row11.(expected := true)])
  {
    var rows := T2Rows()[3 := Row11.(expected := true)];
    forall i | 0 <= i < |rows|
      ensures KernelAgrees(rows[i])
    {
      if i == 0 {
        Row08Agrees();
      } else if i == 1 {
        Row09Agrees();
      } else if i == 2 {
        Row10Agrees();
      } else if i == 3 {
        Row11CorrectedAgrees();
      } else {
        Row12Agrees();
      }
    }
  }

  lemma {:induction false} T3InsideRowsAgree()
    ensures AllKernelAgree([Row13, Row14, Row15, Row16, Row17])
  {
    Row17Agrees();
    ConsAgrees(Row17, []);
    Row16Agrees();
    ConsAgrees(Row16, [Row17]);
    Row15Agrees();
    ConsAgrees(Row15, [Row16, Row17]);
    Row14Agrees();
    ConsAgrees(Row14, [Row15, Row16, Row17]);
    Row13Agrees();
    ConsAgrees(Row13, [Row14, Row15, Row16, Row17]);
  }

  lemma {:induction false} T3EdgeRowsAgree()
    ensures AllKernelAgree([Row18, Row19, Row20, Row21])
  {
    Row21Agrees();
    ConsAgrees(Row21, []);
    Row20Agrees();
    ConsAgrees(Row20, [Row21]);
    Row19Agrees();
    ConsAgrees(Row19, [Row20, Row21]);
    Row18Agrees();
    ConsAgrees(Row18, [Row19, Row20, Row21]);
  }

  lemma {:induction false} T3RowsAgree()
    ensures AllKernelAgree(T3Rows())
  {
    T3InsideRowsAgree();
    T3EdgeRowsAgree();
    KernelAgreesAppend([Row13, Row14, Row15, Row16, Row17], [Row18, Row19, Row20, Row21]);
    assert T3Rows() == [Row13, Row14, Row15, Row16, Row17] + [Row18, Row19, Row20, Row21];
  }

  lemma {:induction false} EpsilonRowsAgree()
    ensures AllKernelAgree(EpsilonRows())
  {
    var rows := EpsilonRows();
    forall i | 0 <= i < |rows|
      ensures KernelAgrees(rows[i])
    {
      if i == 0 {
        Row22Agrees();
      } else if i == 1 {
        Row23Agrees();
      } else if i == 2 {
        Row24Agrees();
      } else {
        Row25Agrees();
      }
    }
  }

  lemma {:induction false} T4RowsAgree()
    ensures AllKernelAgree(T4Rows())
  {
    var rows := T4Rows();
    forall i | 0 <= i < |rows|
      ensures KernelAgrees(rows[i])
    {
      if i == 0 {
        Row26Agrees();
      } else if i == 1 {
        Row27Agrees();
      } else {
        Row28Agrees();
      }
    }
  }

  /** With T2_P4 corrected, the operation agrees with every row of the table. */
  lemma {:induction false} CorrectedTableAgrees()
    ensures forall i | 0 <= i < |CorrectedCases()| :: Agrees(CorrectedCases()[i])
  {
    var t2 := T2Rows()[3 := Row11.(expected := true)];
    T1RowsAgree();
    T2RowsCorrectedAgree();
    T3RowsAgree();
    EpsilonRowsAgree();
    T4RowsAgree();
    KernelAgreesAppend(T3Rows(), EpsilonRows());
    KernelAgreesAppend(T3Rows() + EpsilonRows(), T4Rows());
    KernelAgreesAppend(T1Rows(), t2);
    KernelAgreesAppend(T1Rows() + t2, LaterRows());
    RowsAgree(CorrectedCases());
  }
}
