/** Plane and space vectors shared by every kernel of the triangulation. */
module Vectors {

  /** A boundary point (`Vec3` of the STEP parser) with exact real coordinates. */
  datatype Vec3 = Vec3(x: real, y: real, z: real)

  /** Component `k` of a point, as `p[k]` reads a `[x, y, z]` array. */
  function Coord(p: Vec3, k: nat): real
    requires k < 3
  {
    if k == 0 then p.x else if k == 1 then p.y else p.z
  }

  /** The z component of the cross product of two plane vectors: u.x*v.y - u.y*v.x. */
  function Cross(ux: real, uy: real, vx: real, vy: real): real {
    ux * vy - uy * vx
  }

  /** Cross product of two points read as position vectors (x and y only). */
  function CrossXY(p: Vec3, q: Vec3): real {
    Cross(p.x, p.y, q.x, q.y)
  }

  /** Swapping the two points negates their cross product. */
  lemma {:induction false} CrossXYAntisymmetric(p: Vec3, q: Vec3)
    ensures CrossXY(q, p) == -CrossXY(p, q)
  {
  }
}

/** Cyclic neighbours of a vertex in a closed loop of `n` vertices. */
module Cyclic {

  /** The predecessor: `n - 1` for vertex 0, otherwise `i - 1`. */
  function PrevIndex(i: nat, n: nat): (r: nat)
    requires i < n
    ensures r < n
  {
    if i == 0 then n - 1 else i - 1
  }

  /** The successor: 0 for the last vertex, otherwise `i + 1`. */
  function NextIndex(i: nat, n: nat): (r: nat)
    requires i < n
    ensures r < n
  {
    if i == n - 1 then 0 else i + 1
  }
}
