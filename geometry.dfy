/** Value types shared by the mesh generators: points, flat attribute
    buffers and the mesh bundle they form. Coordinates are `real`; the
    rounding of the JavaScript Float32Array buffers is not modelled. */
module Geometry {

  datatype Option<T> = None | Some(value: T)

  /** A point or a direction in space. */
  datatype Vec3 = Vec3(x: real, y: real, z: real)

  function Add(u: Vec3, v: Vec3): Vec3 { Vec3(u.x + v.x, u.y + v.y, u.z + v.z) }

  function Sub(u: Vec3, v: Vec3): Vec3 { Vec3(u.x - v.x, u.y - v.y, u.z - v.z) }

  function Scale(s: real, v: Vec3): Vec3 { Vec3(s * v.x, s * v.y, s * v.z) }

  function Dot(u: Vec3, v: Vec3): real { u.x * v.x + u.y * v.y + u.z * v.z }

  function Cross(u: Vec3, v: Vec3): Vec3
  {
    Vec3(u.y * v.z - u.z * v.y, u.z * v.x - u.x * v.z, u.x * v.y - u.y * v.x)
  }

  /** A bundle of parallel attribute buffers describing a triangle list.
      `indices` is None for a non-indexed mesh. */
  datatype Mesh = Mesh(positions: seq<real>, normals: seq<real>, uvs: seq<real>, indices: Option<seq<int>>)

  /** The `q`-th (x, y, z) triple of a flat buffer. */
  function Vertex(buf: seq<real>, q: nat): Vec3
    requires 3 * q + 2 < |buf|
  {
    Vec3(buf[3 * q], buf[3 * q + 1], buf[3 * q + 2])
  }

  /** The `q`-th (u, v) pair of a flat buffer. */
  function TexCoord(buf: seq<real>, q: nat): (real, real)
    requires 2 * q + 1 < |buf|
  {
    (buf[2 * q], buf[2 * q + 1])
  }

  /** Lays the points out as consecutive (x, y, z) triples. */
  function Flatten(vs: seq<Vec3>): (r: seq<real>)
    ensures |r| == 3 * |vs|
    ensures forall q {:trigger Vertex(r, q)} :: 0 <= q < |vs| ==> Vertex(r, q) == vs[q]
  {
    if vs == [] then []
    else
      var last := vs[|vs| - 1];
      var r := Flatten(vs[..|vs| - 1]) + [last.x, last.y, last.z];
      assert forall q {:trigger Vertex(r, q)} :: 0 <= q < |vs| - 1 ==> Vertex(r, q) == Vertex(Flatten(vs[..|vs| - 1]), q);
      r
  }

  /** Lays the pairs out as consecutive (u, v) pairs. */
  function FlattenPairs(ts: seq<(real, real)>): (r: seq<real>)
    ensures |r| == 2 * |ts|
    ensures forall q {:trigger TexCoord(r, q)} :: 0 <= q < |ts| ==> TexCoord(r, q) == ts[q]
  {
    if ts == [] then []
    else
      var last := ts[|ts| - 1];
      var r := FlattenPairs(ts[..|ts| - 1]) + [last.0, last.1];
      assert forall q {:trigger TexCoord(r, q)} :: 0 <= q < |ts| - 1 ==> TexCoord(r, q) == TexCoord(FlattenPairs(ts[..|ts| - 1]), q);
      r
  }
}
