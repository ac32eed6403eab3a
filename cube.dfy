/** `createCube`: a non-indexed box mesh of six faces, two triangles per
    face, built from an origin corner and the box's dimensions. */
module Cube {
  import opened Geometry

  /** A missing field stands for an absent (undefined) option. Any array
      given is truthy, so a given value is always used as it is. */
  datatype CubeOptions = CubeOptions(dimensions: Option<Vec3>, position: Option<Vec3>)

  /** The dimensions default to (1, 1, 1). */
  function Dimensions(opts: CubeOptions): (d: Vec3)
    ensures opts.dimensions.Some? ==> d == opts.dimensions.value
    ensures opts.dimensions.None? ==> d == Vec3(1.0, 1.0, 1.0)
  {
    match opts.dimensions
    case Some(d) => d
    case None => Vec3(1.0, 1.0, 1.0)
  }

  /** The origin corner defaults to minus half the (defaulted) dimensions,
      which centres the box on the origin. */
  function Position(opts: CubeOptions): (p: Vec3)
    ensures opts.position.Some? ==> p == opts.position.value
    ensures opts.position.None? ==> Add(p, Scale(0.5, Dimensions(opts))) == Vec3(0.0, 0.0, 0.0)
  {
    match opts.position
    case Some(p) => p
    case None =>
      var d := Dimensions(opts);
      Vec3(-d.x / 2.0, -d.y / 2.0, -d.z / 2.0)
  }

  /** The eight corner records: f/b = front (z + depth) or back (z),
      b/t = bottom (y) or top (y + height), l/r = left (x) or right (x + width). */
  datatype Corners = Corners(fbl: Vec3, fbr: Vec3, ftl: Vec3, ftr: Vec3,
                             bbl: Vec3, bbr: Vec3, btl: Vec3, btr: Vec3)

  function CornersOf(p: Vec3, d: Vec3): (c: Corners)
    ensures c.bbl == p && c.ftr == Add(p, d)
    ensures c.fbl.z == c.fbr.z == c.ftl.z == c.ftr.z == p.z + d.z
    ensures c.bbl.z == c.bbr.z == c.btl.z == c.btr.z == p.z
    ensures c.fbl.y == c.fbr.y == c.bbl.y == c.bbr.y == p.y
    ensures c.ftl.y == c.ftr.y == c.btl.y == c.btr.y == p.y + d.y
    ensures c.fbl.x == c.ftl.x == c.bbl.x == c.btl.x == p.x
    ensures c.fbr.x == c.ftr.x == c.bbr.x == c.btr.x == p.x + d.x
  {
    Corners(Vec3(p.x,       p.y,       p.z + d.z),
            Vec3(p.x + d.x, p.y,       p.z + d.z),
            Vec3(p.x,       p.y + d.y, p.z + d.z),
            Vec3(p.x + d.x, p.y + d.y, p.z + d.z),
            Vec3(p.x,       p.y,       p.z),
            Vec3(p.x + d.x, p.y,       p.z),
            Vec3(p.x,       p.y + d.y, p.z),
            Vec3(p.x + d.x, p.y + d.y, p.z))
  }

  /** Two triangles over a face's bottom-left, bottom-right, top-left and
      top-right corners, in the order every face of the box uses. */
  function Quad(bl: Vec3, br: Vec3, tl: Vec3, tr: Vec3): seq<Vec3>
  {
    [bl, br, tl, tl, br, tr]
  }

  /** The four corners of face `f` (0 front, 1 right, 2 back, 3 left,
      4 top, 5 bottom) laid out as two triangles. The back face's first
      vertex takes its x from `fbr` and its y and z from `bbr`, as the
      source writes it. */
  function FaceQuad(c: Corners, f: nat): (q: seq<Vec3>)
    requires f < 6
    ensures |q| == 6 && q[3] == q[2] && q[4] == q[1]
  {
    if f == 0 then Quad(c.fbl, c.fbr, c.ftl, c.ftr)
    else if f == 1 then Quad(c.fbr, c.bbr, c.ftr, c.btr)
    else if f == 2 then Quad(Vec3(c.fbr.x, c.bbr.y, c.bbr.z), c.bbl, c.btr, c.btl)
    else if f == 3 then Quad(c.bbl, c.fbl, c.btl, c.ftl)
    else if f == 4 then Quad(c.ftl, c.ftr, c.btl, c.btr)
    else Quad(c.bbl, c.bbr, c.fbl, c.fbr)
  }

  /** The 36 vertices, six per face, faces in the order of `FaceQuad`. */
  function BoxVertices(p: Vec3, d: Vec3): (vs: seq<Vec3>)
    ensures |vs| == 36
  {
    var c := CornersOf(p, d);
    seq(36, v requires 0 <= v < 36 => FaceQuad(c, v / 6)[v % 6])
  }

  /** The normal table: one constant normal per face. */
  function FaceNormal(f: nat): Vec3
    requires f < 6
  {
    [Vec3(0.0, 0.0, 1.0), Vec3(1.0, 0.0, 0.0), Vec3(0.0, 0.0, -1.0),
     Vec3(-1.0, 0.0, 0.0), Vec3(0.0, 1.0, 0.0), Vec3(0.0, -1.0, 0.0)][f]
  }

  function BoxNormals(): (ns: seq<Vec3>)
    ensures |ns| == 36
  {
    seq(36, v requires 0 <= v < 36 => FaceNormal(v / 6))
  }

  /** The (u, v) pattern of one face, repeated for all six. */
  function FaceUVs(): seq<real>
  {
    [0.0, 0.0,  1.0, 0.0,  0.0, 1.0,  0.0, 1.0,  1.0, 0.0,  1.0, 1.0]
  }

  function BoxUVs(): (uvs: seq<real>)
    ensures |uvs| == 72
  {
    seq(72, i requires 0 <= i < 72 => FaceUVs()[i % 12])
  }

  /** The box mesh with origin corner `p` and dimensions `d`; shared by
      `CreateCube` and the bounding-box geometry. */
  function BoxMesh(p: Vec3, d: Vec3): (mesh: Mesh)
    ensures |mesh.positions| == 3 * 36 && |mesh.normals| == 3 * 36 && |mesh.uvs| == 2 * 36
    ensures mesh.indices == None
  {
    Mesh(Flatten(BoxVertices(p, d)), Flatten(BoxNormals()), BoxUVs(), None)
  }

  /** `createCube`: 36 position triples, 36 normal triples and 36 texture
      pairs and no index buffer, spanning the box from the resolved
      position (vertex 13) to position + dimensions (vertex 5). */
  function CreateCube(opts: CubeOptions): (mesh: Mesh)
    ensures |mesh.positions| == 3 * 36 && |mesh.normals| == 3 * 36 && |mesh.uvs| == 2 * 36
    ensures mesh.indices == None
    ensures Vertex(mesh.positions, 13) == Position(opts)
    ensures Vertex(mesh.positions, 5) == Add(Position(opts), Dimensions(opts))
  {
    LowCorner(Position(opts), Dimensions(opts));
    HighCorner(Position(opts), Dimensions(opts));
    BoxMesh(Position(opts), Dimensions(opts))
  }

  // ---------------------------------------------------------------------
  // An independent description of the box, face by face.

  datatype Face = Front | Right | Back | Left | Top | Bottom

  /** The face that vertex `v` (0 <= v < 36) belongs to. */
  function FaceOf(v: nat): Face
    requires v < 36
  {
    [Front, Right, Back, Left, Top, Bottom][v / 6]
  }

  /** The outward unit axis of each face. */
  function OutwardNormal(f: Face): Vec3
  {
    match f
    case Front => Vec3(0.0, 0.0, 1.0)
    case Right => Vec3(1.0, 0.0, 0.0)
    case Back => Vec3(0.0, 0.0, -1.0)
    case Left => Vec3(-1.0, 0.0, 0.0)
    case Top => Vec3(0.0, 1.0, 0.0)
    case Bottom => Vec3(0.0, -1.0, 0.0)
  }

  /** The corner of face `f` that texture coordinate (0, 0) maps to. */
  function FaceOrigin(p: Vec3, d: Vec3, f: Face): Vec3
  {
    match f
    case Front => Vec3(p.x, p.y, p.z + d.z)
    case Right => Vec3(p.x + d.x, p.y, p.z + d.z)
    case Back => Vec3(p.x + d.x, p.y, p.z)
    case Left => p
    case Top => Vec3(p.x, p.y + d.y, p.z + d.z)
    case Bottom => p
  }

  /** The edge of face `f` along which u grows from 0 to 1. */
  function FaceU(d: Vec3, f: Face): Vec3
  {
    match f
    case Front => Vec3(d.x, 0.0, 0.0)
    case Right => Vec3(0.0, 0.0, -d.z)
    case Back => Vec3(-d.x, 0.0, 0.0)
    case Left => Vec3(0.0, 0.0, d.z)
    case Top => Vec3(d.x, 0.0, 0.0)
    case Bottom => Vec3(d.x, 0.0, 0.0)
  }

  /** The edge of face `f` along which v grows from 0 to 1. */
  function FaceV(d: Vec3, f: Face): Vec3
  {
    match f
    case Front | Right | Back | Left => Vec3(0.0, d.y, 0.0)
    case Top => Vec3(0.0, 0.0, -d.z)
    case Bottom => Vec3(0.0, 0.0, d.z)
  }

  /** The corner of face `f` that texture coordinate `uv` names: a
      component 1.0 moves one edge along `FaceU` or `FaceV`. */
  function FaceCorner(p: Vec3, d: Vec3, f: Face, uv: (real, real)): Vec3
  {
    var o := FaceOrigin(p, d, f);
    if uv.0 == 1.0 then
      (if uv.1 == 1.0 then Add(Add(o, FaceU(d, f)), FaceV(d, f)) else Add(o, FaceU(d, f)))
    else
      (if uv.1 == 1.0 then Add(o, FaceV(d, f)) else o)
  }

  /** The area of face `f`, positive for a box with positive dimensions. */
  function FaceArea(d: Vec3, f: Face): real
  {
    match f
    case Front | Back => d.x * d.y
    case Right | Left => d.z * d.y
    case Top | Bottom => d.x * d.z
  }

  /** The texture coordinate of each of a face's six vertices: the unit
      square's corners (0, 0), (1, 0), (0, 1), (0, 1), (1, 0), (1, 1). */
  function UnitSquare(s: nat): (real, real)
    requires s < 6
  {
    if s == 0 then (0.0, 0.0)
    else if s == 1 || s == 4 then (1.0, 0.0)
    else if s == 2 || s == 3 then (0.0, 1.0)
    else (1.0, 1.0)
  }

  /** The plane that face `f` lies in: its defining coordinate is fixed. */
  predicate OnFacePlane(v: Vec3, p: Vec3, d: Vec3, f: Face)
  {
    match f
    case Front => v.z == p.z + d.z
    case Right => v.x == p.x + d.x
    case Back => v.z == p.z
    case Left => v.x == p.x
    case Top => v.y == p.y + d.y
    case Bottom => v.y == p.y
  }

  /** `v` is one of the eight corners of the box at `p` with dimensions `d`. */
  predicate IsCorner(v: Vec3, p: Vec3, d: Vec3)
  {
    (v.x == p.x || v.x == p.x + d.x)
    && (v.y == p.y || v.y == p.y + d.y)
    && (v.z == p.z || v.z == p.z + d.z)
  }

  predicate Within(v: Vec3, lo: Vec3, hi: Vec3)
  {
    lo.x <= v.x <= hi.x && lo.y <= v.y <= hi.y && lo.z <= v.z <= hi.z
  }

  /** The geometric normal of triangle `t` of a flat triangle list: the
      cross product of its two edges from its first vertex. */
  function TriangleNormal(buf: seq<real>, t: nat): Vec3
    requires 9 * t + 8 < |buf|
  {
    var a := Vertex(buf, 3 * t);
    Cross(Sub(Vertex(buf, 3 * t + 1), a), Sub(Vertex(buf, 3 * t + 2), a))
  }

  // ---------------------------------------------------------------------
  // The generated mesh against that description.

  lemma {:induction false} FaceUVsAt(s: nat)
    requires s < 6
    ensures TexCoord(FaceUVs(), s) == UnitSquare(s)
  {
    if s == 0 {} else if s == 1 {} else if s == 2 {} else if s == 3 {} else if s == 4 {} else {}
  }

  /** Slot `s` of face `f` in the table, read against the description. */
  lemma {:induction false} QuadSlot(p: Vec3, d: Vec3, f: nat, s: nat)
    requires f < 6 && s < 6
    ensures FaceQuad(CornersOf(p, d), f)[s] == FaceCorner(p, d, FaceOf(6 * f), UnitSquare(s))
  {
  }

  lemma {:induction false} QuadSlotPlane(p: Vec3, d: Vec3, f: nat, s: nat)
    requires f < 6 && s < 6
    ensures OnFacePlane(FaceQuad(CornersOf(p, d), f)[s], p, d, FaceOf(6 * f))
  {
  }

  lemma {:induction false} QuadSlotCorner(p: Vec3, d: Vec3, f: nat, s: nat)
    requires f < 6 && s < 6
    ensures IsCorner(FaceQuad(CornersOf(p, d), f)[s], p, d)
  {
  }

  lemma FaceNormalAt(f: nat)
    requires f < 6
    ensures FaceNormal(f) == OutwardNormal(FaceOf(6 * f))
  {
  }

  // Where vertex `v` comes from in the three tables.

  lemma PositionsAt(p: Vec3, d: Vec3, v: nat)
    requires v < 36
    ensures Vertex(BoxMesh(p, d).positions, v) == BoxVertices(p, d)[v]
  {
  }

  lemma BoxVerticesAt(p: Vec3, d: Vec3, v: nat)
    requires v < 36
    ensures BoxVertices(p, d)[v] == FaceQuad(CornersOf(p, d), v / 6)[v % 6]
  {
  }

  lemma NormalTableAt(v: nat)
    requires v < 36
    ensures Vertex(Flatten(BoxNormals()), v) == FaceNormal(v / 6)
  {
  }

  lemma {:induction false} UVTableAt(v: nat)
    requires v < 36
    ensures TexCoord(BoxUVs(), v) == TexCoord(FaceUVs(), v % 6)
  {
    var s := v % 6;
    assert 2 * v == 12 * (v / 6) + 2 * s;
    assert (2 * v) % 12 == 2 * s && (2 * v + 1) % 12 == 2 * s + 1;
  }

  lemma FaceOfSlot(v: nat)
    requires v < 36
    ensures FaceOf(v) == FaceOf(6 * (v / 6))
  {
  }

  /** Everything about one vertex `v` of the box mesh. */
  lemma {:induction false} BoxVertexAt(p: Vec3, d: Vec3, v: nat)
    requires v < 36
    ensures Vertex(BoxMesh(p, d).positions, v) == FaceCorner(p, d, FaceOf(v), TexCoord(BoxMesh(p, d).uvs, v))
    ensures Vertex(BoxMesh(p, d).normals, v) == OutwardNormal(FaceOf(v))
    ensures TexCoord(BoxMesh(p, d).uvs, v) == UnitSquare(v % 6)
    ensures OnFacePlane(Vertex(BoxMesh(p, d).positions, v), p, d, FaceOf(v))
    ensures IsCorner(Vertex(BoxMesh(p, d).positions, v), p, d)
  {
    var f, s := v / 6, v % 6;
    PositionsAt(p, d, v);
    BoxVerticesAt(p, d, v);
    NormalTableAt(v);
    UVTableAt(v);
    FaceOfSlot(v);
    FaceNormalAt(f);
    FaceUVsAt(s);
    QuadSlot(p, d, f, s);
    QuadSlotPlane(p, d, f, s);
    QuadSlotCorner(p, d, f, s);
  }

  /** Each vertex is the corner of its face that its texture coordinate
      names: the (u, v) pattern maps each face's unit square onto the face. */
  lemma CubeFaceLayout(p: Vec3, d: Vec3)
    ensures forall v :: 0 <= v < 36 ==>
      Vertex(BoxMesh(p, d).positions, v) == FaceCorner(p, d, FaceOf(v), TexCoord(BoxMesh(p, d).uvs, v))
  {
    forall v | 0 <= v < 36
      ensures Vertex(BoxMesh(p, d).positions, v) == FaceCorner(p, d, FaceOf(v), TexCoord(BoxMesh(p, d).uvs, v))
    {
      BoxVertexAt(p, d, v);
    }
  }

  /** The normals are constant within each run of six vertices and equal
      to the face's outward axis: +Z, +X, -Z, -X, +Y, -Y in face order. */
  lemma CubeNormals(p: Vec3, d: Vec3)
    ensures forall v :: 0 <= v < 36 ==> Vertex(BoxMesh(p, d).normals, v) == OutwardNormal(FaceOf(v))
  {
    forall v | 0 <= v < 36 ensures Vertex(BoxMesh(p, d).normals, v) == OutwardNormal(FaceOf(v)) {
      BoxVertexAt(p, d, v);
    }
  }

  /** Every face uses the same texture coordinates (0,0), (1,0), (0,1),
      (0,1), (1,0), (1,1), each component 0 or 1. */
  lemma CubeUVs(p: Vec3, d: Vec3)
    ensures forall v :: 0 <= v < 36 ==> TexCoord(BoxMesh(p, d).uvs, v) == UnitSquare(v % 6)
    ensures forall i :: 0 <= i < |BoxMesh(p, d).uvs| ==> BoxMesh(p, d).uvs[i] == 0.0 || BoxMesh(p, d).uvs[i] == 1.0
  {
    forall v | 0 <= v < 36 ensures TexCoord(BoxMesh(p, d).uvs, v) == UnitSquare(v % 6) {
      BoxVertexAt(p, d, v);
    }
    var uvs := BoxUVs();
    forall i | 0 <= i < |uvs| ensures uvs[i] == 0.0 || uvs[i] == 1.0 {
      assert uvs[i] == FaceUVs()[i % 12];
    }
  }

  /** Every vertex is one of the eight corners, and each face holds its
      defining coordinate fixed. */
  lemma CubeCorners(p: Vec3, d: Vec3)
    ensures forall v :: 0 <= v < 36 ==> IsCorner(Vertex(BoxMesh(p, d).positions, v), p, d)
    ensures forall v :: 0 <= v < 36 ==> OnFacePlane(Vertex(BoxMesh(p, d).positions, v), p, d, FaceOf(v))
  {
    forall v | 0 <= v < 36
      ensures IsCorner(Vertex(BoxMesh(p, d).positions, v), p, d)
      ensures OnFacePlane(Vertex(BoxMesh(p, d).positions, v), p, d, FaceOf(v))
    {
      BoxVertexAt(p, d, v);
    }
  }

  /** With non-negative dimensions every vertex lies in [p, p + d], and
      both extremes are vertices (the back face's second vertex is `p`,
      the front face's last is `p + d`). */
  lemma CubeSpan(p: Vec3, d: Vec3)
    requires d.x >= 0.0 && d.y >= 0.0 && d.z >= 0.0
    ensures forall v :: 0 <= v < 36 ==> Within(Vertex(BoxMesh(p, d).positions, v), p, Add(p, d))
    ensures Vertex(BoxMesh(p, d).positions, 13) == p
    ensures Vertex(BoxMesh(p, d).positions, 5) == Add(p, d)
  {
    CubeWithin(p, d);
    LowCorner(p, d);
    HighCorner(p, d);
  }

  /** The sum of the first `c` (x, y, z) triples of a flat buffer. */
  function BufferSum(buf: seq<real>, c: nat): Vec3
    requires 3 * c <= |buf|
  {
    if c == 0 then Vec3(0.0, 0.0, 0.0) else Add(BufferSum(buf, c - 1), Vertex(buf, c - 1))
  }

  /** The sum of the six vertices of one face. */
  function QuadTotal(q: seq<Vec3>): Vec3
    requires |q| == 6
  {
    Add(Add(Add(Add(Add(q[0], q[1]), q[2]), q[3]), q[4]), q[5])
  }

  /** The vertices average to the centre of the box: their sum is 36 times
      position + dimensions / 2. Each face lists bl, br, tl, tl, br, tr, and
      bl + tr = br + tl, so every face sums to six times its own centre. */
  lemma CubeCentroid(p: Vec3, d: Vec3)
    ensures BufferSum(BoxMesh(p, d).positions, 36) == Scale(36.0, Add(p, Scale(0.5, d)))
    ensures Scale(1.0 / 36.0, BufferSum(BoxMesh(p, d).positions, 36)) == Add(p, Scale(0.5, d))
  {
    var c := CornersOf(p, d);
    var t := seq(6, f requires 0 <= f < 6 => QuadTotal(FaceQuad(c, f)));
    forall f | 0 <= f < 6
      ensures BufferSum(BoxMesh(p, d).positions, 6 * f + 6) == Add(BufferSum(BoxMesh(p, d).positions, 6 * f), t[f])
    {
      FaceStep(p, d, f);
    }
    BlockChain(BoxMesh(p, d).positions, t);
    FacesTotal(p, d);
    Unscale(BufferSum(BoxMesh(p, d).positions, 36), Add(p, Scale(0.5, d)));
  }

  lemma Unscale(s: Vec3, m: Vec3)
    requires s == Scale(36.0, m)
    ensures Scale(1.0 / 36.0, s) == m
  {
  }

  /** A sum over six blocks of six triples is the sum of the block sums. */
  lemma BlockChain(buf: seq<real>, t: seq<Vec3>)
    requires |buf| >= 108 && |t| == 6
    requires forall f :: 0 <= f < 6 ==> BufferSum(buf, 6 * f + 6) == Add(BufferSum(buf, 6 * f), t[f])
    ensures BufferSum(buf, 36) == Add(Add(Add(Add(Add(t[0], t[1]), t[2]), t[3]), t[4]), t[5])
  {
    assert BufferSum(buf, 0) == Vec3(0.0, 0.0, 0.0);
    assert BufferSum(buf, 6) == Add(BufferSum(buf, 0), t[0]);
    assert BufferSum(buf, 12) == Add(BufferSum(buf, 6), t[1]);
    assert BufferSum(buf, 18) == Add(BufferSum(buf, 12), t[2]);
    assert BufferSum(buf, 24) == Add(BufferSum(buf, 18), t[3]);
    assert BufferSum(buf, 30) == Add(BufferSum(buf, 24), t[4]);
  }

  /** The six face sums add up to 36 times the centre of the box. */
  lemma FacesTotal(p: Vec3, d: Vec3)
    ensures var c := CornersOf(p, d);
      Add(Add(Add(Add(Add(QuadTotal(FaceQuad(c, 0)), QuadTotal(FaceQuad(c, 1))),
        QuadTotal(FaceQuad(c, 2))), QuadTotal(FaceQuad(c, 3))), QuadTotal(FaceQuad(c, 4))), QuadTotal(FaceQuad(c, 5)))
      == Scale(36.0, Add(p, Scale(0.5, d)))
  {
    var c := CornersOf(p, d);
    QuadSum(c.fbl, c.fbr, c.ftl, c.ftr);
    QuadSum(c.fbr, c.bbr, c.ftr, c.btr);
    QuadSum(Vec3(c.fbr.x, c.bbr.y, c.bbr.z), c.bbl, c.btr, c.btl);
    QuadSum(c.bbl, c.fbl, c.btl, c.ftl);
    QuadSum(c.ftl, c.ftr, c.btl, c.btr);
    QuadSum(c.bbl, c.bbr, c.fbl, c.fbr);
  }

  lemma QuadSum(bl: Vec3, br: Vec3, tl: Vec3, tr: Vec3)
    ensures QuadTotal(Quad(bl, br, tl, tr)) == Add(Add(bl, tr), Scale(2.0, Add(br, tl)))
  {
  }

  /** Face `f` adds its six vertices to the running sum. */
  lemma {:induction false} FaceStep(p: Vec3, d: Vec3, f: nat)
    requires f < 6
    ensures BufferSum(BoxMesh(p, d).positions, 6 * f + 6)
         == Add(BufferSum(BoxMesh(p, d).positions, 6 * f), QuadTotal(FaceQuad(CornersOf(p, d), f)))
  {
    var pos := BoxMesh(p, d).positions;
    var q := FaceQuad(CornersOf(p, d), f);
    var k := 6 * f;
    forall s | 0 <= s < 6
      ensures Vertex(pos, k + s) == q[s]
    {
      PositionsAt(p, d, k + s);
      FaceSlot(p, d, f, s);
    }
    assert BufferSum(pos, k + 6) == Add(BufferSum(pos, k + 5), q[5]);
    assert BufferSum(pos, k + 5) == Add(BufferSum(pos, k + 4), q[4]);
    assert BufferSum(pos, k + 4) == Add(BufferSum(pos, k + 3), q[3]);
    assert BufferSum(pos, k + 3) == Add(BufferSum(pos, k + 2), q[2]);
    assert BufferSum(pos, k + 2) == Add(BufferSum(pos, k + 1), q[1]);
    assert BufferSum(pos, k + 1) == Add(BufferSum(pos, k), q[0]);
  }

  lemma FaceSlot(p: Vec3, d: Vec3, f: nat, s: nat)
    requires f < 6 && s < 6
    ensures BoxVertices(p, d)[6 * f + s] == FaceQuad(CornersOf(p, d), f)[s]
  {
    BoxVerticesAt(p, d, 6 * f + s);
    SlotOf(f, s);
  }

  lemma SlotOf(f: nat, s: nat)
    requires s < 6
    ensures (6 * f + s) / 6 == f && (6 * f + s) % 6 == s
  {
  }

  /** With no options the box is the unit cube centred on the origin. */
  lemma DefaultCube()
    ensures var mesh := CreateCube(CubeOptions(None, None));
      forall v :: 0 <= v < 36 ==> Within(Vertex(mesh.positions, v), Vec3(-0.5, -0.5, -0.5), Vec3(0.5, 0.5, 0.5))
  {
    var p, d := Vec3(-0.5, -0.5, -0.5), Vec3(1.0, 1.0, 1.0);
    assert Position(CubeOptions(None, None)) == p && Add(p, d) == Vec3(0.5, 0.5, 0.5);
    CubeWithin(p, d);
  }

  lemma CubeWithin(p: Vec3, d: Vec3)
    requires d.x >= 0.0 && d.y >= 0.0 && d.z >= 0.0
    ensures forall v :: 0 <= v < 36 ==> Within(Vertex(BoxMesh(p, d).positions, v), p, Add(p, d))
  {
    forall v | 0 <= v < 36 ensures Within(Vertex(BoxMesh(p, d).positions, v), p, Add(p, d)) {
      BoxVertexAt(p, d, v);
      CornerWithin(Vertex(BoxMesh(p, d).positions, v), p, d);
    }
  }

  lemma CornerWithin(v: Vec3, p: Vec3, d: Vec3)
    requires d.x >= 0.0 && d.y >= 0.0 && d.z >= 0.0
    requires IsCorner(v, p, d)
    ensures Within(v, p, Add(p, d))
  {
  }

  lemma LowCornerVertex(p: Vec3, d: Vec3)
    ensures BoxVertices(p, d)[13] == p
  {
    BoxVerticesAt(p, d, 13);
  }

  lemma LowCorner(p: Vec3, d: Vec3)
    ensures Vertex(BoxMesh(p, d).positions, 13) == p
  {
    LowCornerVertex(p, d);
    PositionsAt(p, d, 13);
  }

  lemma HighCorner(p: Vec3, d: Vec3)
    ensures Vertex(BoxMesh(p, d).positions, 5) == Add(p, d)
  {
    PositionsAt(p, d, 5);
    BoxVerticesAt(p, d, 5);
  }

  /** Each face's (u, v) frame is right-handed about its outward normal. */
  lemma FaceFrame(d: Vec3, f: Face)
    ensures Cross(FaceU(d, f), FaceV(d, f)) == Scale(FaceArea(d, f), OutwardNormal(f))
  {
  }

  lemma FaceAreaPositive(d: Vec3, f: Face)
    requires d.x > 0.0 && d.y > 0.0 && d.z > 0.0
    ensures FaceArea(d, f) > 0.0
  {
  }

  lemma SubAdd(o: Vec3, u: Vec3)
    ensures Sub(Add(o, u), o) == u
  {
  }

  lemma SubAddAdd(o: Vec3, u: Vec3, v: Vec3)
    ensures Sub(Add(o, u), Add(o, v)) == Sub(u, v)
    ensures Sub(Add(Add(o, u), v), Add(o, v)) == u
  {
  }

  /** The edges of the second triangle of a face span the same oriented
      area as those of the first. */
  lemma CrossSecondHalf(u: Vec3, v: Vec3)
    ensures Cross(Sub(u, v), u) == Cross(u, v)
  {
  }

  lemma FirstHalf(buf: seq<real>, t: nat, o: Vec3, u: Vec3, v: Vec3)
    requires 9 * t + 8 < |buf|
    requires Vertex(buf, 3 * t) == o && Vertex(buf, 3 * t + 1) == Add(o, u) && Vertex(buf, 3 * t + 2) == Add(o, v)
    ensures TriangleNormal(buf, t) == Cross(u, v)
  {
    SubAdd(o, u);
    SubAdd(o, v);
  }

  lemma SecondHalf(buf: seq<real>, t: nat, o: Vec3, u: Vec3, v: Vec3)
    requires 9 * t + 8 < |buf|
    requires Vertex(buf, 3 * t) == Add(o, v) && Vertex(buf, 3 * t + 1) == Add(o, u)
    requires Vertex(buf, 3 * t + 2) == Add(Add(o, u), v)
    ensures TriangleNormal(buf, t) == Cross(u, v)
  {
    SubAddAdd(o, u, v);
    CrossSecondHalf(u, v);
  }

  /** The three vertices of triangle `t` sit in slots 0..2 or 3..5 of
      face t / 2. */
  lemma TriangleSlots(t: nat)
    requires t < 12
    ensures FaceOf(3 * t + 1) == FaceOf(3 * t) && FaceOf(3 * t + 2) == FaceOf(3 * t)
    ensures (3 * t) % 6 == 3 * (t % 2) && (3 * t + 1) % 6 == 3 * (t % 2) + 1 && (3 * t + 2) % 6 == 3 * (t % 2) + 2
  {
    var h, r := t / 2, t % 2;
    assert 3 * t == 6 * h + 3 * r;
    assert (3 * t) / 6 == h && (3 * t + 1) / 6 == h && (3 * t + 2) / 6 == h;
  }

  lemma CornerAt(p: Vec3, d: Vec3, v: nat, k: nat)
    requires v < 36 && k < 6 && v % 6 == k
    ensures Vertex(BoxMesh(p, d).positions, v) == FaceCorner(p, d, FaceOf(v), UnitSquare(k))
  {
    BoxVertexAt(p, d, v);
  }

  /** The four corners of a face, by their texture coordinates. */
  lemma UnitSquareCorners(p: Vec3, d: Vec3, f: Face)
    ensures FaceCorner(p, d, f, UnitSquare(0)) == FaceOrigin(p, d, f)
    ensures FaceCorner(p, d, f, UnitSquare(1)) == Add(FaceOrigin(p, d, f), FaceU(d, f))
    ensures FaceCorner(p, d, f, UnitSquare(2)) == Add(FaceOrigin(p, d, f), FaceV(d, f))
    ensures FaceCorner(p, d, f, UnitSquare(3)) == Add(FaceOrigin(p, d, f), FaceV(d, f))
    ensures FaceCorner(p, d, f, UnitSquare(4)) == Add(FaceOrigin(p, d, f), FaceU(d, f))
    ensures FaceCorner(p, d, f, UnitSquare(5)) == Add(Add(FaceOrigin(p, d, f), FaceU(d, f)), FaceV(d, f))
  {
  }

  /** Triangle `t` (vertices 3t, 3t+1, 3t+2) winds counter-clockwise about
      the normal stored at its vertices. */
  lemma {:induction false} TriangleAt(p: Vec3, d: Vec3, t: nat)
    requires t < 12
    ensures TriangleNormal(BoxMesh(p, d).positions, t) == Scale(FaceArea(d, FaceOf(3 * t)), Vertex(BoxMesh(p, d).normals, 3 * t))
  {
    TriangleSlots(t);
    BoxVertexAt(p, d, 3 * t);
    FaceFrame(d, FaceOf(3 * t));
    if t % 2 == 0 {
      FirstTriangle(p, d, t);
    } else {
      SecondTriangle(p, d, t);
    }
  }

  /** The first triangle of a face spans its (u, v) frame. */
  lemma {:induction false} FirstTriangle(p: Vec3, d: Vec3, t: nat)
    requires t < 12 && t % 2 == 0
    ensures TriangleNormal(BoxMesh(p, d).positions, t) == Cross(FaceU(d, FaceOf(3 * t)), FaceV(d, FaceOf(3 * t)))
  {
    var f := FaceOf(3 * t);
    TriangleSlots(t);
    UnitSquareCorners(p, d, f);
    CornerAt(p, d, 3 * t, 0);
    CornerAt(p, d, 3 * t + 1, 1);
    CornerAt(p, d, 3 * t + 2, 2);
    FirstHalf(BoxMesh(p, d).positions, t, FaceOrigin(p, d, f), FaceU(d, f), FaceV(d, f));
  }

  /** So does the second, with the opposite pair of corners. */
  lemma {:induction false} SecondTriangle(p: Vec3, d: Vec3, t: nat)
    requires t < 12 && t % 2 == 1
    ensures TriangleNormal(BoxMesh(p, d).positions, t) == Cross(FaceU(d, FaceOf(3 * t)), FaceV(d, FaceOf(3 * t)))
  {
    var f := FaceOf(3 * t);
    TriangleSlots(t);
    UnitSquareCorners(p, d, f);
    CornerAt(p, d, 3 * t, 3);
    CornerAt(p, d, 3 * t + 1, 4);
    CornerAt(p, d, 3 * t + 2, 5);
    SecondHalf(BoxMesh(p, d).positions, t, FaceOrigin(p, d, f), FaceU(d, f), FaceV(d, f));
  }

  /** Every triangle winds counter-clockwise about its face's outward
      normal: its edge cross product is the stored normal scaled by the
      face's area, which is positive for positive dimensions. */
  lemma CubeWinding(p: Vec3, d: Vec3)
    ensures forall t :: 0 <= t < 12 ==>
      TriangleNormal(BoxMesh(p, d).positions, t) == Scale(FaceArea(d, FaceOf(3 * t)), Vertex(BoxMesh(p, d).normals, 3 * t))
    ensures d.x > 0.0 && d.y > 0.0 && d.z > 0.0 ==> forall f: Face :: FaceArea(d, f) > 0.0
  {
    forall t | 0 <= t < 12
      ensures TriangleNormal(BoxMesh(p, d).positions, t) == Scale(FaceArea(d, FaceOf(3 * t)), Vertex(BoxMesh(p, d).normals, 3 * t))
    {
      TriangleAt(p, d, t);
    }
    if d.x > 0.0 && d.y > 0.0 && d.z > 0.0 {
      forall f: Face ensures FaceArea(d, f) > 0.0 {
        FaceAreaPositive(d, f);
      }
    }
  }
}
