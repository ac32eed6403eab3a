/** `createSphere`: an indexed UV-sphere. The polar angle is cut into
    `latBands` steps and the azimuth into `longBands` steps; every
    (latitude, longitude) cell gets four vertices of its own and two
    triangles. Sine, cosine and pi are parameters whose values the model
    leaves open. */
module Sphere {
  import opened Geometry

  /** `Math.sin`, `Math.cos` and `Math.PI`. */
  datatype Trig = Trig(sin: real -> real, cos: real -> real, pi: real)

  /** A missing field stands for an absent (undefined) option. */
  datatype SphereOptions = SphereOptions(longBands: Option<nat>, latBands: Option<nat>, radius: Option<real>)

  /** Index values are stored in a Uint16Array, which keeps them modulo 2^16. */
  const Uint16Range: nat := 0x1_0000

  /** `options.xBands || 32`: absent and 0 are both falsy. */
  function BandCount(o: Option<nat>): (b: nat)
    ensures b > 0
    ensures o.Some? && o.value != 0 ==> b == o.value
    ensures o.None? || o == Some(0) ==> b == 32
  {
    match o
    case Some(b) => if b != 0 then b else 32
    case None => 32
  }

  /** `options.radius || 1`: absent and 0 are both falsy. */
  function RadiusOf(o: Option<real>): (r: real)
    ensures r != 0.0
    ensures o.Some? && o.value != 0.0 ==> r == o.value
    ensures o.None? || o == Some(0.0) ==> r == 1.0
  {
    match o
    case Some(r) => if r != 0.0 then r else 1.0
    case None => 1.0
  }

  function LatStep(g: Trig, m: nat): real
    requires m > 0
  {
    g.pi / m as real
  }

  function LongStep(g: Trig, n: nat): real
    requires n > 0
  {
    2.0 * g.pi / n as real
  }

  /** `Math.sin` and `Math.cos`. */
  function Sin(g: Trig, x: real): real { g.sin(x) }

  function Cos(g: Trig, x: real): real { g.cos(x) }

  /** The unit direction for polar angle `theta` and azimuth `phi`. */
  function Direction(g: Trig, theta: real, phi: real): Vec3
  {
    Vec3(Sin(g, theta) * Cos(g, phi), Cos(g, theta), Sin(g, theta) * Sin(g, phi))
  }

  // A cell (i, j) lies in latitude band i < m and longitude band j < n;
  // its corners k = 0, 1, 2, 3 sit at (theta, phi), (theta, phi + step),
  // (theta + step, phi) and (theta + step, phi + step).

  function CornerTheta(g: Trig, m: nat, i: nat, k: nat): real
    requires m > 0
  {
    var lat := i as real * LatStep(g, m);
    if k < 2 then lat else lat + LatStep(g, m)
  }

  function CornerPhi(g: Trig, n: nat, j: nat, k: nat): real
    requires n > 0
  {
    var long := j as real * LongStep(g, n);
    if k % 2 == 0 then long else long + LongStep(g, n)
  }

  function CornerNormal(g: Trig, n: nat, m: nat, i: nat, j: nat, k: nat): Vec3
    requires n > 0 && m > 0
  {
    Direction(g, CornerTheta(g, m, i, k), CornerPhi(g, n, j, k))
  }

  /** A corner's position is its normal scaled by the radius. */
  function CornerPosition(g: Trig, n: nat, m: nat, radius: real, i: nat, j: nat, k: nat): Vec3
    requires n > 0 && m > 0
  {
    Scale(radius, CornerNormal(g, n, m, i, j, k))
  }

  /** Texture coordinates fall as the band indices grow: u from the
      longitude band, v from the latitude band. */
  function CornerUV(n: nat, m: nat, i: nat, j: nat, k: nat): (real, real)
    requires n > 0 && m > 0
  {
    var u := if k % 2 == 0 then 1.0 - j as real / n as real else 1.0 - (j + 1) as real / n as real;
    var v := if k < 2 then 1.0 - i as real / m as real else 1.0 - (i + 1) as real / m as real;
    (u, v)
  }

  /** The vertex number of corner `k` of cell (i, j): four per cell, cells
      in row-major order. */
  function VertexIndex(n: nat, i: nat, j: nat, k: nat): nat
  {
    4 * (i * n + j) + k
  }

  /** The latitude band and the longitude band of vertex number `q`. */
  function RowOf(n: nat, q: nat): nat
    requires n > 0
  {
    q / 4 / n
  }

  function ColOf(n: nat, q: nat): nat
    requires n > 0
  {
    q / 4 % n
  }

  function VertexCount(n: nat, m: nat): nat
  {
    n * m * 4
  }

  function SphereNormals(g: Trig, n: nat, m: nat): (r: seq<real>)
    requires n > 0 && m > 0
    ensures |r| == 3 * VertexCount(n, m)
  {
    Flatten(seq(VertexCount(n, m), q requires 0 <= q < VertexCount(n, m) =>
      CornerNormal(g, n, m, RowOf(n, q), ColOf(n, q), q % 4)))
  }

  function SpherePositions(g: Trig, n: nat, m: nat, radius: real): (r: seq<real>)
    requires n > 0 && m > 0
    ensures |r| == 3 * VertexCount(n, m)
  {
    Flatten(seq(VertexCount(n, m), q requires 0 <= q < VertexCount(n, m) =>
      CornerPosition(g, n, m, radius, RowOf(n, q), ColOf(n, q), q % 4)))
  }

  function SphereUVs(n: nat, m: nat): (r: seq<real>)
    requires n > 0 && m > 0
    ensures |r| == 2 * VertexCount(n, m)
  {
    FlattenPairs(seq(VertexCount(n, m), q requires 0 <= q < VertexCount(n, m) =>
      CornerUV(n, m, RowOf(n, q), ColOf(n, q), q % 4)))
  }

  /** The corners that the six indices of a cell name: triangles (0, 1, 2)
      and (2, 1, 3). */
  function CellPattern(t: nat): nat
    requires t < 6
  {
    [0, 1, 2, 2, 1, 3][t]
  }

  function SphereIndices(n: nat, m: nat): (r: seq<int>)
    ensures |r| == n * m * 6
    ensures forall p :: 0 <= p < |r| ==> 0 <= r[p] < Uint16Range
  {
    seq(n * m * 6, p requires 0 <= p < n * m * 6 => (4 * (p / 6) + CellPattern(p % 6)) % Uint16Range)
  }

  /** The mesh `createSphere` returns for these options. */
  function SphereMesh(opts: SphereOptions, g: Trig): (mesh: Mesh)
    ensures var n, m := BandCount(opts.longBands), BandCount(opts.latBands);
      |mesh.positions| == 12 * n * m && |mesh.normals| == 12 * n * m
      && |mesh.uvs| == 8 * n * m && mesh.indices.Some? && |mesh.indices.value| == 6 * n * m
  {
    var n, m := BandCount(opts.longBands), BandCount(opts.latBands);
    var radius := RadiusOf(opts.radius);
    assert 3 * VertexCount(n, m) == 12 * n * m && 2 * VertexCount(n, m) == 8 * n * m && n * m * 6 == 6 * n * m;
    Mesh(SpherePositions(g, n, m, radius), SphereNormals(g, n, m), SphereUVs(n, m), Some(SphereIndices(n, m)))
  }

  // ---------------------------------------------------------------------
  // Integer layout of the buffers

  lemma MulCancel(a: int, b: int, n: int)
    requires n > 0 && a * n < b * n
    ensures a < b
  {}

  lemma MulAtLeast(x: int, n: int)
    requires x >= 1 && n > 0
    ensures x * n >= n
  {}

  /** Quotient and remainder are determined by any decomposition a = q*n + r. */
  lemma {:induction false} DivModUnique(a: int, n: int, q: int, r: int)
    requires n > 0 && 0 <= r < n && a == q * n + r
    ensures a / n == q && a % n == r
  {
    var q', r' := a / n, a % n;
    assert a == q' * n + r';
    assert (q - q') * n == r' - r;
    if q > q' {
      MulAtLeast(q - q', n);
    } else if q < q' {
      MulAtLeast(q' - q, n);
    }
  }

  lemma {:induction false} CellBound(i: nat, j: nat, n: nat, m: nat)
    requires i < m && j < n
    ensures i * n + j < n * m
  {
    assert i * n + j < i * n + n;
    assert i * n + n == (i + 1) * n;
    assert (i + 1) * n <= m * n;
  }

  /** The number of cells in the latitude bands above band `i`, band by band. */
  function CellsAbove(n: nat, i: nat): nat
  {
    if i == 0 then 0 else CellsAbove(n, i - 1) + n
  }

  lemma {:induction false} CellsAboveProduct(n: nat, i: nat)
    ensures CellsAbove(n, i) == i * n
  {
    if i > 0 {
      CellsAboveProduct(n, i - 1);
      assert (i - 1) * n + n == i * n;
    }
  }

  lemma {:induction false} RowBound(i: nat, n: nat, m: nat)
    requires i < m
    ensures i * n + n <= n * m && (i + 1) * n == i * n + n
  {
    assert i * n + n == (i + 1) * n;
    assert (i + 1) * n <= m * n;
  }

  /** Corner k of cell (i, j) is a vertex of the mesh, and decoding its
      number gives back (i, j, k). */
  lemma {:induction false} CellVertex(n: nat, m: nat, i: nat, j: nat, k: nat)
    requires n > 0 && m > 0 && i < m && j < n && k < 4
    ensures VertexIndex(n, i, j, k) < VertexCount(n, m)
    ensures RowOf(n, VertexIndex(n, i, j, k)) == i
    ensures ColOf(n, VertexIndex(n, i, j, k)) == j
    ensures VertexIndex(n, i, j, k) % 4 == k
  {
    var c := i * n + j;
    var q := VertexIndex(n, i, j, k);
    CellBound(i, j, n, m);
    DivModUnique(q, 4, c, k);
    DivModUnique(c, n, i, j);
  }

  /** Every vertex number belongs to exactly the cell and corner it decodes to. */
  lemma {:induction false} VertexDecode(n: nat, m: nat, q: nat)
    requires n > 0 && m > 0 && q < VertexCount(n, m)
    ensures RowOf(n, q) < m && ColOf(n, q) < n
    ensures q == VertexIndex(n, RowOf(n, q), ColOf(n, q), q % 4)
  {
    var c := q / 4;
    assert q == 4 * c + q % 4;
    assert c < n * m;
    assert c == (c / n) * n + c % n;
    MulCancel(c / n, m, n);
  }

  lemma SpherePositionAt(g: Trig, n: nat, m: nat, radius: real, i: nat, j: nat, k: nat)
    requires n > 0 && m > 0 && i < m && j < n && k < 4
    ensures 3 * VertexIndex(n, i, j, k) + 2 < |SpherePositions(g, n, m, radius)|
    ensures Vertex(SpherePositions(g, n, m, radius), VertexIndex(n, i, j, k)) == CornerPosition(g, n, m, radius, i, j, k)
  {
    CellVertex(n, m, i, j, k);
  }

  lemma SphereNormalAt(g: Trig, n: nat, m: nat, i: nat, j: nat, k: nat)
    requires n > 0 && m > 0 && i < m && j < n && k < 4
    ensures 3 * VertexIndex(n, i, j, k) + 2 < |SphereNormals(g, n, m)|
    ensures Vertex(SphereNormals(g, n, m), VertexIndex(n, i, j, k)) == CornerNormal(g, n, m, i, j, k)
  {
    CellVertex(n, m, i, j, k);
  }

  lemma SphereUVAt(n: nat, m: nat, i: nat, j: nat, k: nat)
    requires n > 0 && m > 0 && i < m && j < n && k < 4
    ensures 2 * VertexIndex(n, i, j, k) + 1 < |SphereUVs(n, m)|
    ensures TexCoord(SphereUVs(n, m), VertexIndex(n, i, j, k)) == CornerUV(n, m, i, j, k)
  {
    CellVertex(n, m, i, j, k);
  }

  /** Slot t of the six index slots of cell (i, j) names corner CellPattern(t). */
  lemma {:induction false} SphereIndexAt(n: nat, m: nat, i: nat, j: nat, t: nat)
    requires i < m && j < n && t < 6
    ensures 6 * (i * n + j) + t < |SphereIndices(n, m)|
    ensures SphereIndices(n, m)[6 * (i * n + j) + t] == VertexIndex(n, i, j, CellPattern(t)) % Uint16Range
  {
    var c := i * n + j;
    CellBound(i, j, n, m);
    DivModUnique(6 * c + t, 6, c, t);
  }

  /** The six index slots of cell number c, which start at slot l, name
      its corners 0, 1, 2, 2, 1, 3, whose numbers start at k. */
  lemma {:induction false} CellIndices(n: nat, m: nat, c: nat, k: nat, l: nat)
    requires c < n * m && k == 4 * c && l == 6 * c
    ensures l + 6 <= |SphereIndices(n, m)|
    ensures SphereIndices(n, m)[l] == k % Uint16Range
    ensures SphereIndices(n, m)[l + 1] == (k + 1) % Uint16Range
    ensures SphereIndices(n, m)[l + 2] == (k + 2) % Uint16Range
    ensures SphereIndices(n, m)[l + 3] == (k + 2) % Uint16Range
    ensures SphereIndices(n, m)[l + 4] == (k + 1) % Uint16Range
    ensures SphereIndices(n, m)[l + 5] == (k + 3) % Uint16Range
  {
    DivModUnique(l, 6, c, 0);
    DivModUnique(l + 1, 6, c, 1);
    DivModUnique(l + 2, 6, c, 2);
    DivModUnique(l + 3, 6, c, 3);
    DivModUnique(l + 4, 6, c, 4);
    DivModUnique(l + 5, 6, c, 5);
  }

  /** The angles of the four corners of cell (i, j), as the loop computes them. */
  lemma CellAngles(g: Trig, n: nat, m: nat, i: nat, j: nat, latStep: real, longStep: real, latAngle: real, longAngle: real)
    requires n > 0 && m > 0
    requires latStep == LatStep(g, m) && longStep == LongStep(g, n)
    requires latAngle == i as real * latStep && longAngle == j as real * longStep
    ensures CornerTheta(g, m, i, 0) == latAngle && CornerTheta(g, m, i, 1) == latAngle
    ensures CornerTheta(g, m, i, 2) == latAngle + latStep && CornerTheta(g, m, i, 3) == latAngle + latStep
    ensures CornerPhi(g, n, j, 0) == longAngle && CornerPhi(g, n, j, 2) == longAngle
    ensures CornerPhi(g, n, j, 1) == longAngle + longStep && CornerPhi(g, n, j, 3) == longAngle + longStep
  {}

  /** The corner normals of cell (i, j), written with the loop's own sines
      and cosines. */
  lemma CellDirections(g: Trig, n: nat, m: nat, i: nat, j: nat,
                       latStep: real, longStep: real, latAngle: real, longAngle: real,
                       x1: real, x2: real, x3: real, x4: real, y1: real, y2: real, z1: real, z2: real, z3: real, z4: real)
    requires n > 0 && m > 0
    requires latStep == LatStep(g, m) && longStep == LongStep(g, n)
    requires latAngle == i as real * latStep && longAngle == j as real * longStep
    requires y1 == Cos(g, latAngle) && y2 == Cos(g, latAngle + latStep)
    requires x1 == Sin(g, latAngle) * Cos(g, longAngle) && x2 == Sin(g, latAngle) * Cos(g, longAngle + longStep)
    requires x3 == Sin(g, latAngle + latStep) * Cos(g, longAngle) && x4 == Sin(g, latAngle + latStep) * Cos(g, longAngle + longStep)
    requires z1 == Sin(g, latAngle) * Sin(g, longAngle) && z2 == Sin(g, latAngle) * Sin(g, longAngle + longStep)
    requires z3 == Sin(g, latAngle + latStep) * Sin(g, longAngle) && z4 == Sin(g, latAngle + latStep) * Sin(g, longAngle + longStep)
    ensures CornerNormal(g, n, m, i, j, 0) == Vec3(x1, y1, z1)
    ensures CornerNormal(g, n, m, i, j, 1) == Vec3(x2, y1, z2)
    ensures CornerNormal(g, n, m, i, j, 2) == Vec3(x3, y2, z3)
    ensures CornerNormal(g, n, m, i, j, 3) == Vec3(x4, y2, z4)
  {
    CellAngles(g, n, m, i, j, latStep, longStep, latAngle, longAngle);
  }

  /** A corner's position is its normal scaled by the radius. */
  lemma CornerScaled(g: Trig, n: nat, m: nat, radius: real, i: nat, j: nat, t: nat, x: real, y: real, z: real)
    requires n > 0 && m > 0
    requires CornerNormal(g, n, m, i, j, t) == Vec3(x, y, z)
    ensures CornerPosition(g, n, m, radius, i, j, t) == Vec3(x * radius, y * radius, z * radius)
  {}

  /** What the position and normal buffers hold for corner t of cell
      (i, j), vertex number q, given that corner's normal. */
  lemma CornerStored(g: Trig, n: nat, m: nat, radius: real, i: nat, j: nat, t: nat, q: nat, x: real, y: real, z: real)
    requires n > 0 && m > 0 && i < m && j < n && t < 4 && q == VertexIndex(n, i, j, t)
    requires CornerNormal(g, n, m, i, j, t) == Vec3(x, y, z)
    ensures 3 * q + 2 < |SpherePositions(g, n, m, radius)|
    ensures Vertex(SphereNormals(g, n, m), q) == Vec3(x, y, z)
    ensures Vertex(SpherePositions(g, n, m, radius), q) == Vec3(x * radius, y * radius, z * radius)
  {
    CornerScaled(g, n, m, radius, i, j, t, x, y, z);
    SpherePositionAt(g, n, m, radius, i, j, t);
    SphereNormalAt(g, n, m, i, j, t);
  }

  /** The position and normal triples that cell (i, j) owns in the buffers,
      given its corner normals. */
  lemma CellNormals(g: Trig, n: nat, m: nat, radius: real, i: nat, j: nat, k: nat,
                    x1: real, x2: real, x3: real, x4: real, y1: real, y2: real, z1: real, z2: real, z3: real, z4: real)
    requires n > 0 && m > 0 && i < m && j < n && k == VertexIndex(n, i, j, 0)
    requires CornerNormal(g, n, m, i, j, 0) == Vec3(x1, y1, z1)
    requires CornerNormal(g, n, m, i, j, 1) == Vec3(x2, y1, z2)
    requires CornerNormal(g, n, m, i, j, 2) == Vec3(x3, y2, z3)
    requires CornerNormal(g, n, m, i, j, 3) == Vec3(x4, y2, z4)
    ensures 3 * k + 12 <= |SpherePositions(g, n, m, radius)|
    ensures Vertex(SphereNormals(g, n, m), k) == Vec3(x1, y1, z1)
    ensures Vertex(SphereNormals(g, n, m), k + 1) == Vec3(x2, y1, z2)
    ensures Vertex(SphereNormals(g, n, m), k + 2) == Vec3(x3, y2, z3)
    ensures Vertex(SphereNormals(g, n, m), k + 3) == Vec3(x4, y2, z4)
    ensures Vertex(SpherePositions(g, n, m, radius), k) == Vec3(x1 * radius, y1 * radius, z1 * radius)
    ensures Vertex(SpherePositions(g, n, m, radius), k + 1) == Vec3(x2 * radius, y1 * radius, z2 * radius)
    ensures Vertex(SpherePositions(g, n, m, radius), k + 2) == Vec3(x3 * radius, y2 * radius, z3 * radius)
    ensures Vertex(SpherePositions(g, n, m, radius), k + 3) == Vec3(x4 * radius, y2 * radius, z4 * radius)
  {
    CellBound(i, j, n, m);
    CornerStored(g, n, m, radius, i, j, 0, k, x1, y1, z1);
    CornerStored(g, n, m, radius, i, j, 1, k + 1, x2, y1, z2);
    CornerStored(g, n, m, radius, i, j, 2, k + 2, x3, y2, z3);
    CornerStored(g, n, m, radius, i, j, 3, k + 3, x4, y2, z4);
  }

  /** The texture coordinate pairs of cell (i, j), written with the loop's
      own u and v values. */
  lemma CellTexCoords(n: nat, m: nat, i: nat, j: nat, k: nat, u1: real, u2: real, v1: real, v2: real)
    requires n > 0 && m > 0 && i < m && j < n && k == VertexIndex(n, i, j, 0)
    requires u1 == 1.0 - j as real / n as real && u2 == 1.0 - (j + 1) as real / n as real
    requires v1 == 1.0 - i as real / m as real && v2 == 1.0 - (i + 1) as real / m as real
    ensures 2 * k + 8 <= |SphereUVs(n, m)|
    ensures TexCoord(SphereUVs(n, m), k) == (u1, v1)
    ensures TexCoord(SphereUVs(n, m), k + 1) == (u2, v1)
    ensures TexCoord(SphereUVs(n, m), k + 2) == (u1, v2)
    ensures TexCoord(SphereUVs(n, m), k + 3) == (u2, v2)
  {
    CellBound(i, j, n, m);
    SphereUVAt(n, m, i, j, 0);
    SphereUVAt(n, m, i, j, 1);
    SphereUVAt(n, m, i, j, 2);
    SphereUVAt(n, m, i, j, 3);
    assert VertexIndex(n, i, j, 1) == k + 1 && VertexIndex(n, i, j, 2) == k + 2 && VertexIndex(n, i, j, 3) == k + 3;
    assert CornerUV(n, m, i, j, 0) == (u1, v1);
    assert CornerUV(n, m, i, j, 1) == (u2, v1);
    assert CornerUV(n, m, i, j, 2) == (u1, v2);
    assert CornerUV(n, m, i, j, 3) == (u2, v2);
  }

  // ---------------------------------------------------------------------
  // The generator

  /** Writes the (x, y, z) triples of the four corners of one cell at
      vertex number q, as the position block and the normal block of the
      inner loop do, extending the prefix on which `buf` agrees with `spec`. */
  method StoreCorners(buf: array<real>, q: nat, a: Vec3, b: Vec3, c: Vec3, d: Vec3, ghost spec: seq<real>)
    requires 3 * q + 12 <= buf.Length && 3 * q + 12 <= |spec|
    requires Vertex(spec, q) == a && Vertex(spec, q + 1) == b && Vertex(spec, q + 2) == c && Vertex(spec, q + 3) == d
    requires forall p :: 0 <= p < 3 * q ==> buf[p] == spec[p]
    modifies buf
    ensures forall p :: 0 <= p < 3 * q + 12 ==> buf[p] == spec[p]
    ensures forall p :: 3 * q + 12 <= p < buf.Length ==> buf[p] == old(buf[p])
  {
    StoreVertex(buf, q, a, spec);
    StoreVertex(buf, q + 1, b, spec);
    StoreVertex(buf, q + 2, c, spec);
    StoreVertex(buf, q + 3, d, spec);
  }

  /** Writes one (x, y, z) triple at vertex number q. */
  method StoreVertex(buf: array<real>, q: nat, a: Vec3, ghost spec: seq<real>)
    requires 3 * q + 3 <= buf.Length && 3 * q + 3 <= |spec|
    requires Vertex(spec, q) == a
    requires forall p :: 0 <= p < 3 * q ==> buf[p] == spec[p]
    modifies buf
    ensures forall p :: 0 <= p < 3 * q + 3 ==> buf[p] == spec[p]
    ensures forall p :: 3 * q + 3 <= p < buf.Length ==> buf[p] == old(buf[p])
  {
    var vi := q * 3;
    buf[vi] := a.x;
    buf[vi + 1] := a.y;
    buf[vi + 2] := a.z;
  }

  /** Writes the (u, v) pairs of the four corners of one cell at vertex number q. */
  method StoreTexCoords(buf: array<real>, q: nat, a: (real, real), b: (real, real), c: (real, real), d: (real, real), ghost spec: seq<real>)
    requires 2 * q + 8 <= buf.Length && 2 * q + 8 <= |spec|
    requires TexCoord(spec, q) == a && TexCoord(spec, q + 1) == b && TexCoord(spec, q + 2) == c && TexCoord(spec, q + 3) == d
    requires forall p :: 0 <= p < 2 * q ==> buf[p] == spec[p]
    modifies buf
    ensures forall p :: 0 <= p < 2 * q + 8 ==> buf[p] == spec[p]
    ensures forall p :: 2 * q + 8 <= p < buf.Length ==> buf[p] == old(buf[p])
  {
    var ti := q * 2;
    buf[ti] := a.0;
    buf[ti + 1] := a.1;
    buf[ti + 2] := b.0;
    buf[ti + 3] := b.1;
    buf[ti + 4] := c.0;
    buf[ti + 5] := c.1;
    buf[ti + 6] := d.0;
    buf[ti + 7] := d.1;
  }

  /** Writes the two triangles (k, k+1, k+2) and (k+2, k+1, k+3) of one
      cell at slot l; the Uint16Array keeps each value modulo 2^16. */
  method StoreTriangles(indices: array<int>, l: nat, k: nat, ghost spec: seq<int>)
    requires l + 6 <= indices.Length && l + 6 <= |spec|
    requires spec[l] == k % Uint16Range && spec[l + 1] == (k + 1) % Uint16Range
    requires spec[l + 2] == (k + 2) % Uint16Range && spec[l + 3] == (k + 2) % Uint16Range
    requires spec[l + 4] == (k + 1) % Uint16Range && spec[l + 5] == (k + 3) % Uint16Range
    requires forall p :: 0 <= p < l ==> indices[p] == spec[p]
    modifies indices
    ensures forall p :: 0 <= p < l + 6 ==> indices[p] == spec[p]
    ensures forall p :: l + 6 <= p < indices.Length ==> indices[p] == old(indices[p])
  {
    indices[l] := k % Uint16Range;
    indices[l + 1] := (k + 1) % Uint16Range;
    indices[l + 2] := (k + 2) % Uint16Range;
    indices[l + 3] := (k + 2) % Uint16Range;
    indices[l + 4] := (k + 1) % Uint16Range;
    indices[l + 5] := (k + 3) % Uint16Range;
  }

  /** The first half of one pass of the inner loop: computes the corner
      directions of cell (i, j) from the angles and writes the position and
      normal triples at vertex number k. */
  method FillCellCorners(positions: array<real>, normals: array<real>,
                         g: Trig, longBands: nat, latBands: nat, radius: real, i: nat, j: nat,
                         latStep: real, longStep: real, latAngle: real, y1: real, y2: real, k: nat,
                         ghost Pos: seq<real>, ghost Nor: seq<real>)
    requires 0 < longBands && 0 < latBands && i < latBands && j < longBands
    requires latStep == LatStep(g, latBands) && longStep == LongStep(g, longBands)
    requires latAngle == i as real * latStep && y1 == Cos(g, latAngle) && y2 == Cos(g, latAngle + latStep)
    requires Pos == SpherePositions(g, longBands, latBands, radius) && Nor == SphereNormals(g, longBands, latBands)
    requires k == VertexIndex(longBands, i, j, 0) && i * longBands + j < longBands * latBands
    requires positions != normals
    requires positions.Length == |Pos| && normals.Length == |Nor|
    requires forall p :: 0 <= p < 3 * k ==> positions[p] == Pos[p]
    requires forall p :: 0 <= p < 3 * k ==> normals[p] == Nor[p]
    modifies positions, normals
    ensures forall p :: 0 <= p < 3 * k + 12 ==> positions[p] == Pos[p]
    ensures forall p :: 0 <= p < 3 * k + 12 ==> normals[p] == Nor[p]
    ensures forall p :: 3 * k + 12 <= p < positions.Length ==> positions[p] == old(positions[p])
    ensures forall p :: 3 * k + 12 <= p < normals.Length ==> normals[p] == old(normals[p])
  {
    var longAngle := j as real * longStep;
    var x1 := Sin(g, latAngle) * Cos(g, longAngle);
    var x2 := Sin(g, latAngle) * Cos(g, longAngle + longStep);
    var x3 := Sin(g, latAngle + latStep) * Cos(g, longAngle);
    var x4 := Sin(g, latAngle + latStep) * Cos(g, longAngle + longStep);
    var z1 := Sin(g, latAngle) * Sin(g, longAngle);
    var z2 := Sin(g, latAngle) * Sin(g, longAngle + longStep);
    var z3 := Sin(g, latAngle + latStep) * Sin(g, longAngle);
    var z4 := Sin(g, latAngle + latStep) * Sin(g, longAngle + longStep);
    CellDirections(g, longBands, latBands, i, j, latStep, longStep, latAngle, longAngle,
                   x1, x2, x3, x4, y1, y2, z1, z2, z3, z4);
    CellNormals(g, longBands, latBands, radius, i, j, k, x1, x2, x3, x4, y1, y2, z1, z2, z3, z4);
    StoreCorners(positions, k, Vec3(x1 * radius, y1 * radius, z1 * radius), Vec3(x2 * radius, y1 * radius, z2 * radius),
                 Vec3(x3 * radius, y2 * radius, z3 * radius), Vec3(x4 * radius, y2 * radius, z4 * radius), Pos);
    StoreCorners(normals, k, Vec3(x1, y1, z1), Vec3(x2, y1, z2), Vec3(x3, y2, z3), Vec3(x4, y2, z4), Nor);
  }

  /** The second half of one pass of the inner loop: the texture
      coordinates of the four corners of cell (i, j), at vertex number k. */
  method FillCellTexCoords(uvs: array<real>, longBands: nat, latBands: nat, i: nat, j: nat, k: nat, ghost Tex: seq<real>)
    requires 0 < longBands && 0 < latBands && i < latBands && j < longBands
    requires Tex == SphereUVs(longBands, latBands) && k == VertexIndex(longBands, i, j, 0)
    requires i * longBands + j < longBands * latBands
    requires uvs.Length == |Tex|
    requires forall p :: 0 <= p < 2 * k ==> uvs[p] == Tex[p]
    modifies uvs
    ensures forall p :: 0 <= p < 2 * k + 8 ==> uvs[p] == Tex[p]
    ensures forall p :: 2 * k + 8 <= p < uvs.Length ==> uvs[p] == old(uvs[p])
  {
    var u1 := 1.0 - j as real / longBands as real;
    var u2 := 1.0 - (j + 1) as real / longBands as real;
    var v1 := 1.0 - i as real / latBands as real;
    var v2 := 1.0 - (i + 1) as real / latBands as real;
    CellTexCoords(longBands, latBands, i, j, k, u1, u2, v1, v2);
    StoreTexCoords(uvs, k, (u1, v1), (u2, v1), (u1, v2), (u2, v2), Tex);
  }

  /** One pass of the inner loop: the corners of cell (i, j) at vertex
      number k and its two triangles at index slot l. The buffers then agree
      with the finished mesh up to the end of this cell. */
  method FillCell(positions: array<real>, normals: array<real>, uvs: array<real>, indices: array<int>,
                  g: Trig, longBands: nat, latBands: nat, radius: real, i: nat, j: nat,
                  latStep: real, longStep: real, latAngle: real, y1: real, y2: real, k: nat, l: nat,
                  ghost Pos: seq<real>, ghost Nor: seq<real>, ghost Tex: seq<real>, ghost Idx: seq<int>)
    requires 0 < longBands && 0 < latBands && i < latBands && j < longBands
    requires latStep == LatStep(g, latBands) && longStep == LongStep(g, longBands)
    requires latAngle == i as real * latStep && y1 == Cos(g, latAngle) && y2 == Cos(g, latAngle + latStep)
    requires Pos == SpherePositions(g, longBands, latBands, radius) && Nor == SphereNormals(g, longBands, latBands)
    requires Tex == SphereUVs(longBands, latBands) && Idx == SphereIndices(longBands, latBands)
    requires k == VertexIndex(longBands, i, j, 0) && l == 6 * (i * longBands + j)
    requires i * longBands + j < longBands * latBands
    requires positions != normals && positions != uvs && normals != uvs
    requires positions.Length == |Pos| && normals.Length == |Nor| && uvs.Length == |Tex| && indices.Length == |Idx|
    requires forall p :: 0 <= p < 3 * k ==> positions[p] == Pos[p]
    requires forall p :: 0 <= p < 3 * k ==> normals[p] == Nor[p]
    requires forall p :: 0 <= p < 2 * k ==> uvs[p] == Tex[p]
    requires forall p :: 0 <= p < l ==> indices[p] == Idx[p]
    modifies positions, normals, uvs, indices
    ensures forall p :: 0 <= p < 3 * k + 12 ==> positions[p] == Pos[p]
    ensures forall p :: 0 <= p < 3 * k + 12 ==> normals[p] == Nor[p]
    ensures forall p :: 0 <= p < 2 * k + 8 ==> uvs[p] == Tex[p]
    ensures forall p :: 0 <= p < l + 6 ==> indices[p] == Idx[p]
    ensures forall p :: 3 * k + 12 <= p < positions.Length ==> positions[p] == old(positions[p])
    ensures forall p :: 3 * k + 12 <= p < normals.Length ==> normals[p] == old(normals[p])
    ensures forall p :: 2 * k + 8 <= p < uvs.Length ==> uvs[p] == old(uvs[p])
    ensures forall p :: l + 6 <= p < indices.Length ==> indices[p] == old(indices[p])
  {
    FillCellCorners(positions, normals, g, longBands, latBands, radius, i, j, latStep, longStep, latAngle, y1, y2, k, Pos, Nor);
    FillCellTexCoords(uvs, longBands, latBands, i, j, k, Tex);
    CellIndices(longBands, latBands, i * longBands + j, k, l);
    StoreTriangles(indices, l, k, Idx);
  }

  /** A buffer that agrees with `spec` on all of its indices is `spec`. */
  lemma Agrees<T>(buf: array<T>, spec: seq<T>)
    requires buf.Length == |spec| && forall p :: 0 <= p < |spec| ==> buf[p] == spec[p]
    ensures buf[..] == spec
  {}

  /** One pass of the outer loop: the latitude angle and the heights y1, y2
      of band i, then the inner loop over its longitude bands. It advances
      the vertex counter k and the index counter l by one cell's worth per
      band. */
  method FillRow(positions: array<real>, normals: array<real>, uvs: array<real>, indices: array<int>,
                 g: Trig, longBands: nat, latBands: nat, radius: real, i: nat,
                 latStep: real, longStep: real, k0: nat, l0: nat,
                 ghost Pos: seq<real>, ghost Nor: seq<real>, ghost Tex: seq<real>, ghost Idx: seq<int>)
    returns (k: nat, l: nat)
    requires 0 < longBands && 0 < latBands && i < latBands
    requires latStep == LatStep(g, latBands) && longStep == LongStep(g, longBands)
    requires Pos == SpherePositions(g, longBands, latBands, radius) && Nor == SphereNormals(g, longBands, latBands)
    requires Tex == SphereUVs(longBands, latBands) && Idx == SphereIndices(longBands, latBands)
    requires k0 == 4 * CellsAbove(longBands, i) && l0 == 6 * CellsAbove(longBands, i)
    requires positions != normals && positions != uvs && normals != uvs
    requires positions.Length == |Pos| && normals.Length == |Nor| && uvs.Length == |Tex| && indices.Length == |Idx|
    requires 3 * k0 <= |Pos| && 2 * k0 <= |Tex| && l0 <= |Idx|
    requires forall p :: 0 <= p < 3 * k0 ==> positions[p] == Pos[p]
    requires forall p :: 0 <= p < 3 * k0 ==> normals[p] == Nor[p]
    requires forall p :: 0 <= p < 2 * k0 ==> uvs[p] == Tex[p]
    requires forall p :: 0 <= p < l0 ==> indices[p] == Idx[p]
    modifies positions, normals, uvs, indices
    ensures k == 4 * CellsAbove(longBands, i + 1) && l == 6 * CellsAbove(longBands, i + 1)
    ensures 3 * k <= |Pos| && 2 * k <= |Tex| && l <= |Idx|
    ensures forall p :: 0 <= p < 3 * k ==> positions[p] == Pos[p]
    ensures forall p :: 0 <= p < 3 * k ==> normals[p] == Nor[p]
    ensures forall p :: 0 <= p < 2 * k ==> uvs[p] == Tex[p]
    ensures forall p :: 0 <= p < l ==> indices[p] == Idx[p]
    ensures forall p :: 3 * k <= p < positions.Length ==> positions[p] == old(positions[p])
    ensures forall p :: 3 * k <= p < normals.Length ==> normals[p] == old(normals[p])
    ensures forall p :: 2 * k <= p < uvs.Length ==> uvs[p] == old(uvs[p])
    ensures forall p :: l <= p < indices.Length ==> indices[p] == old(indices[p])
  {
    var latAngle := i as real * latStep;
    var y1 := Cos(g, latAngle);
    var y2 := Cos(g, latAngle + latStep);
    ghost var c0 := i * longBands;
    CellsAboveProduct(longBands, i);
    RowBound(i, longBands, latBands);
    k, l := k0, l0;
    var j := 0;
    while j < longBands
      invariant 0 <= j <= longBands
      invariant k == VertexIndex(longBands, i, j, 0) && l == 6 * (c0 + j)
      invariant c0 + j <= longBands * latBands
      invariant forall p :: 0 <= p < 3 * k ==> positions[p] == Pos[p]
      invariant forall p :: 0 <= p < 3 * k ==> normals[p] == Nor[p]
      invariant forall p :: 0 <= p < 2 * k ==> uvs[p] == Tex[p]
      invariant forall p :: 0 <= p < l ==> indices[p] == Idx[p]
      invariant forall p :: 3 * k <= p < positions.Length ==> positions[p] == old(positions[p])
      invariant forall p :: 3 * k <= p < normals.Length ==> normals[p] == old(normals[p])
      invariant forall p :: 2 * k <= p < uvs.Length ==> uvs[p] == old(uvs[p])
      invariant forall p :: l <= p < indices.Length ==> indices[p] == old(indices[p])
    {
      FillCell(positions, normals, uvs, indices, g, longBands, latBands, radius, i, j,
               latStep, longStep, latAngle, y1, y2, k, l, Pos, Nor, Tex, Idx);
      k := k + 4;
      l := l + 6;
      j := j + 1;
    }
    assert CellsAbove(longBands, i + 1) == c0 + longBands;
  }

  /** Once every latitude band is done the counters have reached the ends
      of the buffers. */
  lemma AllRows(n: nat, m: nat, i: nat, k: nat, l: nat)
    requires i == m && k == 4 * CellsAbove(n, i) && l == 6 * CellsAbove(n, i)
    ensures 3 * k == 3 * VertexCount(n, m) && 2 * k == 2 * VertexCount(n, m) && l == n * m * 6
  {
    CellsAboveProduct(n, i);
    assert i * n == n * m;
  }

  /** The two nested loops of `createSphere`: fill the four buffers cell by
      cell; `k` counts the vertices written so far and `l` the indices. */
  method FillSphere(positions: array<real>, normals: array<real>, uvs: array<real>, indices: array<int>,
                    g: Trig, longBands: nat, latBands: nat, radius: real,
                    ghost Pos: seq<real>, ghost Nor: seq<real>, ghost Tex: seq<real>, ghost Idx: seq<int>)
    requires 0 < longBands && 0 < latBands
    requires Pos == SpherePositions(g, longBands, latBands, radius) && Nor == SphereNormals(g, longBands, latBands)
    requires Tex == SphereUVs(longBands, latBands) && Idx == SphereIndices(longBands, latBands)
    requires positions != normals && positions != uvs && normals != uvs
    requires positions.Length == |Pos| && normals.Length == |Nor| && uvs.Length == |Tex| && indices.Length == |Idx|
    modifies positions, normals, uvs, indices
    ensures positions[..] == Pos && normals[..] == Nor && uvs[..] == Tex && indices[..] == Idx
  {
    var latStep := LatStep(g, latBands);
    var longStep := LongStep(g, longBands);
    ghost var n, m := longBands, latBands;
    var k, l := 0, 0;
    var i := 0;
    while i < latBands
      invariant 0 <= i <= latBands
      invariant k == 4 * CellsAbove(n, i) && l == 6 * CellsAbove(n, i)
      invariant 3 * k <= |Pos| && 2 * k <= |Tex| && l <= |Idx|
      invariant forall p :: 0 <= p < 3 * k ==> positions[p] == Pos[p]
      invariant forall p :: 0 <= p < 3 * k ==> normals[p] == Nor[p]
      invariant forall p :: 0 <= p < 2 * k ==> uvs[p] == Tex[p]
      invariant forall p :: 0 <= p < l ==> indices[p] == Idx[p]
    {
      k, l := FillRow(positions, normals, uvs, indices, g, longBands, latBands, radius, i,
                      latStep, longStep, k, l, Pos, Nor, Tex, Idx);
      i := i + 1;
    }
    AllRows(n, m, i, k, l);
    Agrees(positions, Pos);
    Agrees(normals, Nor);
    Agrees(uvs, Tex);
    Agrees(indices, Idx);
  }

  /** `createSphere`: resolves the options, allocates the four buffers at
      their final sizes, fills them and returns them as a mesh. */
  method CreateSphere(opts: SphereOptions, g: Trig) returns (mesh: Mesh)
    ensures mesh == SphereMesh(opts, g)
  {
    var longBands := BandCount(opts.longBands);
    var latBands := BandCount(opts.latBands);
    var radius := RadiusOf(opts.radius);
    var numPositions := longBands * latBands * 4;
    var numIndices := longBands * latBands * 6;
    var positions := new real[numPositions * 3];
    var normals := new real[numPositions * 3];
    var uvs := new real[numPositions * 2];
    var indices := new int[numIndices];
    ghost var n, m := longBands, latBands;
    ghost var Pos, Nor, Tex, Idx := SpherePositions(g, n, m, radius), SphereNormals(g, n, m), SphereUVs(n, m), SphereIndices(n, m);
    assert positions.Length == |Pos| && normals.Length == |Nor| && uvs.Length == |Tex| && indices.Length == |Idx|;
    FillSphere(positions, normals, uvs, indices, g, longBands, latBands, radius, Pos, Nor, Tex, Idx);
    mesh := Mesh(positions[..], normals[..], uvs[..], Some(indices[..]));
  }
}
