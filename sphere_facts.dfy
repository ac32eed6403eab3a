/** What the sphere mesh promises beyond its layout: the shape of the
    buffers, where the vertices lie and how the index buffer uses them. */
module SphereFacts {
  import opened Geometry
  import opened Sphere

  // ---------------------------------------------------------------------
  // Sizes and defaults

  /** The defaults: 32 bands each way and radius 1, so 4096 vertices and
      6144 indices. */
  lemma DefaultSphere(g: Trig)
    ensures var mesh := SphereMesh(SphereOptions(None, None, None), g);
      |mesh.positions| == 12288 && |mesh.normals| == 12288 && |mesh.uvs| == 8192
      && mesh.indices == Some(SphereIndices(32, 32)) && |mesh.indices.value| == 6144
      && mesh.positions == SpherePositions(g, 32, 32, 1.0)
  {
    var opts := SphereOptions(None, None, None);
    assert BandCount(opts.longBands) == 32 && BandCount(opts.latBands) == 32 && RadiusOf(opts.radius) == 1.0;
  }

  /** A band count or radius of 0 is falsy and falls back to the default. */
  lemma ZeroMeansDefault(g: Trig)
    ensures SphereMesh(SphereOptions(Some(0), Some(0), Some(0.0)), g) == SphereMesh(SphereOptions(None, None, None), g)
  {
  }

  /** Four longitude bands and two latitude bands: eight cells, 32 vertices
      and 48 indices. */
  lemma SmallSphere(g: Trig)
    ensures var mesh := SphereMesh(SphereOptions(Some(4), Some(2), Some(2.0)), g);
      |mesh.positions| == 96 && |mesh.normals| == 96 && |mesh.uvs| == 64
      && mesh.indices == Some(SphereIndices(4, 2)) && |mesh.indices.value| == 48
      && mesh.positions == SpherePositions(g, 4, 2, 2.0)
  {
    var opts := SphereOptions(Some(4), Some(2), Some(2.0));
    assert BandCount(opts.longBands) == 4 && BandCount(opts.latBands) == 2 && RadiusOf(opts.radius) == 2.0;
  }

  // ---------------------------------------------------------------------
  // Where the vertices lie

  /** Every position is the normal at the same vertex scaled by the radius. */
  lemma {:induction false} PositionsAreScaledNormals(g: Trig, n: nat, m: nat, radius: real)
    requires n > 0 && m > 0
    ensures forall q :: 0 <= q < VertexCount(n, m) ==>
      Vertex(SpherePositions(g, n, m, radius), q) == Scale(radius, Vertex(SphereNormals(g, n, m), q))
  {
    forall q | 0 <= q < VertexCount(n, m)
      ensures Vertex(SpherePositions(g, n, m, radius), q) == Scale(radius, Vertex(SphereNormals(g, n, m), q))
    {
      VertexDecode(n, m, q);
      var i, j, k := RowOf(n, q), ColOf(n, q), q % 4;
      SpherePositionAt(g, n, m, radius, i, j, k);
      SphereNormalAt(g, n, m, i, j, k);
    }
  }

  /** Pythagoras for the direction of one corner. */
  lemma {:induction false} UnitDirection(g: Trig, theta: real, phi: real)
    requires Sin(g, theta) * Sin(g, theta) + Cos(g, theta) * Cos(g, theta) == 1.0
    requires Sin(g, phi) * Sin(g, phi) + Cos(g, phi) * Cos(g, phi) == 1.0
    ensures Dot(Direction(g, theta, phi), Direction(g, theta, phi)) == 1.0
  {
    var st, ct, sp, cp := Sin(g, theta), Cos(g, theta), Sin(g, phi), Cos(g, phi);
    calc {
      Dot(Direction(g, theta, phi), Direction(g, theta, phi));
      (st * cp) * (st * cp) + ct * ct + (st * sp) * (st * sp);
      { assert (st * cp) * (st * cp) + (st * sp) * (st * sp) == (st * st) * (cp * cp + sp * sp); }
      (st * st) * (cp * cp + sp * sp) + ct * ct;
      st * st + ct * ct;
    }
  }

  lemma ScaledNorm(v: Vec3, radius: real)
    requires Dot(v, v) == 1.0
    ensures Dot(Vec3(v.x * radius, v.y * radius, v.z * radius), Vec3(v.x * radius, v.y * radius, v.z * radius)) == radius * radius
  {
    assert (v.x * radius) * (v.x * radius) + (v.y * radius) * (v.y * radius) + (v.z * radius) * (v.z * radius)
      == Dot(v, v) * (radius * radius);
  }

  /** One corner's normal is a unit vector and its position is at distance
      `radius` from the origin. */
  lemma {:induction false} CornerOnSphere(g: Trig, n: nat, m: nat, radius: real, i: nat, j: nat, k: nat)
    requires n > 0 && m > 0
    requires forall x :: Sin(g, x) * Sin(g, x) + Cos(g, x) * Cos(g, x) == 1.0
    ensures Dot(CornerNormal(g, n, m, i, j, k), CornerNormal(g, n, m, i, j, k)) == 1.0
    ensures Dot(CornerPosition(g, n, m, radius, i, j, k), CornerPosition(g, n, m, radius, i, j, k)) == radius * radius
  {
    var d := CornerNormal(g, n, m, i, j, k);
    UnitDirection(g, CornerTheta(g, m, i, k), CornerPhi(g, n, j, k));
    CornerScaled(g, n, m, radius, i, j, k, d.x, d.y, d.z);
    ScaledNorm(d, radius);
  }

  /** When sine and cosine satisfy sin^2 + cos^2 = 1, every normal is a unit
      vector and every position lies on the sphere of the given radius
      about the origin. */
  lemma {:induction false} OnTheSphere(g: Trig, n: nat, m: nat, radius: real)
    requires n > 0 && m > 0
    requires forall x :: Sin(g, x) * Sin(g, x) + Cos(g, x) * Cos(g, x) == 1.0
    ensures forall q :: 0 <= q < VertexCount(n, m) ==>
      Dot(Vertex(SphereNormals(g, n, m), q), Vertex(SphereNormals(g, n, m), q)) == 1.0
    ensures forall q :: 0 <= q < VertexCount(n, m) ==>
      Dot(Vertex(SpherePositions(g, n, m, radius), q), Vertex(SpherePositions(g, n, m, radius), q)) == radius * radius
  {
    forall q | 0 <= q < VertexCount(n, m)
      ensures Dot(Vertex(SphereNormals(g, n, m), q), Vertex(SphereNormals(g, n, m), q)) == 1.0
      ensures Dot(Vertex(SpherePositions(g, n, m, radius), q), Vertex(SpherePositions(g, n, m, radius), q)) == radius * radius
    {
      VertexDecode(n, m, q);
      var i, j, k := RowOf(n, q), ColOf(n, q), q % 4;
      CornerOnSphere(g, n, m, radius, i, j, k);
      SpherePositionAt(g, n, m, radius, i, j, k);
      SphereNormalAt(g, n, m, i, j, k);
    }
  }

  lemma CornerHeight(g: Trig, n: nat, m: nat, i: nat, j: nat, k: nat, theta: real)
    requires n > 0 && m > 0 && CornerTheta(g, m, i, k) == theta
    ensures CornerNormal(g, n, m, i, j, k).y == Cos(g, theta)
  {
  }

  /** The two upper corners of a cell share the latitude's height cos(theta)
      and the two lower corners that of the next latitude. */
  lemma {:induction false} CellHeights(g: Trig, n: nat, m: nat, i: nat, j: nat)
    requires n > 0 && m > 0 && i < m && j < n
    ensures var N, theta := SphereNormals(g, n, m), i as real * LatStep(g, m);
      3 * VertexIndex(n, i, j, 3) + 2 < |N|
      && Vertex(N, VertexIndex(n, i, j, 0)).y == Cos(g, theta)
      && Vertex(N, VertexIndex(n, i, j, 1)).y == Cos(g, theta)
      && Vertex(N, VertexIndex(n, i, j, 2)).y == Cos(g, theta + LatStep(g, m))
      && Vertex(N, VertexIndex(n, i, j, 3)).y == Cos(g, theta + LatStep(g, m))
  {
    var theta := i as real * LatStep(g, m);
    CellAngles(g, n, m, i, j, LatStep(g, m), LongStep(g, n), theta, j as real * LongStep(g, n));
    CornerHeight(g, n, m, i, j, 0, theta);
    CornerHeight(g, n, m, i, j, 1, theta);
    CornerHeight(g, n, m, i, j, 2, theta + LatStep(g, m));
    CornerHeight(g, n, m, i, j, 3, theta + LatStep(g, m));
    SphereNormalAt(g, n, m, i, j, 0);
    SphereNormalAt(g, n, m, i, j, 1);
    SphereNormalAt(g, n, m, i, j, 2);
    SphereNormalAt(g, n, m, i, j, 3);
  }

  /** A corner at polar angle `theta` with sin theta = 0 is on the axis at height cos theta. */
  lemma {:induction false} PoleCorner(g: Trig, n: nat, m: nat, radius: real, i: nat, j: nat, k: nat, theta: real)
    requires n > 0 && m > 0
    requires CornerTheta(g, m, i, k) == theta && Sin(g, theta) == 0.0
    ensures CornerPosition(g, n, m, radius, i, j, k) == Vec3(0.0, Cos(g, theta) * radius, 0.0)
  {
    var d := CornerNormal(g, n, m, i, j, k);
    assert d == Vec3(0.0, Cos(g, theta), 0.0);
    CornerScaled(g, n, m, radius, i, j, k, d.x, d.y, d.z);
  }

  /** With sin 0 = 0 and cos 0 = 1, the top corners of the first latitude
      band are the north pole (0, radius, 0). */
  lemma {:induction false} NorthPole(g: Trig, n: nat, m: nat, radius: real, j: nat)
    requires n > 0 && m > 0 && j < n
    requires Sin(g, 0.0) == 0.0 && Cos(g, 0.0) == 1.0
    ensures var P := SpherePositions(g, n, m, radius);
      3 * VertexIndex(n, 0, j, 1) + 2 < |P|
      && Vertex(P, VertexIndex(n, 0, j, 0)) == Vec3(0.0, radius, 0.0)
      && Vertex(P, VertexIndex(n, 0, j, 1)) == Vec3(0.0, radius, 0.0)
  {
    PoleCorner(g, n, m, radius, 0, j, 0, 0.0);
    PoleCorner(g, n, m, radius, 0, j, 1, 0.0);
    SpherePositionAt(g, n, m, radius, 0, j, 0);
    SpherePositionAt(g, n, m, radius, 0, j, 1);
  }

  lemma LastLatitude(g: Trig, m: nat)
    requires m > 0
    ensures CornerTheta(g, m, m - 1, 2) == g.pi && CornerTheta(g, m, m - 1, 3) == g.pi
  {
    assert (m - 1) as real * LatStep(g, m) + LatStep(g, m) == m as real * (g.pi / m as real);
  }

  /** With sin pi = 0 and cos pi = -1, the bottom corners of the last
      latitude band are the south pole (0, -radius, 0). */
  lemma {:induction false} SouthPole(g: Trig, n: nat, m: nat, radius: real, j: nat)
    requires n > 0 && m > 0 && j < n
    requires Sin(g, g.pi) == 0.0 && Cos(g, g.pi) == -1.0
    ensures var P := SpherePositions(g, n, m, radius);
      3 * VertexIndex(n, m - 1, j, 3) + 2 < |P|
      && Vertex(P, VertexIndex(n, m - 1, j, 2)) == Vec3(0.0, -radius, 0.0)
      && Vertex(P, VertexIndex(n, m - 1, j, 3)) == Vec3(0.0, -radius, 0.0)
  {
    LastLatitude(g, m);
    PoleCorner(g, n, m, radius, m - 1, j, 2, g.pi);
    PoleCorner(g, n, m, radius, m - 1, j, 3, g.pi);
    SpherePositionAt(g, n, m, radius, m - 1, j, 2);
    SpherePositionAt(g, n, m, radius, m - 1, j, 3);
  }

  // ---------------------------------------------------------------------
  // Neighbouring cells

  lemma NextBand(b: nat, step: real)
    ensures (b + 1) as real * step == b as real * step + step
  {
  }

  /** `q` and `r` are both vertices of the mesh and carry the same
      position, normal and texture coordinate. */
  predicate SameVertex(g: Trig, n: nat, m: nat, radius: real, q: nat, r: nat)
  {
    q < VertexCount(n, m) && r < VertexCount(n, m)
    && Vertex(SpherePositions(g, n, m, radius), q) == Vertex(SpherePositions(g, n, m, radius), r)
    && Vertex(SphereNormals(g, n, m), q) == Vertex(SphereNormals(g, n, m), r)
    && TexCoord(SphereUVs(n, m), q) == TexCoord(SphereUVs(n, m), r)
  }

  lemma SameNormal(g: Trig, n: nat, m: nat, i: nat, j: nat, t: nat, i': nat, j': nat, t': nat)
    requires n > 0 && m > 0
    requires CornerTheta(g, m, i, t) == CornerTheta(g, m, i', t') && CornerPhi(g, n, j, t) == CornerPhi(g, n, j', t')
    ensures CornerNormal(g, n, m, i, j, t) == CornerNormal(g, n, m, i', j', t')
  {
  }

  lemma SamePosition(g: Trig, n: nat, m: nat, radius: real, i: nat, j: nat, t: nat, i': nat, j': nat, t': nat)
    requires n > 0 && m > 0
    requires CornerNormal(g, n, m, i, j, t) == CornerNormal(g, n, m, i', j', t')
    ensures CornerPosition(g, n, m, radius, i, j, t) == CornerPosition(g, n, m, radius, i', j', t')
  {
  }

  /** Corner t of cell (i, j) and corner t' of cell (i', j') hold the same vertex. */
  lemma SameCorner(g: Trig, n: nat, m: nat, radius: real, i: nat, j: nat, t: nat, i': nat, j': nat, t': nat)
    requires n > 0 && m > 0 && i < m && j < n && t < 4 && i' < m && j' < n && t' < 4
    requires CornerNormal(g, n, m, i, j, t) == CornerNormal(g, n, m, i', j', t')
    requires CornerUV(n, m, i, j, t) == CornerUV(n, m, i', j', t')
    ensures SameVertex(g, n, m, radius, VertexIndex(n, i, j, t), VertexIndex(n, i', j', t'))
  {
    SamePosition(g, n, m, radius, i, j, t, i', j', t');
    SpherePositionAt(g, n, m, radius, i, j, t);
    SpherePositionAt(g, n, m, radius, i', j', t');
    SphereNormalAt(g, n, m, i, j, t);
    SphereNormalAt(g, n, m, i', j', t');
    SphereUVAt(n, m, i, j, t);
    SphereUVAt(n, m, i', j', t');
  }

  /** The right edge of cell (i, j) is the left edge of cell (i, j + 1),
      in angles and in texture coordinates. */
  lemma {:induction false} LongitudeEdge(g: Trig, n: nat, m: nat, i: nat, j: nat)
    requires n > 0 && m > 0
    ensures CornerNormal(g, n, m, i, j, 1) == CornerNormal(g, n, m, i, j + 1, 0)
    ensures CornerNormal(g, n, m, i, j, 3) == CornerNormal(g, n, m, i, j + 1, 2)
    ensures CornerUV(n, m, i, j, 1) == CornerUV(n, m, i, j + 1, 0)
    ensures CornerUV(n, m, i, j, 3) == CornerUV(n, m, i, j + 1, 2)
  {
    NextBand(j, LongStep(g, n));
    assert CornerPhi(g, n, j, 1) == CornerPhi(g, n, j + 1, 0) && CornerTheta(g, m, i, 1) == CornerTheta(g, m, i, 0);
    assert CornerPhi(g, n, j, 3) == CornerPhi(g, n, j + 1, 2) && CornerTheta(g, m, i, 3) == CornerTheta(g, m, i, 2);
    SameNormal(g, n, m, i, j, 1, i, j + 1, 0);
    SameNormal(g, n, m, i, j, 3, i, j + 1, 2);
  }

  /** The bottom edge of cell (i, j) is the top edge of cell (i + 1, j). */
  lemma {:induction false} LatitudeEdge(g: Trig, n: nat, m: nat, i: nat, j: nat)
    requires n > 0 && m > 0
    ensures CornerNormal(g, n, m, i, j, 2) == CornerNormal(g, n, m, i + 1, j, 0)
    ensures CornerNormal(g, n, m, i, j, 3) == CornerNormal(g, n, m, i + 1, j, 1)
    ensures CornerUV(n, m, i, j, 2) == CornerUV(n, m, i + 1, j, 0)
    ensures CornerUV(n, m, i, j, 3) == CornerUV(n, m, i + 1, j, 1)
  {
    NextBand(i, LatStep(g, m));
    assert CornerTheta(g, m, i, 2) == CornerTheta(g, m, i + 1, 0) && CornerPhi(g, n, j, 2) == CornerPhi(g, n, j, 0);
    assert CornerTheta(g, m, i, 3) == CornerTheta(g, m, i + 1, 1) && CornerPhi(g, n, j, 3) == CornerPhi(g, n, j, 1);
    SameNormal(g, n, m, i, j, 2, i + 1, j, 0);
    SameNormal(g, n, m, i, j, 3, i + 1, j, 1);
  }

  /** Cells side by side in a latitude band repeat the vertices of their
      common edge: right corner t of (i, j) (1 at the top, 3 at the bottom)
      is left corner t - 1 of (i, j + 1). */
  lemma {:induction false} LongitudeNeighbours(g: Trig, n: nat, m: nat, radius: real, i: nat, j: nat, t: nat)
    requires n > 0 && m > 0 && i < m && j + 1 < n && (t == 1 || t == 3)
    ensures SameVertex(g, n, m, radius, VertexIndex(n, i, j, t), VertexIndex(n, i, j + 1, t - 1))
  {
    LongitudeEdge(g, n, m, i, j);
    SameCorner(g, n, m, radius, i, j, t, i, j + 1, t - 1);
  }

  /** Cells one above the other repeat the vertices of their common edge:
      lower corner t + 2 of (i, j) is upper corner t of (i + 1, j). */
  lemma {:induction false} LatitudeNeighbours(g: Trig, n: nat, m: nat, radius: real, i: nat, j: nat, t: nat)
    requires n > 0 && m > 0 && i + 1 < m && j < n && t < 2
    ensures SameVertex(g, n, m, radius, VertexIndex(n, i, j, t + 2), VertexIndex(n, i + 1, j, t))
  {
    LatitudeEdge(g, n, m, i, j);
    SameCorner(g, n, m, radius, i, j, t + 2, i + 1, j, t);
  }

  // ---------------------------------------------------------------------
  // Texture coordinates

  lemma Fraction(a: nat, n: nat)
    requires n > 0 && a <= n
    ensures 0.0 <= 1.0 - a as real / n as real <= 1.0
  {
    assert a as real / n as real <= 1.0;
  }

  /** Every texture coordinate lies in the unit square: u falls from 1 to 0
      across the longitude bands and v across the latitude bands. */
  lemma {:induction false} UVsInUnitSquare(n: nat, m: nat)
    requires n > 0 && m > 0
    ensures forall q :: 0 <= q < VertexCount(n, m) ==>
      0.0 <= TexCoord(SphereUVs(n, m), q).0 <= 1.0 && 0.0 <= TexCoord(SphereUVs(n, m), q).1 <= 1.0
  {
    forall q | 0 <= q < VertexCount(n, m)
      ensures 0.0 <= TexCoord(SphereUVs(n, m), q).0 <= 1.0 && 0.0 <= TexCoord(SphereUVs(n, m), q).1 <= 1.0
    {
      VertexDecode(n, m, q);
      var i, j, k := RowOf(n, q), ColOf(n, q), q % 4;
      SphereUVAt(n, m, i, j, k);
      Fraction(j, n);
      Fraction(j + 1, n);
      Fraction(i, m);
      Fraction(i + 1, m);
    }
  }

  // ---------------------------------------------------------------------
  // The index buffer

  /** While the mesh has at most 2^16 vertices, no index wraps: slot p
      names corner CellPattern(p % 6) of cell p / 6, and every index names
      a vertex of the mesh. */
  lemma {:induction false} IndicesInRange(n: nat, m: nat)
    requires VertexCount(n, m) <= Uint16Range
    ensures forall p :: 0 <= p < |SphereIndices(n, m)| ==>
      SphereIndices(n, m)[p] == 4 * (p / 6) + CellPattern(p % 6)
    ensures forall p :: 0 <= p < |SphereIndices(n, m)| ==> 0 <= SphereIndices(n, m)[p] < VertexCount(n, m)
  {
    var idx := SphereIndices(n, m);
    forall p | 0 <= p < |idx|
      ensures idx[p] == 4 * (p / 6) + CellPattern(p % 6) && idx[p] < VertexCount(n, m)
    {
      var c := p / 6;
      assert c < n * m;
      assert 4 * c + CellPattern(p % 6) < VertexCount(n, m);
    }
  }

  /** Cell c's two triangles are (4c, 4c+1, 4c+2) and (4c+2, 4c+1, 4c+3),
      taken modulo 2^16: they share the diagonal from corner 1 to corner 2
      and together cover the cell's four corners. */
  lemma {:induction false} CellTriangles(n: nat, m: nat, c: nat)
    requires c < n * m
    ensures 6 * c + 6 <= |SphereIndices(n, m)|
    ensures SphereIndices(n, m)[6 * c .. 6 * c + 3]
      == [(4 * c) % Uint16Range, (4 * c + 1) % Uint16Range, (4 * c + 2) % Uint16Range]
    ensures SphereIndices(n, m)[6 * c + 3 .. 6 * c + 6]
      == [(4 * c + 2) % Uint16Range, (4 * c + 1) % Uint16Range, (4 * c + 3) % Uint16Range]
  {
    var idx := SphereIndices(n, m);
    CellIndices(n, m, c, 4 * c, 6 * c);
    assert idx[6 * c .. 6 * c + 3] == [idx[6 * c], idx[6 * c + 1], idx[6 * c + 2]];
    assert idx[6 * c + 3 .. 6 * c + 6] == [idx[6 * c + 3], idx[6 * c + 4], idx[6 * c + 5]];
  }

  /** The vertex numbering is a bijection between the corners of the cells
      and the vertices of the buffers. */
  lemma {:induction false} NumberingIsBijective(n: nat, m: nat)
    requires n > 0 && m > 0
    ensures forall i: nat, j: nat, k: nat :: i < m && j < n && k < 4 ==>
      VertexIndex(n, i, j, k) < VertexCount(n, m)
      && RowOf(n, VertexIndex(n, i, j, k)) == i && ColOf(n, VertexIndex(n, i, j, k)) == j
      && VertexIndex(n, i, j, k) % 4 == k
    ensures forall q :: 0 <= q < VertexCount(n, m) ==>
      RowOf(n, q) < m && ColOf(n, q) < n && q == VertexIndex(n, RowOf(n, q), ColOf(n, q), q % 4)
  {
    forall i: nat, j: nat, k: nat | i < m && j < n && k < 4
      ensures VertexIndex(n, i, j, k) < VertexCount(n, m)
      ensures RowOf(n, VertexIndex(n, i, j, k)) == i && ColOf(n, VertexIndex(n, i, j, k)) == j
      ensures VertexIndex(n, i, j, k) % 4 == k
    {
      CellVertex(n, m, i, j, k);
    }
    forall q | 0 <= q < VertexCount(n, m)
      ensures RowOf(n, q) < m && ColOf(n, q) < n && q == VertexIndex(n, RowOf(n, q), ColOf(n, q), q % 4)
    {
      VertexDecode(n, m, q);
    }
  }
}
