# WebGL geometry generators

This project models the three mesh generators of `utils/utils.js`, a helper module for WebGL demos, and proves properties of them.

- `createCube` builds a non-indexed box mesh. It has 36 vertices: six faces of two triangles each, with one normal per face and the same texture pattern on every face. The box is given by an origin corner and its dimensions.
- `createSphere` builds an indexed UV-sphere. Two nested loops over latitude and longitude bands write four vertices and six indices per cell into preallocated buffers. They write at offsets kept by the running counters `k` and `l`.
- `computeBoundingBox` folds the componentwise minimum and maximum over a flat position buffer. It starts from the sentinels +Infinity and -Infinity. On request it attaches the box mesh that `createCube` builds from `min` and `max - min`.

How the files are laid out:

- `geometry.dfy` (module `Geometry`): the shared values. These are points (`Vec3`), flat attribute buffers read as (x, y, z) triples or (u, v) pairs, and the `Mesh` bundle. Coordinates are `real`.
- `cube.dfy` (module `Cube`): `createCube` as pure functions over the eight corner records, plus an independent face-by-face description of the box. The lemmas tie the two together.
- `sphere.dfy` (module `Sphere`):
  - the specification functions: what each buffer holds at each vertex number;
  - the generator itself, as methods over `array`s that fill the buffers in the source's order. Their loop invariants say each buffer agrees with its specification on the prefix written so far.
- `sphere_facts.dfy` (module `SphereFacts`): what the sphere buffers promise beyond their layout.
- `bounds.dfy` (module `Bounds`): `computeBoundingBox` as a method with the stride-3 loop. The `ExtReal` datatype (`NegInf | Finite(r) | PosInf`) models the sentinels. The method is proved equal to a fold function, and the fold's extremal properties are proved as lemmas.

The options objects are records of `Option` fields, and JavaScript's `x || default` is modelled exactly. An absent value takes the default. So does a falsy one: a band count or radius of 0, and a `buildGeometry` of `false`. `Math.sin`, `Math.cos` and `Math.PI` are the fields of a `Trig` parameter, and the model leaves their values open. Properties that need trigonometric identities take those identities as preconditions.

## Model

| member | source | states |
|---|---|---|
| Cube.Dimensions | utils/utils.js:112 | the dimensions are the given ones, or (1, 1, 1) when none are given |
| Cube.Position | utils/utils.js:113 | the origin corner is the given one, or else minus half the dimensions, which centres the box on the origin |
| Cube.CreateCube | utils/utils.js:109-286 | the mesh has 36 position triples, 36 normal triples and 36 (u, v) pairs and no index buffer; vertex 13 is the resolved position and vertex 5 is position + dimensions |
| Cube.BoxMesh | utils/utils.js:130-284 | the box mesh for any origin corner and dimensions has 36 position triples, 36 normal triples and 36 (u, v) pairs and no index buffer |
| Cube.CornersOf | utils/utils.js:121-128 | the eight corners follow their names: `bbl` is the origin and `ftr` the opposite corner; front corners have z + depth and back ones z, bottom ones y and top ones y + height, left ones x and right ones x + width |
| Cube.FaceQuad | utils/utils.js:130-178 | each face lists six vertices, and its two triangles share the diagonal: slot 3 repeats slot 2 and slot 4 repeats slot 1 |
| Cube.CubeFaceLayout | utils/utils.js:121-228 | each vertex is the corner of its face's plane that its texture coordinate names, so the texture square maps onto each face |
| Cube.CubeNormals | utils/utils.js:230-278 | the normal of every vertex is its face's outward axis: +Z, +X, -Z, -X, +Y, -Y for vertices 0-5, 6-11, ..., 30-35 |
| Cube.CubeUVs | utils/utils.js:180-228 | every face repeats (0,0), (1,0), (0,1), (0,1), (1,0), (1,1), and every texture component is 0 or 1 |
| Cube.CubeCorners | utils/utils.js:121-178 | every vertex is one of the eight corners, and every vertex of a face has that face's fixed coordinate (front z + depth, right x + width, back z, left x, top y + height, bottom y) |
| Cube.CubeSpan | utils/utils.js:121-178 | with non-negative dimensions every vertex lies in [position, position + dimensions], vertex 13 is the low corner and vertex 5 is the high corner |
| Cube.CubeCentroid | utils/utils.js:121-178 | the 36 position triples sum to 36 times position + dimensions / 2, so their centroid is the centre of the box |
| Cube.DefaultCube | utils/utils.js:110-113 | with no options every vertex lies in the unit cube [-0.5, 0.5] on each axis |
| Cube.BoxVertexAt | utils/utils.js:130-278 | vertex v's position is the face corner its (u, v) pair names, its normal is the face's outward axis, and its (u, v) pair is slot v mod 6 of the face pattern |
| Cube.TriangleAt | utils/utils.js:130-278 | for each of the 12 triangles, the cross product of edges (b - a) and (c - a) is the stored normal of its first vertex scaled by the face's area |
| Cube.FirstTriangle | utils/utils.js:130-178 | the cross product of the edges of a face's first triangle (bl, br, tl) is the cross product of the face's two edge vectors |
| Cube.SecondTriangle | utils/utils.js:130-178 | the cross product of the edges of a face's second triangle (tl, br, tr) is the cross product of the face's two edge vectors |
| Cube.CubeWinding | utils/utils.js:130-278 | each triangle winds counter-clockwise about the stored normal. Its edge cross product is that normal scaled by the face area, which is positive for positive dimensions |
| Sphere.BandCount | utils/utils.js:291-292 | the band count is positive, and it is the given count unless that is absent or 0, in which case it is 32 |
| Sphere.RadiusOf | utils/utils.js:293 | the radius is non-zero, and it is the given radius unless that is absent or 0, in which case it is 1 |
| Sphere.SpherePositions | utils/utils.js:333-348 | the position buffer holds one triple per vertex, 3 · 4·n·m values; `SpherePositionAt` states what each triple is |
| Sphere.SphereNormals | utils/utils.js:350-364 | the normal buffer holds one triple per vertex, 3 · 4·n·m values; `SphereNormalAt` states what each triple is |
| Sphere.SphereUVs | utils/utils.js:366-376 | the uv buffer holds one pair per vertex, 2 · 4·n·m values; `SphereUVAt` states what each pair is |
| Sphere.SphereIndices | utils/utils.js:302-383 | the index buffer holds 6·n·m values, each in the Uint16Array range 0 .. 65535; `SphereIndexAt` states what each slot holds |
| Sphere.SphereMesh | utils/utils.js:296-302 | positions and normals hold 12·n·m values, uvs 8·n·m values and indices 6·n·m values, with n longitude and m latitude bands |
| Sphere.CellVertex | utils/utils.js:330-385 | corner k of cell (i, j) is vertex number 4(i·n + j) + k. That number lies below 4·n·m and decodes back to (i, j, k) |
| Sphere.VertexDecode | utils/utils.js:330-385 | every vertex number below 4·n·m is corner (q mod 4) of the cell it decodes to |
| Sphere.SpherePositionAt | utils/utils.js:333-348 | the position buffer holds, at corner k of cell (i, j), that corner's direction scaled by the radius |
| Sphere.SphereNormalAt | utils/utils.js:350-364 | the normal buffer holds, at corner k of cell (i, j), the unit-sphere direction of that corner's polar angle and azimuth |
| Sphere.SphereUVAt | utils/utils.js:326-376 | the uv buffer holds, at corner k of cell (i, j), (1 - j'/n, 1 - i'/m), with j' = j or j + 1 and i' = i or i + 1 per corner |
| Sphere.SphereIndexAt | utils/utils.js:378-383 | index slot 6(i·n + j) + t names corner 0, 1, 2, 2, 1, 3 (for t = 0..5) of cell (i, j), modulo 2^16 |
| Sphere.CellIndices | utils/utils.js:378-386 | the six index slots of cell c, starting at l = 6c, hold k, k+1, k+2, k+2, k+1, k+3 modulo 2^16, with k = 4c |
| Sphere.CellDirections | utils/utils.js:313-325 | the loop's x1..x4, y1, y2, z1..z4 are the directions of the cell's four corners |
| Sphere.CellNormals | utils/utils.js:333-364 | what the loop writes at the cell's four vertices is the specified normal and position, the position being the normal times the radius |
| Sphere.CellTexCoords | utils/utils.js:326-376 | the loop's (u1, v1), (u2, v1), (u1, v2), (u2, v2) are the specified pairs of the cell's four vertices |
| Sphere.StoreVertex | utils/utils.js:333-335 | writing one triple at vertex q makes the buffer agree with its specification up to 3q + 3 and leaves the rest untouched |
| Sphere.StoreCorners | utils/utils.js:333-364 | writing the cell's four triples at vertex q makes the buffer agree with its specification up to 3q + 12 and leaves the rest untouched |
| Sphere.StoreTexCoords | utils/utils.js:366-376 | writing the cell's four (u, v) pairs makes the uv buffer agree with its specification up to 2q + 8 and leaves the rest untouched |
| Sphere.StoreTriangles | utils/utils.js:378-383 | writing the cell's six indices makes the index buffer agree with its specification up to l + 6 and leaves the rest untouched |
| Sphere.FillCellCorners | utils/utils.js:317-364 | one inner-loop pass extends the agreeing prefix of the position and normal buffers by the cell's four vertices and leaves every slot past them untouched |
| Sphere.FillCellTexCoords | utils/utils.js:326-376 | one inner-loop pass extends the agreeing prefix of the uv buffer by the cell's four pairs and leaves every slot past them untouched |
| Sphere.FillCell | utils/utils.js:316-386 | one inner-loop pass extends the agreeing prefixes of all four buffers by one cell (12, 12, 8 and 6 entries) and leaves every slot past the cell untouched |
| Sphere.FillRow | utils/utils.js:313-387 | one outer-loop pass advances k by 4n and l by 6n; all four buffers agree with their specifications up to the new counters and are untouched beyond them |
| Sphere.FillSphere | utils/utils.js:312-388 | after both loops all four buffers equal their specifications |
| Sphere.CreateSphere | utils/utils.js:288-396 | the returned buffers are the specified sphere mesh for these options |
| SphereFacts.DefaultSphere | utils/utils.js:291-302 | with no options the mesh has 32 × 32 cells: 12288 position and normal values, 8192 uv values and 6144 indices, laid out for radius 1 |
| SphereFacts.ZeroMeansDefault | utils/utils.js:291-293 | band counts and radius of 0 give the same mesh as absent options |
| SphereFacts.SmallSphere | utils/utils.js:291-302 | four longitude and two latitude bands of radius 2 give 96, 96, 64 and 48 buffer entries |
| SphereFacts.PositionsAreScaledNormals | utils/utils.js:333-364 | every position triple is the normal triple of the same vertex times the radius |
| SphereFacts.OnTheSphere | utils/utils.js:317-364 | when sin² + cos² = 1, every normal is a unit vector and every position lies at distance radius from the origin |
| SphereFacts.CellHeights | utils/utils.js:314-364 | vertices 0 and 1 of cell (i, j) share height cos(iΔθ), and vertices 2 and 3 share height cos((i + 1)Δθ) |
| SphereFacts.NorthPole | utils/utils.js:313-348 | when sin 0 = 0 and cos 0 = 1, the top corners of the first latitude band sit at (0, radius, 0) |
| SphereFacts.SouthPole | utils/utils.js:313-348 | when sin π = 0 and cos π = -1, the bottom corners of the last latitude band sit at (0, -radius, 0) |
| SphereFacts.LongitudeNeighbours | utils/utils.js:317-376 | the right corners of cell (i, j) carry the same position, normal and texture coordinate as the left corners of cell (i, j + 1) |
| SphereFacts.LatitudeNeighbours | utils/utils.js:313-376 | the bottom corners of cell (i, j) carry the same position, normal and texture coordinate as the top corners of cell (i + 1, j) |
| SphereFacts.UVsInUnitSquare | utils/utils.js:326-376 | every texture component lies in [0, 1] |
| SphereFacts.IndicesInRange | utils/utils.js:302-383 | with at most 2^16 vertices no index wraps: slot p holds 4⌊p/6⌋ plus the pattern entry, and every index names a vertex of the mesh |
| SphereFacts.CellTriangles | utils/utils.js:378-386 | the two triangles of cell c are (4c, 4c+1, 4c+2) and (4c+2, 4c+1, 4c+3), modulo 2^16 |
| SphereFacts.NumberingIsBijective | utils/utils.js:330-385 | the vertex numbering maps the corners of the n·m cells one-to-one onto 0 .. 4·n·m - 1, in both directions |
| Bounds.Min | utils/utils.js:409-413 | `Math.min` returns one of its arguments, and that argument is below or equal to the other |
| Bounds.Max | utils/utils.js:410-414 | `Math.max` returns one of its arguments, and that argument is above or equal to the other |
| Bounds.BuildGeometry | utils/utils.js:399-400 | the mesh is built exactly when `buildGeometry` is given as true |
| Bounds.Lo | utils/utils.js:403-413 | the running minimum of an axis over the first c triples is +Infinity exactly when c = 0, and finite otherwise |
| Bounds.Hi | utils/utils.js:404-414 | the running maximum of an axis over the first c triples is -Infinity exactly when c = 0, and finite otherwise |
| Bounds.BoundsBox | utils/utils.js:417-424 | a box is built exactly when both bounds are finite on every axis; it is a 36-vertex non-indexed mesh whose vertex 13 is `min` and vertex 5 is `max`; otherwise the geometry is the non-finite marker |
| Bounds.BoundingBox | utils/utils.js:402-426 | the result has three minimum and three maximum coordinates, and it has geometry exactly when `buildGeometry` is set |
| Bounds.FoldNext | utils/utils.js:408-415 | one loop step at offset i = 3c folds triple c into each axis's running minimum and maximum |
| Bounds.ComputeBoundingBox | utils/utils.js:398-427 | the loop and the optional geometry produce exactly the fold's result |
| Bounds.LoAttained | utils/utils.js:403-413 | the running minimum stays +Infinity while no triple has been seen, and is afterwards one of the coordinates seen |
| Bounds.HiAttained | utils/utils.js:404-414 | the running maximum stays -Infinity while no triple has been seen, and is afterwards one of the coordinates seen |
| Bounds.BoundsAreExtremes | utils/utils.js:402-415 | on each axis, every point lies between min and max, and both bounds are attained by a point. An empty buffer leaves +Infinity and -Infinity |
| Bounds.FiniteBounds | utils/utils.js:408-415 | for a non-empty buffer both bounds are finite on each axis, with min <= max |
| Bounds.BoundsMesh | utils/utils.js:417-424 | with `buildGeometry`, a non-empty buffer gets the box at `min` of size `max - min`. Its vertices lie in [min, max], with `min` and `max` among them. An empty buffer gets the box over the infinite sentinels |
| Bounds.ThreePoints | utils/utils.js:398-427 | the points (0,0,0), (1,2,3) and (-1,5,0) have the bounds (-1,0,0) to (1,5,3) and no geometry |

## Left out

- The other functions of `utils/utils.js` are not modelled. `loadImages`, `loadImageArray`, `loadBinary` and `loadBinaries` are asynchronous browser I/O. `xformMatrix` is a thin wrapper over the gl-matrix library, whose source is not part of this model.
- Floating point is not modelled. Coordinates are exact `real`s, with no `Float32Array` rounding and no NaN.
- The values of `Math.sin`, `Math.cos` and `Math.PI` are open (the `Trig` parameter). Where a property needs sin² + cos² = 1, sin 0 = 0 or similar facts, the lemma takes them as preconditions.
- Sphere.BandCount: band counts are natural numbers. A negative or fractional `longBands` or `latBands` is not modelled.
- Bounds.ComputeBoundingBox: requires a buffer length that is a multiple of 3. In the source, a trailing partial triple reads `undefined` and turns the bounds into NaN.
- Bounds.BoundsMesh: for an empty buffer with `buildGeometry`, the source builds a cube whose coordinates are infinities and NaN. The model returns the marker `NonFiniteBox` and does not model that mesh's contents.
- Bounds.ComputeBoundingBox: the three-element `vec3` arrays `boundary.min` and `boundary.max` are `array<ExtReal>` of length 3. The returned record holds their contents as sequences, where the source adds the `geometry` field to the same object.
- Sphere.CreateSphere: the inner-loop body is split into helper methods (`FillCellCorners`, `FillCellTexCoords`, `StoreCorners`, `StoreVertex`, `StoreTexCoords`, `StoreTriangles`) and the outer-loop body into `FillRow`. The writes keep the source's order: positions, normals, uvs, indices. The u and v values are computed just before the uv writes rather than at the top of the pass; nothing reads them in between.
- Sphere.CreateSphere: the typed arrays start zero-filled in the source. The model allocates them without initial contents and proves that every element is overwritten.
- SphereFacts.IndicesInRange: `Uint16Array` wrap-around is modelled as `% 65536` on every stored index. The in-range property is proved only when the mesh has at most 2^16 vertices.
- SphereFacts.LongitudeNeighbours: shown for neighbours j and j + 1 with j + 1 < n. The seam between the last longitude band and the first needs cos and sin to be periodic, so it is not covered. The seam's texture coordinates differ in any case: u = 0 on one side and u = 1 on the other.
- "Every sphere buffer slot is written exactly once" is covered as follows. The final contents are proved (`Sphere.FillSphere`). Each cell's and each band's writes leave every slot past their end untouched (the frames of `Sphere.FillCell`, `Sphere.FillRow` and the Store methods). The number of writes per slot is not counted.
- The back face's first vertex is written in the source with the x of `fbr` and the y and z of `bbr`. That point is `bbr`, because both corners share `x + width`. The model keeps it as written (`Cube.FaceQuad`), and `Cube.CubeFaceLayout` shows that it is the intended corner.
