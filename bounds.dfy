/** `computeBoundingBox`: the axis-aligned bounds of a flat position
    buffer, optionally with a box mesh that spans them. The running
    minimum starts at +Infinity and the running maximum at -Infinity, so
    the coordinates are extended reals. */
module Bounds {
  import opened Geometry
  import Cube

  /** A coordinate of the running bounds: a real or one of the two infinities. */
  datatype ExtReal = NegInf | Finite(r: real) | PosInf

  predicate Le(a: ExtReal, b: ExtReal)
  {
    a.NegInf? || b.PosInf? || (a.Finite? && b.Finite? && a.r <= b.r)
  }

  /** `Math.min` on extended reals. */
  function Min(a: ExtReal, b: ExtReal): (r: ExtReal)
    ensures Le(r, a) && Le(r, b)
    ensures r == a || r == b
  {
    if Le(a, b) then a else b
  }

  /** `Math.max` on extended reals. */
  function Max(a: ExtReal, b: ExtReal): (r: ExtReal)
    ensures Le(a, r) && Le(b, r)
    ensures r == a || r == b
  {
    if Le(a, b) then b else a
  }

  /** `options.buildGeometry || false`: only a given `true` builds the mesh;
      an absent options object is the same as one with no fields. */
  datatype BoundsOptions = BoundsOptions(buildGeometry: Option<bool>)

  function BuildGeometry(opts: BoundsOptions): (b: bool)
    ensures b <==> opts.buildGeometry == Some(true)
  {
    match opts.buildGeometry
    case Some(b) => b
    case None => false
  }

  /** The attached geometry: none, the box mesh over finite bounds, or the
      box over the infinite sentinels of an empty buffer, whose coordinates
      are not real numbers. */
  datatype BoxGeometry = NoGeometry | Box(mesh: Mesh) | NonFiniteBox

  /** The returned object: per-axis minimum and maximum, and the geometry. */
  datatype Boundary = Boundary(min: seq<ExtReal>, max: seq<ExtReal>, geometry: BoxGeometry)

  /** The number of whole (x, y, z) triples in the buffer. */
  function Count(position: seq<real>): nat
  {
    |position| / 3
  }

  /** The minimum of coordinate `a` over the first `c` triples, starting from +Infinity. */
  function Lo(position: seq<real>, a: nat, c: nat): (r: ExtReal)
    requires a < 3 && 3 * c <= |position|
    ensures c == 0 <==> r == PosInf
    ensures c > 0 ==> r.Finite?
  {
    if c == 0 then PosInf else Min(Finite(position[3 * (c - 1) + a]), Lo(position, a, c - 1))
  }

  /** The maximum of coordinate `a` over the first `c` triples, starting from -Infinity. */
  function Hi(position: seq<real>, a: nat, c: nat): (r: ExtReal)
    requires a < 3 && 3 * c <= |position|
    ensures c == 0 <==> r == NegInf
    ensures c > 0 ==> r.Finite?
  {
    if c == 0 then NegInf else Max(Finite(position[3 * (c - 1) + a]), Hi(position, a, c - 1))
  }

  /** A real on every axis, or None. */
  function Finite3(v: seq<ExtReal>): (r: Option<Vec3>)
    requires |v| == 3
    ensures r.Some? <==> v[0].Finite? && v[1].Finite? && v[2].Finite?
    ensures r.Some? ==> r.value == Vec3(v[0].r, v[1].r, v[2].r)
  {
    if v[0].Finite? && v[1].Finite? && v[2].Finite? then Some(Vec3(v[0].r, v[1].r, v[2].r)) else None
  }

  /** The box that `createCube` builds from the corner `min` and the size `max - min`. */
  function BoundsBox(min: seq<ExtReal>, max: seq<ExtReal>): (g: BoxGeometry)
    requires |min| == 3 && |max| == 3
    ensures g.Box? <==> Finite3(min).Some? && Finite3(max).Some?
    ensures g.Box? ==> |g.mesh.positions| == 3 * 36 && g.mesh.indices == None
    ensures g.Box? ==> Vertex(g.mesh.positions, 13) == Finite3(min).value
    ensures g.Box? ==> Vertex(g.mesh.positions, 5) == Finite3(max).value
    ensures !g.Box? ==> g == NonFiniteBox
  {
    match (Finite3(min), Finite3(max))
    case (Some(lo), Some(hi)) =>
      Box(Cube.CreateCube(Cube.CubeOptions(Some(Sub(hi, lo)), Some(lo))))
    case _ => NonFiniteBox
  }

  /** What `computeBoundingBox` returns. */
  function BoundingBox(position: seq<real>, opts: BoundsOptions): (b: Boundary)
    requires |position| % 3 == 0
    ensures |b.min| == 3 && |b.max| == 3
    ensures b.geometry.NoGeometry? <==> !BuildGeometry(opts)
  {
    var c := Count(position);
    var min := [Lo(position, 0, c), Lo(position, 1, c), Lo(position, 2, c)];
    var max := [Hi(position, 0, c), Hi(position, 1, c), Hi(position, 2, c)];
    Boundary(min, max, if BuildGeometry(opts) then BoundsBox(min, max) else NoGeometry)
  }

  // ---------------------------------------------------------------------
  // The loop

  /** `computeBoundingBox`: one pass over the buffer in steps of three,
      folding each coordinate into the running minimum and maximum of its
      axis; `c` counts the triples folded so far. */
  method ComputeBoundingBox(position: seq<real>, opts: BoundsOptions) returns (b: Boundary)
    requires |position| % 3 == 0
    ensures b == BoundingBox(position, opts)
  {
    var buildGeometry := BuildGeometry(opts);
    var min := new ExtReal[3];
    var max := new ExtReal[3];
    min[0], min[1], min[2] := PosInf, PosInf, PosInf;
    max[0], max[1], max[2] := NegInf, NegInf, NegInf;
    var i, len := 0, |position|;
    ghost var c := 0;
    while i < len
      invariant 0 <= i <= len && i == 3 * c
      invariant min[0] == Lo(position, 0, c) && min[1] == Lo(position, 1, c) && min[2] == Lo(position, 2, c)
      invariant max[0] == Hi(position, 0, c) && max[1] == Hi(position, 1, c) && max[2] == Hi(position, 2, c)
    {
      FoldNext(position, c, i);
      min[0] := Min(Finite(position[i]), min[0]);
      max[0] := Max(Finite(position[i]), max[0]);
      min[1] := Min(Finite(position[i + 1]), min[1]);
      max[1] := Max(Finite(position[i + 1]), max[1]);
      min[2] := Min(Finite(position[i + 2]), min[2]);
      max[2] := Max(Finite(position[i + 2]), max[2]);
      i := i + 3;
      c := c + 1;
    }
    assert c == Count(position);
    assert min[..] == [min[0], min[1], min[2]] && max[..] == [max[0], max[1], max[2]];
    var geometry := NoGeometry;
    if buildGeometry {
      geometry := BoundsBox(min[..], max[..]);
    }
    b := Boundary(min[..], max[..], geometry);
  }

  /** Folding in the triple at offset i = 3c extends each axis's fold by one. */
  lemma FoldNext(position: seq<real>, c: nat, i: nat)
    requires |position| % 3 == 0 && i == 3 * c && i < |position|
    ensures i + 2 < |position| && 3 * (c + 1) <= |position|
    ensures Lo(position, 0, c + 1) == Min(Finite(position[i]), Lo(position, 0, c))
    ensures Lo(position, 1, c + 1) == Min(Finite(position[i + 1]), Lo(position, 1, c))
    ensures Lo(position, 2, c + 1) == Min(Finite(position[i + 2]), Lo(position, 2, c))
    ensures Hi(position, 0, c + 1) == Max(Finite(position[i]), Hi(position, 0, c))
    ensures Hi(position, 1, c + 1) == Max(Finite(position[i + 1]), Hi(position, 1, c))
    ensures Hi(position, 2, c + 1) == Max(Finite(position[i + 2]), Hi(position, 2, c))
  {
  }

  // ---------------------------------------------------------------------
  // The folds are the minimum and the maximum

  /** Coordinate `a` of triple `c`. */
  function Coord(position: seq<real>, c: nat, a: nat): real
    requires a < 3 && 3 * c + a < |position|
  {
    position[3 * c + a]
  }

  /** No coordinate of the first `c` triples is below `Lo`. */
  lemma {:induction false} LoBelow(position: seq<real>, a: nat, c: nat)
    requires a < 3 && 3 * c <= |position|
    ensures forall q :: 0 <= q < c ==> Le(Lo(position, a, c), Finite(Coord(position, q, a)))
  {
    if c > 0 {
      LoBelow(position, a, c - 1);
      forall q | 0 <= q < c ensures Le(Lo(position, a, c), Finite(Coord(position, q, a))) {
        if q < c - 1 {
          LeTrans(Lo(position, a, c), Lo(position, a, c - 1), Finite(Coord(position, q, a)));
        }
      }
    }
  }

  /** `Lo` is +Infinity for no triples and otherwise one of the coordinates. */
  lemma {:induction false} LoAttained(position: seq<real>, a: nat, c: nat)
    requires a < 3 && 3 * c <= |position|
    ensures c == 0 <==> Lo(position, a, c) == PosInf
    ensures c > 0 ==> exists q :: 0 <= q < c && Lo(position, a, c) == Finite(Coord(position, q, a))
  {
    if c > 0 {
      LoAttained(position, a, c - 1);
      if Lo(position, a, c) == Finite(Coord(position, c - 1, a)) {
      } else {
        assert Lo(position, a, c) == Lo(position, a, c - 1);
        var q :| 0 <= q < c - 1 && Lo(position, a, c - 1) == Finite(Coord(position, q, a));
      }
    }
  }

  /** No coordinate of the first `c` triples is above `Hi`. */
  lemma {:induction false} HiAbove(position: seq<real>, a: nat, c: nat)
    requires a < 3 && 3 * c <= |position|
    ensures forall q :: 0 <= q < c ==> Le(Finite(Coord(position, q, a)), Hi(position, a, c))
  {
    if c > 0 {
      HiAbove(position, a, c - 1);
      forall q | 0 <= q < c ensures Le(Finite(Coord(position, q, a)), Hi(position, a, c)) {
        if q < c - 1 {
          LeTrans(Finite(Coord(position, q, a)), Hi(position, a, c - 1), Hi(position, a, c));
        }
      }
    }
  }

  /** `Hi` is -Infinity for no triples and otherwise one of the coordinates. */
  lemma {:induction false} HiAttained(position: seq<real>, a: nat, c: nat)
    requires a < 3 && 3 * c <= |position|
    ensures c == 0 <==> Hi(position, a, c) == NegInf
    ensures c > 0 ==> exists q :: 0 <= q < c && Hi(position, a, c) == Finite(Coord(position, q, a))
  {
    if c > 0 {
      HiAttained(position, a, c - 1);
      if Hi(position, a, c) == Finite(Coord(position, c - 1, a)) {
      } else {
        assert Hi(position, a, c) == Hi(position, a, c - 1);
        var q :| 0 <= q < c - 1 && Hi(position, a, c - 1) == Finite(Coord(position, q, a));
      }
    }
  }

  lemma LeTrans(a: ExtReal, b: ExtReal, c: ExtReal)
    requires Le(a, b) && Le(b, c)
    ensures Le(a, c)
  {
  }

  /** The returned bounds are the least and the greatest coordinate on each
      axis: every point of the buffer lies inside them, each bound is a
      coordinate of some point, and an empty buffer leaves the sentinels
      +Infinity and -Infinity. */
  lemma {:induction false} BoundsAreExtremes(position: seq<real>, opts: BoundsOptions, a: nat)
    requires |position| % 3 == 0 && a < 3
    ensures var b := BoundingBox(position, opts);
      (forall q :: 0 <= q < Count(position) ==>
         Le(b.min[a], Finite(Coord(position, q, a))) && Le(Finite(Coord(position, q, a)), b.max[a]))
      && (position == [] <==> b.min[a] == PosInf)
      && (position == [] <==> b.max[a] == NegInf)
      && (position != [] ==> exists q :: 0 <= q < Count(position) && b.min[a] == Finite(Coord(position, q, a)))
      && (position != [] ==> exists q :: 0 <= q < Count(position) && b.max[a] == Finite(Coord(position, q, a)))
  {
    var c := Count(position);
    var b := BoundingBox(position, opts);
    assert b.min[a] == Lo(position, a, c) && b.max[a] == Hi(position, a, c);
    LoBelow(position, a, c);
    HiAbove(position, a, c);
    LoAttained(position, a, c);
    HiAttained(position, a, c);
  }

  // ---------------------------------------------------------------------
  // The attached box

  /** For a non-empty buffer the bounds are finite and min <= max on every axis. */
  lemma {:induction false} FiniteBounds(position: seq<real>, a: nat)
    requires |position| % 3 == 0 && position != [] && a < 3
    ensures Lo(position, a, Count(position)).Finite? && Hi(position, a, Count(position)).Finite?
    ensures Lo(position, a, Count(position)).r <= Hi(position, a, Count(position)).r
  {
    var c := Count(position);
    LoAttained(position, a, c);
    HiAttained(position, a, c);
    LoBelow(position, a, c);
    HiAbove(position, a, c);
    var q :| 0 <= q < c && Lo(position, a, c) == Finite(Coord(position, q, a));
    assert Le(Finite(Coord(position, q, a)), Hi(position, a, c));
  }

  /** With `buildGeometry`, a non-empty buffer gets the box mesh whose
      origin corner is the minimum and whose size is max - min: a box
      whose 36 vertices all lie within the bounds, with the minimum as its
      vertex 13 and the maximum as its vertex 5. An empty buffer gets the
      box over the infinite sentinels. */
  lemma {:induction false} BoundsMesh(position: seq<real>, opts: BoundsOptions)
    requires |position| % 3 == 0 && BuildGeometry(opts)
    ensures var b := BoundingBox(position, opts);
      position == [] <==> b.geometry.NonFiniteBox?
    ensures var b := BoundingBox(position, opts);
      position != [] ==>
        var lo, hi := Finite3(b.min).value, Finite3(b.max).value;
        b.geometry == Box(Cube.BoxMesh(lo, Sub(hi, lo)))
        && (forall v :: 0 <= v < 36 ==> Cube.Within(Vertex(b.geometry.mesh.positions, v), lo, hi))
        && Vertex(b.geometry.mesh.positions, 13) == lo
        && Vertex(b.geometry.mesh.positions, 5) == hi
  {
    var b := BoundingBox(position, opts);
    if position == [] {
      LoAttained(position, 0, 0);
    } else {
      FiniteBounds(position, 0);
      FiniteBounds(position, 1);
      FiniteBounds(position, 2);
      var lo, hi := Finite3(b.min).value, Finite3(b.max).value;
      assert Add(lo, Sub(hi, lo)) == hi;
      Cube.CubeSpan(lo, Sub(hi, lo));
    }
  }

  /** The bounds of three points (0, 0, 0), (1, 2, 3) and (-1, 5, 0). */
  lemma ThreePoints()
    ensures var b := BoundingBox([0.0, 0.0, 0.0, 1.0, 2.0, 3.0, -1.0, 5.0, 0.0], BoundsOptions(None));
      b.min == [Finite(-1.0), Finite(0.0), Finite(0.0)] && b.max == [Finite(1.0), Finite(5.0), Finite(3.0)]
      && b.geometry == NoGeometry
  {
  }
}
