/**
 * Geometry values as shapely and GeoJSON know them, and the uniform coordinate
 * scaling that `DXFProcessor._scale_geometry_coordinates` applies through
 * `shapely.ops.transform`: every coordinate (x, y[, z]) becomes (x*f, y*f).
 * The scaling is about (0, 0); no centroid or other origin is involved.
 */
module Geometry {
  import opened Wrappers

  /** A coordinate; `z` is the optional elevation of a 3D coordinate. */
  datatype Position = Position(x: real, y: real, z: Option<real>)

  datatype Geometry =
    | Point(position: Position)
    | LineString(coords: seq<Position>)
    | Polygon(rings: seq<seq<Position>>)
    | MultiPoint(points: seq<Position>)
    | MultiLineString(lines: seq<seq<Position>>)
    | MultiPolygon(polygons: seq<seq<seq<Position>>>)
    | GeometryCollection(geometries: seq<Geometry>)

  /** A polygon is empty when it has no exterior ring or its exterior ring has no coordinates. */
  predicate IsEmptyPolygon(rings: seq<seq<Position>>)
  {
    |rings| == 0 || |rings[0]| == 0
  }

  /** shapely's `is_empty`: a collection is empty when every one of its parts is. */
  predicate IsEmpty(g: Geometry)
  {
    match g
    case Point(_) => false
    case LineString(cs) => |cs| == 0
    case Polygon(rings) => IsEmptyPolygon(rings)
    case MultiPoint(ps) => |ps| == 0
    case MultiLineString(ls) => forall i :: 0 <= i < |ls| ==> |ls[i]| == 0
    case MultiPolygon(ps) => forall i :: 0 <= i < |ps| ==> IsEmptyPolygon(ps[i])
    case GeometryCollection(gs) => forall i :: 0 <= i < |gs| ==> IsEmpty(gs[i])
  }

  /** The outcome of shapely's `geom.buffer(0)` repair: a repaired geometry, or an exception. */
  datatype Repair = Repaired(geometry: Geometry) | RepairRaised

  /**
   * The shapely computations the model does not reproduce (GEOS validity and the
   * buffer(0) repair), supplied by the caller as functions.
   */
  datatype Shapely = Shapely(isValid: Geometry -> bool, buffer0: Geometry -> Repair)

  // ---------------------------------------------------------------------------
  // Scaling

  /** The source's `scale_coords(x, y, z=None)`: returns `(x*f, y*f)`, so any z is dropped. */
  function ScalePosition(p: Position, f: real): Position
  {
    Position(p.x * f, p.y * f, None)
  }

  function ScaleLine(cs: seq<Position>, f: real): seq<Position>
  {
    seq(|cs|, i requires 0 <= i < |cs| => ScalePosition(cs[i], f))
  }

  function ScaleRings(rs: seq<seq<Position>>, f: real): seq<seq<Position>>
  {
    seq(|rs|, i requires 0 <= i < |rs| => ScaleLine(rs[i], f))
  }

  function ScalePolygons(ps: seq<seq<seq<Position>>>, f: real): seq<seq<seq<Position>>>
  {
    seq(|ps|, i requires 0 <= i < |ps| => ScaleRings(ps[i], f))
  }

  /** `shapely.ops.transform(scale_coords, g)`: rebuilds `g` with every coordinate scaled. */
  function ScaleGeometry(g: Geometry, f: real): Geometry
  {
    match g
    case Point(p) => Point(ScalePosition(p, f))
    case LineString(cs) => LineString(ScaleLine(cs, f))
    case Polygon(rs) => Polygon(ScaleRings(rs, f))
    case MultiPoint(ps) => MultiPoint(ScaleLine(ps, f))
    case MultiLineString(ls) => MultiLineString(ScaleRings(ls, f))
    case MultiPolygon(ps) => MultiPolygon(ScalePolygons(ps, f))
    case GeometryCollection(gs) =>
      GeometryCollection(seq(|gs|, i requires 0 <= i < |gs| => ScaleGeometry(gs[i], f)))
  }

  // ---------------------------------------------------------------------------
  // Reference views of a geometry: its coordinates in order, and its layout

  function Concat(ss: seq<seq<Position>>): seq<Position>
  {
    if ss == [] then [] else ss[0] + Concat(ss[1..])
  }

  /** Every coordinate of `g`, in the order GeoJSON lists them. */
  function Positions(g: Geometry): seq<Position>
  {
    match g
    case Point(p) => [p]
    case LineString(cs) => cs
    case Polygon(rs) => Concat(rs)
    case MultiPoint(ps) => ps
    case MultiLineString(ls) => Concat(ls)
    case MultiPolygon(ps) => Concat(seq(|ps|, i requires 0 <= i < |ps| => Concat(ps[i])))
    case GeometryCollection(gs) => Concat(seq(|gs|, i requires 0 <= i < |gs| => Positions(gs[i])))
  }

  predicate SameRingLayout(a: seq<seq<Position>>, b: seq<seq<Position>>)
  {
    |a| == |b| && forall i :: 0 <= i < |a| ==> |a[i]| == |b[i]|
  }

  predicate SamePolygonLayout(a: seq<seq<seq<Position>>>, b: seq<seq<seq<Position>>>)
  {
    |a| == |b| && forall i :: 0 <= i < |a| ==> SameRingLayout(a[i], b[i])
  }

  /** `g` and `h` have the same geometry type at every level and the same length at every nesting level. */
  predicate SameLayout(g: Geometry, h: Geometry)
  {
    match g
    case Point(_) => h.Point?
    case LineString(a) => h.LineString? && |a| == |h.coords|
    case Polygon(a) => h.Polygon? && SameRingLayout(a, h.rings)
    case MultiPoint(a) => h.MultiPoint? && |a| == |h.points|
    case MultiLineString(a) => h.MultiLineString? && SameRingLayout(a, h.lines)
    case MultiPolygon(a) => h.MultiPolygon? && SamePolygonLayout(a, h.polygons)
    case GeometryCollection(a) =>
      h.GeometryCollection? && |a| == |h.geometries| &&
      forall i :: 0 <= i < |a| ==> SameLayout(a[i], h.geometries[i])
  }

  /** Every coordinate of `g` is 2D. */
  predicate IsPlanar(g: Geometry)
  {
    forall p :: p in Positions(g) ==> p.z.None?
  }

  // ---------------------------------------------------------------------------
  // Properties of scaling

  lemma {:induction false} ScaleLineConcat(ss: seq<seq<Position>>, f: real)
    ensures ScaleLine(Concat(ss), f) == Concat(seq(|ss|, i requires 0 <= i < |ss| => ScaleLine(ss[i], f)))
  {
    var mapped := seq(|ss|, i requires 0 <= i < |ss| => ScaleLine(ss[i], f));
    if ss != [] {
      ScaleLineConcat(ss[1..], f);
      var tail := seq(|ss[1..]|, i requires 0 <= i < |ss[1..]| => ScaleLine(ss[1..][i], f));
      assert mapped[1..] == tail;
      assert ScaleLine(ss[0] + Concat(ss[1..]), f) == ScaleLine(ss[0], f) + ScaleLine(Concat(ss[1..]), f);
    }
  }

  /** Scaling maps the coordinate list of `g` pointwise: the k-th coordinate (x, y[, z]) becomes (x*f, y*f). */
  lemma {:induction false} PositionsOfScaled(g: Geometry, f: real)
    ensures Positions(ScaleGeometry(g, f)) == ScaleLine(Positions(g), f)
  {
    match g
    case Point(p) =>
    case LineString(cs) =>
    case MultiPoint(ps) =>
    case Polygon(rs) =>
      ScaleLineConcat(rs, f);
      assert ScaleRings(rs, f) == seq(|rs|, i requires 0 <= i < |rs| => ScaleLine(rs[i], f));
    case MultiLineString(ls) =>
      ScaleLineConcat(ls, f);
      assert ScaleRings(ls, f) == seq(|ls|, i requires 0 <= i < |ls| => ScaleLine(ls[i], f));
    case MultiPolygon(ps) =>
      var inner := seq(|ps|, i requires 0 <= i < |ps| => Concat(ps[i]));
      var sps := ScalePolygons(ps, f);
      forall i | 0 <= i < |ps|
        ensures Concat(sps[i]) == ScaleLine(inner[i], f)
      {
        ScaleLineConcat(ps[i], f);
        assert sps[i] == seq(|ps[i]|, k requires 0 <= k < |ps[i]| => ScaleLine(ps[i][k], f));
      }
      ScaleLineConcat(inner, f);
      assert seq(|sps|, i requires 0 <= i < |sps| => Concat(sps[i]))
          == seq(|inner|, i requires 0 <= i < |inner| => ScaleLine(inner[i], f));
    case GeometryCollection(gs) =>
      var inner := seq(|gs|, i requires 0 <= i < |gs| => Positions(gs[i]));
      var sgs := seq(|gs|, i requires 0 <= i < |gs| => ScaleGeometry(gs[i], f));
      forall i | 0 <= i < |gs|
        ensures Positions(sgs[i]) == ScaleLine(inner[i], f)
      {
        PositionsOfScaled(gs[i], f);
      }
      ScaleLineConcat(inner, f);
      assert seq(|sgs|, i requires 0 <= i < |sgs| => Positions(sgs[i]))
          == seq(|inner|, i requires 0 <= i < |inner| => ScaleLine(inner[i], f));
  }

  /** Scaling keeps the geometry type, part order and every nesting length. */
  lemma {:induction false} ScalePreservesLayout(g: Geometry, f: real)
    ensures SameLayout(g, ScaleGeometry(g, f))
  {
    match g
    case GeometryCollection(gs) =>
      forall i | 0 <= i < |gs|
        ensures SameLayout(gs[i], ScaleGeometry(gs[i], f))
      {
        ScalePreservesLayout(gs[i], f);
      }
    case _ =>
  }

  /** A geometry scales to an empty one exactly when it was empty already. */
  lemma {:induction false} ScalePreservesEmptiness(g: Geometry, f: real)
    ensures IsEmpty(ScaleGeometry(g, f)) <==> IsEmpty(g)
  {
    match g
    case MultiLineString(ls) =>
      var sls := ScaleRings(ls, f);
      assert forall i :: 0 <= i < |ls| ==> |sls[i]| == |ls[i]|;
    case MultiPolygon(ps) =>
      var sps := ScalePolygons(ps, f);
      assert forall i :: 0 <= i < |ps| ==> (IsEmptyPolygon(sps[i]) <==> IsEmptyPolygon(ps[i]));
    case GeometryCollection(gs) =>
      var sgs := ScaleGeometry(g, f).geometries;
      forall i | 0 <= i < |gs|
        ensures IsEmpty(sgs[i]) <==> IsEmpty(gs[i])
      {
        ScalePreservesEmptiness(gs[i], f);
      }
    case _ =>
  }

  lemma ScalePositionCompose(p: Position, a: real, b: real)
    ensures ScalePosition(ScalePosition(p, a), b) == ScalePosition(p, a * b)
  {
    assert p.x * a * b == p.x * (a * b);
    assert p.y * a * b == p.y * (a * b);
  }

  lemma ScaleLineCompose(cs: seq<Position>, a: real, b: real)
    ensures ScaleLine(ScaleLine(cs, a), b) == ScaleLine(cs, a * b)
  {
    forall i | 0 <= i < |cs|
      ensures ScaleLine(ScaleLine(cs, a), b)[i] == ScaleLine(cs, a * b)[i]
    {
      ScalePositionCompose(cs[i], a, b);
    }
  }

  lemma ScaleRingsCompose(rs: seq<seq<Position>>, a: real, b: real)
    ensures ScaleRings(ScaleRings(rs, a), b) == ScaleRings(rs, a * b)
  {
    forall i | 0 <= i < |rs|
      ensures ScaleRings(ScaleRings(rs, a), b)[i] == ScaleRings(rs, a * b)[i]
    {
      ScaleLineCompose(rs[i], a, b);
    }
  }

  /** Scaling by `a` and then by `b` is scaling by `a*b`. */
  lemma {:induction false} ScaleCompose(g: Geometry, a: real, b: real)
    ensures ScaleGeometry(ScaleGeometry(g, a), b) == ScaleGeometry(g, a * b)
  {
    match g
    case Point(p) =>
      ScalePositionCompose(p, a, b);
    case LineString(cs) =>
      ScaleLineCompose(cs, a, b);
    case MultiPoint(ps) =>
      ScaleLineCompose(ps, a, b);
    case Polygon(rs) =>
      ScaleRingsCompose(rs, a, b);
    case MultiLineString(ls) =>
      ScaleRingsCompose(ls, a, b);
    case MultiPolygon(ps) =>
      forall i | 0 <= i < |ps|
        ensures ScalePolygons(ScalePolygons(ps, a), b)[i] == ScalePolygons(ps, a * b)[i]
      {
        ScaleRingsCompose(ps[i], a, b);
      }
      assert ScalePolygons(ScalePolygons(ps, a), b) == ScalePolygons(ps, a * b);
    case GeometryCollection(gs) =>
      var lhs := ScaleGeometry(ScaleGeometry(g, a), b).geometries;
      var rhs := ScaleGeometry(g, a * b).geometries;
      forall i | 0 <= i < |gs|
        ensures lhs[i] == rhs[i]
      {
        ScaleCompose(gs[i], a, b);
      }
      assert lhs == rhs;
  }

  /** Scaling by `f` and then by `1/f` gives back the 2D part of the original. */
  lemma ScaleRoundTrip(g: Geometry, f: real)
    requires f != 0.0
    ensures ScaleGeometry(ScaleGeometry(g, f), 1.0 / f) == ScaleGeometry(g, 1.0)
  {
    var inv := 1.0 / f;
    var one := f * inv;
    ScaleCompose(g, f, inv);
    assert ScaleGeometry(ScaleGeometry(g, f), inv) == ScaleGeometry(g, one);
    assert one == 1.0;
  }

  /**
   * There is no factor-1.0 shortcut: scaling by 1.0 is the identity exactly on 2D
   * geometries, and a 3D geometry loses its z values.
   */
  lemma {:induction false} UnitScaleKeepsPlanar(g: Geometry)
    ensures IsPlanar(g) <==> ScaleGeometry(g, 1.0) == g
  {
    PositionsOfScaled(g, 1.0);
    if IsPlanar(g) {
      UnitScaleIsIdentity(g);
    } else {
      var p :| p in Positions(g) && p.z.Some?;
      var k :| 0 <= k < |Positions(g)| && Positions(g)[k] == p;
      assert Positions(ScaleGeometry(g, 1.0))[k].z.None?;
    }
  }

  lemma {:induction false} UnitScaleIsIdentity(g: Geometry)
    requires IsPlanar(g)
    ensures ScaleGeometry(g, 1.0) == g
  {
    match g
    case Point(p) =>
      assert p in Positions(g);
    case LineString(cs) =>
      assert forall i :: 0 <= i < |cs| ==> cs[i] in Positions(g);
      assert ScaleLine(cs, 1.0) == cs;
    case MultiPoint(ps) =>
      assert forall i :: 0 <= i < |ps| ==> ps[i] in Positions(g);
      assert ScaleLine(ps, 1.0) == ps;
    case Polygon(rs) =>
      forall i | 0 <= i < |rs| ensures ScaleLine(rs[i], 1.0) == rs[i] {
        forall k | 0 <= k < |rs[i]| ensures rs[i][k].z.None? {
          InConcat(rs, i, k);
        }
      }
      assert ScaleRings(rs, 1.0) == rs;
    case MultiLineString(ls) =>
      forall i | 0 <= i < |ls| ensures ScaleLine(ls[i], 1.0) == ls[i] {
        forall k | 0 <= k < |ls[i]| ensures ls[i][k].z.None? {
          InConcat(ls, i, k);
        }
      }
      assert ScaleRings(ls, 1.0) == ls;
    case MultiPolygon(ps) =>
      var inner := seq(|ps|, i requires 0 <= i < |ps| => Concat(ps[i]));
      forall i | 0 <= i < |ps| ensures ScaleRings(ps[i], 1.0) == ps[i] {
        forall j | 0 <= j < |ps[i]| ensures ScaleLine(ps[i][j], 1.0) == ps[i][j] {
          forall k | 0 <= k < |ps[i][j]| ensures ps[i][j][k].z.None? {
            InConcat(ps[i], j, k);
            var m :| 0 <= m < |inner[i]| && inner[i][m] == ps[i][j][k];
            InConcat(inner, i, m);
          }
        }
      }
      assert ScalePolygons(ps, 1.0) == ps;
    case GeometryCollection(gs) =>
      var inner := seq(|gs|, i requires 0 <= i < |gs| => Positions(gs[i]));
      forall i | 0 <= i < |gs| ensures ScaleGeometry(gs[i], 1.0) == gs[i] {
        forall p | p in Positions(gs[i]) ensures p.z.None? {
          var m :| 0 <= m < |inner[i]| && inner[i][m] == p;
          InConcat(inner, i, m);
        }
        UnitScaleIsIdentity(gs[i]);
      }
      assert ScaleGeometry(g, 1.0).geometries == gs;
  }

  /** Every coordinate of a part occurs in the concatenation of the parts. */
  lemma {:induction false} InConcat(ss: seq<seq<Position>>, i: nat, k: nat)
    requires i < |ss| && k < |ss[i]|
    ensures ss[i][k] in Concat(ss)
  {
    if i > 0 {
      InConcat(ss[1..], i - 1, k);
    }
  }
}
