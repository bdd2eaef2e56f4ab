/**
 * `DXFProcessor._entity_to_geometry`: the rules that turn one DXF entity into a
 * shapely geometry, or into `None` when the entity cannot be converted. Entities
 * are plain records of their DXF type, coordinates and closed flag; coordinates
 * are Python floats, so each may be NaN or infinite.
 */
module DxfEntities {
  import opened Wrappers
  import opened Numbers
  import opened Geometry

  /** `self.supported_entities`. */
  const SupportedEntities: seq<string> := ["LINE", "POLYLINE", "LWPOLYLINE", "CIRCLE", "ARC", "POINT"]

  /** A DXF vertex or point location, as read from the drawing. */
  datatype Vertex = Vertex(x: Float, y: Float)

  /** The geometric content of an entity, by DXF type. */
  datatype Shape =
    | PointShape(location: Vertex)
    | LineShape(start: Vertex, end: Vertex)
    | PolylineShape(vertices: seq<Vertex>, closed: bool)
    | LwPolylineShape(points: seq<Vertex>, closed: bool)
    | CircleShape(center: Vertex, radius: Float)
    | ArcShape(center: Vertex, radius: Float, startAngle: Float, endAngle: Float)
    | OtherShape(dxftype: string)

  /** A modelspace entity: its layer name (possibly ""), its `color` attribute if set, and its shape. */
  datatype Entity = Entity(layer: string, color: Option<int>, shape: Shape)

  /** `entity.dxftype()`. */
  function DxfType(s: Shape): string
  {
    match s
    case PointShape(_) => "POINT"
    case LineShape(_, _) => "LINE"
    case PolylineShape(_, _) => "POLYLINE"
    case LwPolylineShape(_, _) => "LWPOLYLINE"
    case CircleShape(_, _) => "CIRCLE"
    case ArcShape(_, _, _, _) => "ARC"
    case OtherShape(t) => t
  }

  predicate IsSupported(e: Entity)
  {
    DxfType(e.shape) in SupportedEntities
  }

  /** Both coordinates pass `math.isfinite`. */
  predicate IsFinitePoint(v: Vertex)
  {
    v.x.Finite? && v.y.Finite?
  }

  function AsPosition(v: Vertex): Position
    requires IsFinitePoint(v)
  {
    Position(v.x.value, v.y.value, None)
  }

  // ---------------------------------------------------------------------------
  // Polylines

  /** The finite vertices of a polyline, in input order, as 2D positions. */
  function KeepFinite(vs: seq<Vertex>): (ps: seq<Position>)
    ensures |ps| <= |vs|
    ensures forall p :: p in ps <==> exists v :: v in vs && IsFinitePoint(v) && p == AsPosition(v)
  {
    if vs == [] then []
    else
      var init := KeepFinite(vs[..|vs| - 1]);
      var v := vs[|vs| - 1];
      assert vs == vs[..|vs| - 1] + [v];
      if IsFinitePoint(v) then init + [AsPosition(v)] else init
  }

  /** The loop that appends each finite vertex to `points` and skips (logs) the others. */
  method CollectFinitePoints(vs: seq<Vertex>) returns (points: seq<Position>)
    ensures points == KeepFinite(vs)
  {
    points := [];
    var i := 0;
    while i < |vs|
      invariant 0 <= i <= |vs|
      invariant points == KeepFinite(vs[..i])
    {
      var v := vs[i];
      if IsFinitePoint(v) {
        points := points + [AsPosition(v)];
      }
      assert vs[..i + 1][..i] == vs[..i];
      i := i + 1;
    }
    assert vs[..i] == vs;
  }

  /** `list(dict.fromkeys(s))`: the first occurrence of each element, in order. */
  function Distinct<T(==)>(s: seq<T>): (r: seq<T>)
    ensures |r| <= |s|
    ensures forall i :: 0 <= i < |r| ==> r[i] in s
    ensures forall i :: 0 <= i < |s| ==> s[i] in r
    ensures forall i, j :: 0 <= i < j < |r| ==> r[i] != r[j]
  {
    if s == [] then []
    else
      var d := Distinct(s[..|s| - 1]);
      var x := s[|s| - 1];
      assert s == s[..|s| - 1] + [x];
      if x in d then d else d + [x]
  }

  /** Python's `s[:-1]` on a non-empty list. */
  function AllButLast<T>(s: seq<T>): seq<T>
    requires |s| > 0
  {
    s[..|s| - 1]
  }

  /** Appends the first point when the first and last points differ. */
  function CloseRing(points: seq<Position>): seq<Position>
    requires |points| > 0
  {
    if points[0] != points[|points| - 1] then points + [points[0]] else points
  }

  /**
   * The polygon attempt for a closed ring with at least 3 distinct points: the polygon
   * itself when shapely finds it valid, else its buffer(0) repair; a repair that raises
   * or comes out empty falls back to the ring as a LineString.
   */
  function RingPolygon(ring: seq<Position>, shp: Shapely): (r: Geometry)
    requires |ring| > 0
    ensures !IsEmpty(r)
    ensures shp.isValid(Polygon([ring])) ==> r == Polygon([ring])
    ensures !shp.isValid(Polygon([ring])) ==>
              if shp.buffer0(Polygon([ring])).Repaired? && !IsEmpty(shp.buffer0(Polygon([ring])).geometry)
              then r == shp.buffer0(Polygon([ring])).geometry
              else r == LineString(ring)
  {
    var poly := Polygon([ring]);
    var fixed := if shp.isValid(poly) then Repaired(poly) else shp.buffer0(poly);
    if fixed.Repaired? && !IsEmpty(fixed.geometry) then fixed.geometry else LineString(ring)
  }

  /** The geometry built from the kept points of a POLYLINE or LWPOLYLINE. */
  function PolylineGeometry(points: seq<Position>, closed: bool, shp: Shapely): (r: Option<Geometry>)
    ensures r.None? <==> |points| < 2
    ensures r.Some? ==> !IsEmpty(r.value)
    ensures |points| >= 2 && (!closed || |points| == 2) ==> r == Some(LineString(points))
    ensures closed && |points| > 2 && |set p | p in points| < 3 ==> r == Some(LineString(CloseRing(points)))
    ensures closed && |points| > 2 && |set p | p in points| >= 3 ==> r == Some(RingPolygon(CloseRing(points), shp))
  {
    if |points| < 2 then None
    else if closed && |points| > 2 then
      var ring := CloseRing(points);
      var unique := Distinct(AllButLast(ring));
      ClosedRingHasSamePoints(points);
      DistinctCountsElements(AllButLast(ring));
      if |unique| < 3 then Some(LineString(ring)) else Some(RingPolygon(ring, shp))
    else Some(LineString(points))
  }

  // ---------------------------------------------------------------------------
  // Entities

  /**
   * `_entity_to_geometry` on the entity's shape. Circle and arc tessellation (cos/sin
   * on floats) is the `curve` parameter; only their parameter checks are modelled.
   */
  function EntityGeometry(s: Shape, shp: Shapely, curve: Shape -> Geometry): Option<Geometry>
  {
    match s
    case PointShape(v) =>
      if IsFinitePoint(v) then Some(Point(AsPosition(v))) else None
    case LineShape(a, b) =>
      if IsFinitePoint(a) && IsFinitePoint(b) then Some(LineString([AsPosition(a), AsPosition(b)])) else None
    case PolylineShape(vs, closed) =>
      PolylineGeometry(KeepFinite(vs), closed, shp)
    case LwPolylineShape(vs, closed) =>
      PolylineGeometry(KeepFinite(vs), closed, shp)
    case CircleShape(c, radius) =>
      if !(IsFinitePoint(c) && radius.Finite?) then None
      else if radius.value <= 0.0 then None
      else Some(curve(s))
    case ArcShape(c, radius, a0, a1) =>
      if !(IsFinitePoint(c) && radius.Finite?) then None
      else if radius.value <= 0.0 then None
      else if !(a0.Finite? && a1.Finite?) then None
      else Some(curve(s))
    case OtherShape(_) => None
  }

  /** `_entity_to_geometry`, with the polyline branch's point-collecting loop. */
  method EntityToGeometry(s: Shape, shp: Shapely, curve: Shape -> Geometry) returns (r: Option<Geometry>)
    ensures r == EntityGeometry(s, shp, curve)
  {
    match s {
      case PolylineShape(vs, closed) =>
        var points := CollectFinitePoints(vs);
        r := PolylineGeometry(points, closed, shp);
      case LwPolylineShape(vs, closed) =>
        var points := CollectFinitePoints(vs);
        r := PolylineGeometry(points, closed, shp);
      case _ =>
        r := EntityGeometry(s, shp, curve);
    }
  }

  // ---------------------------------------------------------------------------
  // Lemmas

  /**
   * The conversion rules per entity type: a point or line needs finite coordinates, a
   * polyline is built from its finite vertices, a circle or arc needs a finite centre,
   * a finite positive radius and (for an arc) finite angles, and anything else gives
   * `None`; every geometry built here from points is non-empty.
   */
  lemma EntityConversionRules(s: Shape, shp: Shapely, curve: Shape -> Geometry)
    ensures s.PointShape? ==> (EntityGeometry(s, shp, curve).Some? <==> IsFinitePoint(s.location))
    ensures s.LineShape? ==>
              (EntityGeometry(s, shp, curve).Some? <==> IsFinitePoint(s.start) && IsFinitePoint(s.end))
    ensures s.PolylineShape? ==> EntityGeometry(s, shp, curve) == PolylineGeometry(KeepFinite(s.vertices), s.closed, shp)
    ensures s.LwPolylineShape? ==> EntityGeometry(s, shp, curve) == PolylineGeometry(KeepFinite(s.points), s.closed, shp)
    ensures s.CircleShape? ==>
              (EntityGeometry(s, shp, curve).Some? <==>
                 IsFinitePoint(s.center) && s.radius.Finite? && s.radius.value > 0.0)
    ensures s.ArcShape? ==>
              (EntityGeometry(s, shp, curve).Some? <==>
                 IsFinitePoint(s.center) && s.radius.Finite? && s.radius.value > 0.0 &&
                 s.startAngle.Finite? && s.endAngle.Finite?)
    ensures s.OtherShape? ==> EntityGeometry(s, shp, curve).None?
    ensures EntityGeometry(s, shp, curve).Some? && !s.CircleShape? && !s.ArcShape? ==>
              !IsEmpty(EntityGeometry(s, shp, curve).value)
  {
  }

  /** Filtering distributes over concatenation, so the kept vertices keep their input order. */
  lemma {:induction false} KeepFiniteAppend(a: seq<Vertex>, b: seq<Vertex>)
    ensures KeepFinite(a + b) == KeepFinite(a) + KeepFinite(b)
    decreases |b|
  {
    if b == [] {
      assert a + b == a;
    } else {
      var b0 := b[..|b| - 1];
      assert (a + b)[..|a + b| - 1] == a + b0;
      KeepFiniteAppend(a, b0);
    }
  }

  /** When every vertex is finite, every vertex is kept. */
  lemma {:induction false} KeepFiniteAllFinite(vs: seq<Vertex>)
    requires forall i :: 0 <= i < |vs| ==> IsFinitePoint(vs[i])
    ensures |KeepFinite(vs)| == |vs|
    ensures forall i :: 0 <= i < |vs| ==> KeepFinite(vs)[i] == AsPosition(vs[i])
  {
    if vs != [] {
      KeepFiniteAllFinite(vs[..|vs| - 1]);
    }
  }

  /** A non-finite vertex contributes nothing. */
  lemma KeepFiniteDropsNonFinite(a: seq<Vertex>, v: Vertex, b: seq<Vertex>)
    requires !IsFinitePoint(v)
    ensures KeepFinite(a + [v] + b) == KeepFinite(a) + KeepFinite(b)
  {
    KeepFiniteAppend(a + [v], b);
    assert (a + [v])[..|a + [v]| - 1] == a;
  }

  /** A sequence without repeats has as many distinct elements as entries. */
  lemma {:induction false} NoRepeatsCardinality<T>(r: seq<T>)
    requires forall i, j :: 0 <= i < j < |r| ==> r[i] != r[j]
    ensures |set x | x in r| == |r|
  {
    if r != [] {
      var init := r[..|r| - 1];
      NoRepeatsCardinality(init);
      var last := r[|r| - 1];
      assert (set x | x in r) == (set x | x in init) + {last};
      assert last !in init;
    }
  }

  /** `len(list(dict.fromkeys(s)))` is the number of distinct elements of `s`. */
  lemma DistinctCountsElements<T>(s: seq<T>)
    ensures |Distinct(s)| == |set x | x in s|
  {
    NoRepeatsCardinality(Distinct(s));
    assert (set x | x in Distinct(s)) == (set x | x in s);
  }

  /** `dict.fromkeys` on one more element: it is appended only if new. */
  lemma DistinctSnoc<T>(s: seq<T>, x: T)
    ensures Distinct(s + [x]) == if x in Distinct(s) then Distinct(s) else Distinct(s) + [x]
  {
    assert (s + [x])[..|s|] == s;
  }

  /** Closing a ring adds no new point, and `ring[:-1]` holds every point of the polyline. */
  lemma ClosedRingHasSamePoints(points: seq<Position>)
    requires |points| >= 2
    ensures |CloseRing(points)| > |points| - 1
    ensures CloseRing(points)[0] == CloseRing(points)[|CloseRing(points)| - 1]
    ensures CloseRing(points)[..|points|] == points
    ensures (set p | p in AllButLast(CloseRing(points))) == (set p | p in points)
  {
    var ring := CloseRing(points);
    if points[0] != points[|points| - 1] {
      assert AllButLast(ring) == points;
    } else {
      var n := |points|;
      assert points == AllButLast(ring) + [points[0]];
      assert points[0] in AllButLast(ring) by { assert AllButLast(ring)[0] == points[0]; }
    }
  }

  /** Closing is done once: a closed ring is left as it is. */
  lemma CloseRingIdempotent(points: seq<Position>)
    requires |points| >= 2
    ensures CloseRing(CloseRing(points)) == CloseRing(points)
  {
    ClosedRingHasSamePoints(points);
  }
}
