/**
 * `detect_coordinate_system_type`: samples a bounded number of coordinates from the
 * layer table, takes their x and y ranges, and labels the data geographic (every
 * sample inside the latitude/longitude box), projected (with a likely system chosen
 * from the coordinate magnitudes) or unknown (nothing sampled).
 */
module CoordinateDetection {
  import opened Wrappers
  import opened Geometry
  import opened LayerExtraction

  datatype CoordType = Geographic | Projected | Unknown

  /** The `likely_system` labels; each fixes the `suggestion` text that goes with it. */
  datatype LikelySystem =
    | Wgs84OrSimilar               // "WGS84 or similar geographic CRS"
    | StatePlaneFeet               // "US State Plane (US Survey Feet)"
    | WebMercatorOrUtm             // "Web Mercator (EPSG:3857) or UTM"
    | StatePlaneOrWebMercator      // "Projected system (likely State Plane feet or Web Mercator)"
    | UnknownProjected             // "Unknown projected system"
    | UnknownSystem                // "unknown"

  /** The result dict: `type`, `likely_system`, `sample_coords`, `x_range` and `y_range`. */
  datatype Detection = Detection(kind: CoordType, likely: LikelySystem, sampleCoords: seq<Position>,
                                 xRange: (real, real), yRange: (real, real))

  // ---------------------------------------------------------------------------
  // Sampling

  /** `list(coords)[:5]`. */
  function Prefix5(cs: seq<Position>): (r: seq<Position>)
    ensures |r| <= 5 && |r| <= |cs| && r == cs[..|r|]
    ensures |cs| >= 5 ==> |r| == 5
  {
    if |cs| <= 5 then cs else cs[..5]
  }

  /** The exterior ring of a polygon (no coordinates for an empty polygon). */
  function Exterior(rings: seq<seq<Position>>): seq<Position>
  {
    if rings == [] then [] else rings[0]
  }

  function Exteriors(ps: seq<seq<seq<Position>>>): seq<seq<Position>>
  {
    seq(|ps|, i requires 0 <= i < |ps| => Exterior(ps[i]))
  }

  /**
   * The loop over the parts of a MultiPolygon or MultiLineString: each part adds its
   * first 5 coordinates, and the loop stops once 50 or more samples are collected.
   */
  function SampleParts(acc: seq<Position>, parts: seq<seq<Position>>): seq<Position>
    decreases |parts|
  {
    if parts == [] then acc
    else
      var acc' := acc + Prefix5(parts[0]);
      if |acc'| >= 50 then acc' else SampleParts(acc', parts[1..])
  }

  /** The samples one geometry adds; other geometry types add none. */
  function SampleGeometry(acc: seq<Position>, g: Geometry): seq<Position>
  {
    match g
    case Polygon(rings) => acc + Prefix5(Exterior(rings))
    case LineString(cs) => acc + Prefix5(cs)
    case Point(p) => acc + [Position(p.x, p.y, None)]
    case MultiPolygon(ps) => SampleParts(acc, Exteriors(ps))
    case MultiLineString(ls) => SampleParts(acc, ls)
    case _ => acc
  }

  /** `features[:10]`. */
  function First10(fs: seq<LayerFeature>): seq<LayerFeature>
  {
    if |fs| <= 10 then fs else fs[..10]
  }

  /** The samples from a layer's features; `if geom:` skips empty geometries. */
  function SampleFeatures(acc: seq<Position>, fs: seq<LayerFeature>): seq<Position>
    decreases |fs|
  {
    if fs == [] then acc
    else
      var g := fs[0].geometry;
      SampleFeatures(if IsEmpty(g) then acc else SampleGeometry(acc, g), fs[1..])
  }

  /** A layer's feature list (none for a name without an entry). */
  function LayerList(features: map<string, seq<LayerFeature>>, name: string): seq<LayerFeature>
  {
    if name in features then features[name] else []
  }

  /** The samples from the layers, in table order, at most 10 features per layer. */
  function SampleLayers(acc: seq<Position>, names: seq<string>, features: map<string, seq<LayerFeature>>): seq<Position>
    decreases |names|
  {
    if names == [] then acc
    else SampleLayers(SampleFeatures(acc, First10(LayerList(features, names[0]))), names[1..], features)
  }

  // ---------------------------------------------------------------------------
  // Classification

  function Xs(s: seq<Position>): seq<real>
  {
    seq(|s|, i requires 0 <= i < |s| => s[i].x)
  }

  function Ys(s: seq<Position>): seq<real>
  {
    seq(|s|, i requires 0 <= i < |s| => s[i].y)
  }

  /** Python's `min` on a non-empty list. */
  function Min(s: seq<real>): (m: real)
    requires |s| > 0
    ensures m in s
    ensures forall i :: 0 <= i < |s| ==> m <= s[i]
  {
    if |s| == 1 then s[0]
    else
      var rest := Min(s[1..]);
      assert forall i :: 1 <= i < |s| ==> s[i] == s[1..][i - 1];
      if s[0] <= rest then s[0] else rest
  }

  /** Python's `max` on a non-empty list. */
  function Max(s: seq<real>): (m: real)
    requires |s| > 0
    ensures m in s
    ensures forall i :: 0 <= i < |s| ==> s[i] <= m
  {
    if |s| == 1 then s[0]
    else
      var rest := Max(s[1..]);
      assert forall i :: 1 <= i < |s| ==> s[i] == s[1..][i - 1];
      if s[0] >= rest then s[0] else rest
  }

  function Abs(v: real): real
  {
    if v < 0.0 then -v else v
  }

  /** `max(abs(lo), abs(hi))`. */
  function Magnitude(lo: real, hi: real): real
  {
    if Abs(lo) >= Abs(hi) then Abs(lo) else Abs(hi)
  }

  /** Every x in [-180, 180] and every y in [-90, 90]. */
  predicate InLatLongBox(xs: seq<real>, ys: seq<real>)
  {
    (forall i | 0 <= i < |xs| :: -180.0 <= xs[i] <= 180.0) && (forall i | 0 <= i < |ys| :: -90.0 <= ys[i] <= 90.0)
  }

  /** `y_magnitude / x_magnitude if x_magnitude > 0 else 0`. */
  function Ratio(xm: real, ym: real): real
  {
    if xm > 0.0 then ym / xm else 0.0
  }

  /** The magnitude bands and the y/x-ratio rule for projected data. */
  function ProjectedSystem(xm: real, ym: real): LikelySystem
  {
    if 200000.0 <= xm <= 20000000.0 && 200000.0 <= ym <= 20000000.0 then
      if Ratio(xm, ym) > 2.0 || (xm > 1000000.0 && ym > 1000000.0) then StatePlaneFeet else WebMercatorOrUtm
    else if 100000.0 <= xm <= 30000000.0 && 100000.0 <= ym <= 30000000.0 then StatePlaneOrWebMercator
    else UnknownProjected
  }

  /** The result computed from the collected samples. */
  function Classify(samples: seq<Position>): Detection
  {
    if samples == [] then Detection(Unknown, UnknownSystem, [], (0.0, 0.0), (0.0, 0.0))
    else
      var xs, ys := Xs(samples), Ys(samples);
      var xr, yr := (Min(xs), Max(xs)), (Min(ys), Max(ys));
      if InLatLongBox(xs, ys) then Detection(Geographic, Wgs84OrSimilar, Prefix5(samples), xr, yr)
      else Detection(Projected, ProjectedSystem(Magnitude(xr.0, xr.1), Magnitude(yr.0, yr.1)), Prefix5(samples), xr, yr)
  }

  // ---------------------------------------------------------------------------
  // The procedure

  /** The part loop with its early `break`. */
  method SampleMultiPart(samples: seq<Position>, parts: seq<seq<Position>>) returns (out: seq<Position>)
    ensures out == SampleParts(samples, parts)
  {
    out := samples;
    var k := 0;
    while k < |parts|
      invariant 0 <= k <= |parts|
      invariant SampleParts(out, parts[k..]) == SampleParts(samples, parts)
    {
      assert parts[k..][1..] == parts[k + 1..];
      out := out + Prefix5(parts[k]);
      if |out| >= 50 {
        break;
      }
      k := k + 1;
    }
  }

  /** `detect_coordinate_system_type(geometries_by_layer)`. */
  method DetectCoordinateSystemType(t: LayerTable) returns (r: Detection)
    ensures r == Classify(SampleLayers([], t.names, t.features))
  {
    var samples: seq<Position> := [];
    var li := 0;
    while li < |t.names|
      invariant 0 <= li <= |t.names|
      invariant SampleLayers(samples, t.names[li..], t.features) == SampleLayers([], t.names, t.features)
    {
      assert t.names[li..][1..] == t.names[li + 1..];
      var fs := First10(LayerList(t.features, t.names[li]));
      ghost var target := SampleFeatures(samples, fs);
      var fi := 0;
      while fi < |fs|
        invariant 0 <= fi <= |fs|
        invariant SampleFeatures(samples, fs[fi..]) == target
      {
        assert fs[fi..][1..] == fs[fi + 1..];
        var g := fs[fi].geometry;
        if !IsEmpty(g) {
          match g {
            case Polygon(rings) =>
              samples := samples + Prefix5(Exterior(rings));
            case LineString(cs) =>
              samples := samples + Prefix5(cs);
            case Point(p) =>
              samples := samples + [Position(p.x, p.y, None)];
            case MultiPolygon(ps) =>
              samples := SampleMultiPart(samples, Exteriors(ps));
            case MultiLineString(ls) =>
              samples := SampleMultiPart(samples, ls);
            case _ =>
          }
        }
        fi := fi + 1;
      }
      li := li + 1;
    }
    r := Classify(samples);
  }

  // ---------------------------------------------------------------------------
  // Lemmas

  /** Nothing sampled gives type "unknown" with both ranges (0, 0), and only then. */
  lemma UnknownExactlyWhenNothingSampled(samples: seq<Position>)
    ensures Classify(samples).kind == Unknown <==> samples == []
    ensures samples == [] ==> Classify(samples) == Detection(Unknown, UnknownSystem, [], (0.0, 0.0), (0.0, 0.0))
  {
  }

  /** At most 5 samples are reported, and they are the first ones collected. */
  lemma ReportsFirstFiveSamples(samples: seq<Position>)
    ensures |Classify(samples).sampleCoords| == if |samples| < 5 then |samples| else 5
    ensures Classify(samples).sampleCoords == samples[..|Classify(samples).sampleCoords|]
  {
  }

  /** The ranges are the true minimum and maximum of the sampled x and y values. */
  lemma {:induction false} RangesAreTight(samples: seq<Position>)
    requires samples != []
    ensures var d := Classify(samples);
            && d.xRange.0 <= d.xRange.1 && d.yRange.0 <= d.yRange.1
            && (forall i :: 0 <= i < |samples| ==> d.xRange.0 <= samples[i].x <= d.xRange.1)
            && (forall i :: 0 <= i < |samples| ==> d.yRange.0 <= samples[i].y <= d.yRange.1)
            && (exists i :: 0 <= i < |samples| && samples[i].x == d.xRange.0)
            && (exists i :: 0 <= i < |samples| && samples[i].x == d.xRange.1)
            && (exists i :: 0 <= i < |samples| && samples[i].y == d.yRange.0)
            && (exists i :: 0 <= i < |samples| && samples[i].y == d.yRange.1)
  {
    var xs, ys := Xs(samples), Ys(samples);
    var d := Classify(samples);
    assert d.xRange == (Min(xs), Max(xs)) && d.yRange == (Min(ys), Max(ys));
    assert forall i :: 0 <= i < |samples| ==> xs[i] == samples[i].x && ys[i] == samples[i].y;
    var ix :| 0 <= ix < |xs| && xs[ix] == Min(xs);
    var jx :| 0 <= jx < |xs| && xs[jx] == Max(xs);
    var iy :| 0 <= iy < |ys| && ys[iy] == Min(ys);
    var jy :| 0 <= jy < |ys| && ys[jy] == Max(ys);
    assert samples[ix].x == Min(xs) && samples[jx].x == Max(xs);
    assert samples[iy].y == Min(ys) && samples[jy].y == Max(ys);
  }

  /**
   * The data are labelled geographic exactly when the ranges lie inside the
   * latitude/longitude box: x in [-180, 180] and y in [-90, 90].
   */
  lemma {:induction false} GeographicExactlyWhenRangesInBox(samples: seq<Position>)
    requires samples != []
    ensures var d := Classify(samples);
            d.kind == Geographic <==>
              -180.0 <= d.xRange.0 && d.xRange.1 <= 180.0 && -90.0 <= d.yRange.0 && d.yRange.1 <= 90.0
    ensures Classify(samples).kind != Unknown
  {
    var xs, ys := Xs(samples), Ys(samples);
    var lo, hi := Min(xs), Max(xs);
    var ylo, yhi := Min(ys), Max(ys);
    if -180.0 <= lo && hi <= 180.0 && -90.0 <= ylo && yhi <= 90.0 {
      forall i | 0 <= i < |xs|
        ensures -180.0 <= xs[i] <= 180.0
      {
        assert lo <= xs[i] <= hi;
      }
      forall i | 0 <= i < |ys|
        ensures -90.0 <= ys[i] <= 90.0
      {
        assert ylo <= ys[i] <= yhi;
      }
    }
  }

  /** The magnitude is the largest absolute value among the values: an upper bound that is attained. */
  lemma {:induction false} MagnitudeIsLargestAbsoluteValue(vs: seq<real>)
    requires vs != []
    ensures forall i :: 0 <= i < |vs| ==> Abs(vs[i]) <= Magnitude(Min(vs), Max(vs))
    ensures exists i :: 0 <= i < |vs| && Abs(vs[i]) == Magnitude(Min(vs), Max(vs))
  {
    var lo, hi := Min(vs), Max(vs);
    var i :| 0 <= i < |vs| && vs[i] == lo;
    var j :| 0 <= j < |vs| && vs[j] == hi;
    if Abs(lo) >= Abs(hi) {
      assert Abs(vs[i]) == Magnitude(lo, hi);
    } else {
      assert Abs(vs[j]) == Magnitude(lo, hi);
    }
  }

  /**
   * The label follows the type: geographic data are "WGS84 or similar", projected data get
   * one of the four projected labels, and unknown data "unknown".
   */
  lemma LabelFollowsType(samples: seq<Position>)
    ensures var d := Classify(samples);
            && (d.kind == Geographic <==> d.likely == Wgs84OrSimilar)
            && (d.kind == Unknown <==> d.likely == UnknownSystem)
            && (d.kind == Projected <==>
                  d.likely in {StatePlaneFeet, WebMercatorOrUtm, StatePlaneOrWebMercator, UnknownProjected})
  {
  }

  /**
   * In the first band both magnitudes are at least 200000, so the ratio is always
   * y/x there: the `else 0` fallback never decides a label.
   */
  lemma RatioFallbackUnused(xm: real, ym: real)
    requires 200000.0 <= xm <= 20000000.0 && 200000.0 <= ym <= 20000000.0
    ensures ProjectedSystem(xm, ym) == StatePlaneFeet <==> ym > 2.0 * xm || (xm > 1000000.0 && ym > 1000000.0)
  {
    assert Ratio(xm, ym) == ym / xm;
    var q := ym / xm;
    assert q * xm == ym;
    assert (q - 2.0) * xm == ym - 2.0 * xm;
    PositiveFactorKeepsSign(q - 2.0, xm);
  }

  /** A positive factor keeps the sign: the step from y/x > 2 to y > 2x. */
  lemma PositiveFactorKeepsSign(a: real, c: real)
    requires c > 0.0
    ensures a > 0.0 <==> a * c > 0.0
  {
  }

  /** The part loop only appends, at most 5 samples per part, and overshoots 50 by at most 5. */
  lemma {:induction false} SamplePartsBounded(acc: seq<Position>, parts: seq<seq<Position>>)
    ensures |SampleParts(acc, parts)| >= |acc| && SampleParts(acc, parts)[..|acc|] == acc
    ensures |SampleParts(acc, parts)| <= |acc| + 5 * |parts|
    ensures parts != [] && |acc| < 50 ==> |SampleParts(acc, parts)| < 55
    decreases |parts|
  {
    if parts != [] {
      var acc' := acc + Prefix5(parts[0]);
      if |acc'| < 50 {
        SamplePartsBounded(acc', parts[1..]);
        assert acc'[..|acc|] == acc;
      }
    }
  }
}
