/**
 * `DXFProcessor.apply_scale_to_geojson`: validates a GeoJSON FeatureCollection, a
 * scale factor and an output format in a fixed order, drops the features whose
 * geometry is null, scales every remaining geometry about (0, 0), keeps the
 * original geometry wherever scaling is skipped or fails, and copies the `crs`
 * member verbatim.
 */
module ScaleGeoJson {
  import opened Wrappers
  import opened Numbers
  import opened Geometry
  import opened CrsNaming

  /** A JSON value in a feature's `properties` object. */
  datatype PropValue = PNull | PBool(b: bool) | PNumber(n: real) | PString(s: string)

  type Properties = map<string, PropValue>

  /** One element of the input `features` array; a null geometry is `None`. */
  datatype Feature = Feature(geometry: Option<Geometry>, properties: Properties)

  /** The `features` member of the input: absent, present but not a list, or a list. */
  datatype FeaturesMember = Missing | NotAList | FeatureList(items: seq<Feature>)

  /**
   * The `geojson_data` argument: either a non-dict value (with its Python truthiness)
   * or a dict, described by its `type`, `features` and `crs` members and whether it
   * has any other key.
   */
  datatype GeoJsonData =
    | NonDict(truthy: bool)
    | Dict(typeTag: Option<string>, features: FeaturesMember, crs: Option<CrsMember>, otherKeys: bool)

  /** `not geojson_data`: a falsy non-dict value, or a dict with no keys at all. */
  predicate IsFalsy(data: GeoJsonData)
  {
    match data
    case NonDict(truthy) => !truthy
    case Dict(typeTag, features, crs, otherKeys) => typeTag.None? && features.Missing? && crs.None? && !otherKeys
  }

  /** The `ValueError`s that `apply_scale_to_geojson` raises. */
  datatype ScaleError =
    | DataRequired            // "GeoJSON data is required"
    | NotADictionary          // "GeoJSON data must be a dictionary"
    | NotAFeatureCollection   // "GeoJSON must be a FeatureCollection"
    | MissingFeatures         // "GeoJSON must contain features array"
    | FeaturesNotAnArray      // "Features must be an array"
    | NoFeatures              // "GeoJSON contains no features to scale"
    | FactorNotANumber        // "Scale factor must be a number"
    | FactorNotFinite         // "Scale factor must be finite"
    | FactorNotPositive       // "Scale factor must be greater than 0"
    | FactorOutOfRange        // "Scale factor ... is outside valid range (0.9-1.1)"
    | InvalidOutputFormat     // "Invalid output format: ..."
    | AllGeometriesNull       // "All geometries are null or invalid"

  /** The position of each input check in the order the source performs them; the null-geometry check comes last. */
  function CheckIndex(e: ScaleError): nat
  {
    match e
    case DataRequired => 0
    case NotADictionary => 1
    case NotAFeatureCollection => 2
    case MissingFeatures => 3
    case FeaturesNotAnArray => 4
    case NoFeatures => 5
    case FactorNotANumber => 6
    case FactorNotFinite => 7
    case FactorNotPositive => 8
    case FactorOutOfRange => 9
    case InvalidOutputFormat => 10
    case AllGeometriesNull => 11
  }

  /** The input is a non-empty FeatureCollection, the factor a finite number in [0.9, 1.1], the format "geojson". */
  predicate AcceptableInput(data: GeoJsonData, factor: FactorArg, format: string)
  {
    && data.Dict? && data.typeTag == Some("FeatureCollection")
    && data.features.FeatureList? && |data.features.items| > 0
    && factor.Number? && factor.number.Finite? && 0.9 <= factor.number.value <= 1.1
    && format == "geojson"
  }

  /** The guard chain: the first check that fails, or `None` when all pass. */
  function Validate(data: GeoJsonData, factor: FactorArg, format: string): (r: Option<ScaleError>)
    ensures r.None? <==> AcceptableInput(data, factor, format)
    ensures r.Some? ==> r.value != AllGeometriesNull
  {
    if IsFalsy(data) then Some(DataRequired)
    else if !data.Dict? then Some(NotADictionary)
    else if data.typeTag != Some("FeatureCollection") then Some(NotAFeatureCollection)
    else if data.features.Missing? then Some(MissingFeatures)
    else if !data.features.FeatureList? then Some(FeaturesNotAnArray)
    else if |data.features.items| == 0 then Some(NoFeatures)
    else if !factor.Number? then Some(FactorNotANumber)
    else if !factor.number.Finite? then Some(FactorNotFinite)
    else if factor.number.value <= 0.0 then Some(FactorNotPositive)
    else if !(0.9 <= factor.number.value <= 1.1) then Some(FactorOutOfRange)
    else if format != "geojson" then Some(InvalidOutputFormat)
    else None
  }

  /**
   * Each check on its own, as a condition on the raw input that would make it fail
   * if it were reached (Python comparisons on floats for the factor).
   */
  predicate Trips(e: ScaleError, data: GeoJsonData, factor: FactorArg, format: string)
  {
    match e
    case DataRequired => IsFalsy(data)
    case NotADictionary => !data.Dict?
    case NotAFeatureCollection => !(data.Dict? && data.typeTag == Some("FeatureCollection"))
    case MissingFeatures => !(data.Dict? && !data.features.Missing?)
    case FeaturesNotAnArray => !(data.Dict? && data.features.FeatureList?)
    case NoFeatures => !(data.Dict? && data.features.FeatureList? && |data.features.items| > 0)
    case FactorNotANumber => !factor.Number?
    case FactorNotFinite => !(factor.Number? && factor.number.Finite?)
    case FactorNotPositive => factor.Number? && AtMostZero(factor.number)
    case FactorOutOfRange => !(factor.Number? && Within(factor.number, 0.9, 1.1))
    case InvalidOutputFormat => format != "geojson"
    case AllGeometriesNull => false
  }

  // ---------------------------------------------------------------------------
  // Scaling the features

  /** A row of the geopandas frame built from the features: its index, geometry and properties. */
  datatype Row = Row(index: nat, geometry: Geometry, properties: Properties)

  /** The frame after `gdf[valid_geoms]`: the features with a geometry, in order, keeping their index. */
  function NonNullRows(fs: seq<Feature>): (rows: seq<Row>)
    ensures |rows| <= |fs|
    ensures forall k :: 0 <= k < |rows| ==>
              rows[k].index < |fs| && fs[rows[k].index] == Feature(Some(rows[k].geometry), rows[k].properties)
    ensures forall k, l :: 0 <= k < l < |rows| ==> rows[k].index < rows[l].index
  {
    if fs == [] then []
    else
      var init := NonNullRows(fs[..|fs| - 1]);
      var last := fs[|fs| - 1];
      if last.geometry.Some? then init + [Row(|fs| - 1, last.geometry.value, last.properties)] else init
  }

  /** Every feature with a geometry has a row. */
  lemma {:induction false} NonNullRowsCover(fs: seq<Feature>, i: nat)
    requires i < |fs| && fs[i].geometry.Some?
    ensures exists k :: 0 <= k < |NonNullRows(fs)| && NonNullRows(fs)[k].index == i
  {
    var init := NonNullRows(fs[..|fs| - 1]);
    var rows := NonNullRows(fs);
    assert forall k :: 0 <= k < |init| ==> rows[k] == init[k];
    if i == |fs| - 1 {
      assert rows[|init|].index == i;
    } else {
      assert fs[..|fs| - 1][i] == fs[i];
      NonNullRowsCover(fs[..|fs| - 1], i);
      var k :| 0 <= k < |init| && init[k].index == i;
      assert rows[k].index == i;
    }
  }

  /** What the loop body does with one geometry: the geometry it appends and whether it counts a failure. */
  datatype Step = Step(geometry: Geometry, failed: bool)

  /**
   * One iteration of the scaling loop: an empty geometry is kept; an invalid one is
   * first repaired with buffer(0) (kept as it was if that raises); the result is then
   * scaled, and kept unscaled if the scaled geometry is empty.
   */
  function ScaleStep(g: Geometry, f: real, shp: Shapely): (s: Step)
    ensures IsEmpty(g) ==> s == Step(g, false)
    ensures !IsEmpty(g) && shp.isValid(g) ==> s == Step(ScaleGeometry(g, f), false)
    ensures !IsEmpty(g) && !shp.isValid(g) && shp.buffer0(g).RepairRaised? ==> s == Step(g, true)
    ensures !IsEmpty(g) && !shp.isValid(g) && shp.buffer0(g).Repaired? && IsEmpty(shp.buffer0(g).geometry) ==>
              s == Step(shp.buffer0(g).geometry, true)
    ensures !IsEmpty(g) && !shp.isValid(g) && shp.buffer0(g).Repaired? && !IsEmpty(shp.buffer0(g).geometry) ==>
              s == Step(ScaleGeometry(shp.buffer0(g).geometry, f), false)
    ensures s.failed <==>
              !IsEmpty(g) && !shp.isValid(g) &&
              (shp.buffer0(g).RepairRaised? || IsEmpty(shp.buffer0(g).geometry))
  {
    if IsEmpty(g) then Step(g, false)
    else
      var fixed := if shp.isValid(g) then Repaired(g) else shp.buffer0(g);
      match fixed
      case RepairRaised => Step(g, true)
      case Repaired(h) =>
        var scaled := ScaleGeometry(h, f);
        ScalePreservesEmptiness(h, f);
        if IsEmpty(scaled) then Step(h, true) else Step(scaled, false)
  }

  /** The number of geometries the loop reports as not scaled. */
  function CountFailures(rows: seq<Row>, f: real, shp: Shapely): nat
  {
    if rows == [] then 0
    else CountFailures(rows[..|rows| - 1], f, shp) + (if ScaleStep(rows[|rows| - 1].geometry, f, shp).failed then 1 else 0)
  }

  /** A feature of the output; `id` is the frame index that `to_json` writes for it. */
  datatype ScaledFeature = ScaledFeature(id: nat, geometry: Geometry, properties: Properties)

  /** The returned FeatureCollection: its features and its `crs` member, if any. */
  datatype ScaledCollection = ScaledCollection(features: seq<ScaledFeature>, crs: Option<CrsMember>)

  function ScaleRow(row: Row, f: real, shp: Shapely): ScaledFeature
  {
    ScaledFeature(row.index, ScaleStep(row.geometry, f, shp).geometry, row.properties)
  }

  /**
   * `apply_scale_to_geojson(geojson_data, scale_factor, output_format)`. The second
   * result is the number of geometries kept unscaled, which the source logs.
   */
  method ApplyScaleToGeoJson(data: GeoJsonData, factor: FactorArg, format: string, shp: Shapely)
    returns (r: Result<ScaledCollection, ScaleError>, failedCount: nat)
    ensures Validate(data, factor, format).Some? ==> r == Err(Validate(data, factor, format).value)
    ensures Validate(data, factor, format).None? && NonNullRows(data.features.items) == [] ==>
              r == Err(AllGeometriesNull)
    ensures Validate(data, factor, format).None? && NonNullRows(data.features.items) != [] ==>
              var rows := NonNullRows(data.features.items);
              var f := factor.number.value;
              && r.Ok?
              && r.value.crs == data.crs
              && |r.value.features| == |rows|
              && (forall k :: 0 <= k < |rows| ==> r.value.features[k] == ScaleRow(rows[k], f, shp))
              && failedCount == CountFailures(rows, f, shp)
  {
    var guard := Validate(data, factor, format);
    if guard.Some? {
      return Err(guard.value), 0;
    }
    var f := factor.number.value;
    var rows := NonNullRows(data.features.items);
    if |rows| == 0 {
      return Err(AllGeometriesNull), 0;
    }
    var scaled: seq<ScaledFeature> := [];
    failedCount := 0;
    var i := 0;
    while i < |rows|
      invariant 0 <= i <= |rows|
      invariant |scaled| == i
      invariant forall k :: 0 <= k < i ==> scaled[k] == ScaleRow(rows[k], f, shp)
      invariant failedCount == CountFailures(rows[..i], f, shp)
    {
      var step := ScaleStep(rows[i].geometry, f, shp);
      scaled := scaled + [ScaledFeature(rows[i].index, step.geometry, rows[i].properties)];
      if step.failed {
        failedCount := failedCount + 1;
      }
      assert rows[..i + 1][..i] == rows[..i];
      i := i + 1;
    }
    assert rows[..i] == rows;
    r := Ok(ScaledCollection(scaled, data.crs));
  }

  // ---------------------------------------------------------------------------
  // Lemmas

  /**
   * The checks run in a fixed order: the call is rejected with the check that trips
   * first in that order, and accepted exactly when none trips.
   */
  lemma GuardChainOrder(data: GeoJsonData, factor: FactorArg, format: string)
    ensures Validate(data, factor, format).None? <==> forall e :: !Trips(e, data, factor, format)
    ensures forall e ::
              Validate(data, factor, format) == Some(e) <==>
                Trips(e, data, factor, format) &&
                forall e' :: CheckIndex(e') < CheckIndex(e) ==> !Trips(e', data, factor, format)
  {
    var v := Validate(data, factor, format);
    ReportedCheckTripsFirst(data, factor, format);
    forall e
      ensures v == Some(e) <==>
                Trips(e, data, factor, format) &&
                forall e' :: CheckIndex(e') < CheckIndex(e) ==> !Trips(e', data, factor, format)
    {
      if Trips(e, data, factor, format) && forall e' :: CheckIndex(e') < CheckIndex(e) ==> !Trips(e', data, factor, format) {
        var r := v.value;
        assert CheckIndex(r) == CheckIndex(e);
        CheckIndexInjective(r, e);
      }
    }
  }

  /** The reported check trips and no earlier one does; nothing is reported exactly when no check trips. */
  lemma ReportedCheckTripsFirst(data: GeoJsonData, factor: FactorArg, format: string)
    ensures Validate(data, factor, format).None? <==> forall e :: !Trips(e, data, factor, format)
    ensures Validate(data, factor, format).Some? ==>
              var r := Validate(data, factor, format).value;
              Trips(r, data, factor, format) &&
              forall e' :: CheckIndex(e') < CheckIndex(r) ==> !Trips(e', data, factor, format)
  {
    var v := Validate(data, factor, format);
    if v.Some? {
      assert Trips(v.value, data, factor, format);
    }
    forall e | v.None? || CheckIndex(e) < CheckIndex(v.value)
      ensures !Trips(e, data, factor, format)
    {
      match e
      case DataRequired =>
      case NotADictionary =>
      case NotAFeatureCollection =>
      case MissingFeatures =>
      case FeaturesNotAnArray =>
      case NoFeatures =>
      case FactorNotANumber =>
      case FactorNotFinite =>
      case FactorNotPositive =>
      case FactorOutOfRange =>
      case InvalidOutputFormat =>
      case AllGeometriesNull =>
    }
  }

  /** Each check has its own position in the chain. */
  lemma CheckIndexInjective(a: ScaleError, b: ScaleError)
    requires CheckIndex(a) == CheckIndex(b)
    ensures a == b
  {
  }

  /** No feature is dropped except those with a null geometry; all-null input has no rows. */
  lemma RowsAreTheNonNullFeatures(fs: seq<Feature>)
    ensures NonNullRows(fs) == [] <==> forall i :: 0 <= i < |fs| ==> fs[i].geometry.None?
    ensures |NonNullRows(fs)| == |set i | 0 <= i < |fs| && fs[i].geometry.Some?|
  {
    var rows := NonNullRows(fs);
    var present := set i | 0 <= i < |fs| && fs[i].geometry.Some?;
    var indices := set k | 0 <= k < |rows| :: rows[k].index;
    forall i | i in present
      ensures i in indices
    {
      NonNullRowsCover(fs, i);
    }
    assert indices == present;
    IndicesDistinct(rows);
  }

  /** Strictly increasing indices give as many distinct indices as rows. */
  lemma {:induction false} IndicesDistinct(rows: seq<Row>)
    requires forall k, l :: 0 <= k < l < |rows| ==> rows[k].index < rows[l].index
    ensures |set k | 0 <= k < |rows| :: rows[k].index| == |rows|
  {
    if rows != [] {
      var init := rows[..|rows| - 1];
      IndicesDistinct(init);
      var s := set k | 0 <= k < |init| :: init[k].index;
      var t := set k | 0 <= k < |rows| :: rows[k].index;
      assert t == s + {rows[|rows| - 1].index};
      assert rows[|rows| - 1].index !in s;
    }
  }

  /** A valid, non-empty input geometry comes out with every coordinate (x, y) turned into (x*f, y*f). */
  lemma ValidGeometryIsScaledCoordinatewise(g: Geometry, f: real, shp: Shapely)
    requires !IsEmpty(g) && shp.isValid(g)
    ensures SameLayout(g, ScaleStep(g, f, shp).geometry)
    ensures Positions(ScaleStep(g, f, shp).geometry) == ScaleLine(Positions(g), f)
  {
    ScalePreservesLayout(g, f);
    PositionsOfScaled(g, f);
  }
}
