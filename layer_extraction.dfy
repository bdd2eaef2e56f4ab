/**
 * `DXFProcessor._extract_geometries_by_layer`: walks the modelspace entities, counts
 * the supported ones, groups the converted geometries by layer (in the order layers
 * are first met) and counts the entities that could not be converted; with
 * `skip_invalid` off, the first such entity aborts the extraction.
 */
module LayerExtraction {
  import opened Wrappers
  import opened Geometry
  import opened DxfEntities

  /** `entity.dxf.layer or "0"`. */
  function LayerName(e: Entity): string
  {
    if e.layer == "" then "0" else e.layer
  }

  /** `getattr(entity.dxf, 'color', 256)`. */
  function ColorOf(e: Entity): int
  {
    if e.color.Some? then e.color.value else 256
  }

  /** One entry of a layer's list: the geometry and its `layer`, `entity_type` and `color` properties. */
  datatype LayerFeature = LayerFeature(geometry: Geometry, layer: string, entityType: string, color: int)

  /** `geometries_by_layer`: the layer names in insertion order and each layer's feature list. */
  datatype LayerTable = LayerTable(names: seq<string>, features: map<string, seq<LayerFeature>>)

  /** The exception raised with `skip_invalid` off: the entity type and layer of the entity that failed. */
  datatype ExtractError = ConversionFailed(entityType: string, layer: string)

  /** The conversion gives a truthy geometry (present and not empty), so the entity is kept. */
  predicate Converts(e: Entity, shp: Shapely, curve: Shape -> Geometry)
  {
    var g := EntityGeometry(e.shape, shp, curve);
    g.Some? && !IsEmpty(g.value)
  }

  /** A supported entity that is counted as skipped. */
  predicate Fails(e: Entity, shp: Shapely, curve: Shape -> Geometry)
  {
    IsSupported(e) && !Converts(e, shp, curve)
  }

  function FeatureOf(e: Entity, shp: Shapely, curve: Shape -> Geometry): LayerFeature
    requires Converts(e, shp, curve)
  {
    LayerFeature(EntityGeometry(e.shape, shp, curve).value, LayerName(e), DxfType(e.shape), ColorOf(e))
  }

  /** The layer name of every supported entity, in order (with repeats). */
  function SupportedLayers(es: seq<Entity>): seq<string>
  {
    if es == [] then []
    else
      var e := es[|es| - 1];
      SupportedLayers(es[..|es| - 1]) + (if IsSupported(e) then [LayerName(e)] else [])
  }

  /** The features kept for layer `name`, in entity order. */
  function LayerFeatures(es: seq<Entity>, name: string, shp: Shapely, curve: Shape -> Geometry): (r: seq<LayerFeature>)
    ensures forall k :: 0 <= k < |r| ==> r[k].layer == name && !IsEmpty(r[k].geometry)
  {
    if es == [] then []
    else
      var init := LayerFeatures(es[..|es| - 1], name, shp, curve);
      var e := es[|es| - 1];
      if IsSupported(e) && LayerName(e) == name && Converts(e, shp, curve) then init + [FeatureOf(e, shp, curve)] else init
  }

  function CountSupported(es: seq<Entity>): nat
  {
    if es == [] then 0 else CountSupported(es[..|es| - 1]) + (if IsSupported(es[|es| - 1]) then 1 else 0)
  }

  function CountSkipped(es: seq<Entity>, shp: Shapely, curve: Shape -> Geometry): nat
  {
    if es == [] then 0 else CountSkipped(es[..|es| - 1], shp, curve) + (if Fails(es[|es| - 1], shp, curve) then 1 else 0)
  }

  function CountConverted(es: seq<Entity>, shp: Shapely, curve: Shape -> Geometry): nat
  {
    if es == [] then 0
    else
      var e := es[|es| - 1];
      CountConverted(es[..|es| - 1], shp, curve) + (if IsSupported(e) && Converts(e, shp, curve) then 1 else 0)
  }

  /** The table is well formed: its names are distinct and are exactly its keys. */
  ghost predicate WellFormed(t: LayerTable)
  {
    && (forall i, j :: 0 <= i < j < |t.names| ==> t.names[i] != t.names[j])
    && (forall n :: n in t.features <==> n in t.names)
  }

  /** The table after processing one more entity, as the loop body leaves it. */
  function AddToTable(t: LayerTable, e: Entity, shp: Shapely, curve: Shape -> Geometry): LayerTable
  {
    if !IsSupported(e) then t
    else
      var n := LayerName(e);
      var t1 := if n in t.features then t else LayerTable(t.names + [n], t.features[n := []]);
      if Converts(e, shp, curve) then LayerTable(t1.names, t1.features[n := t1.features[n] + [FeatureOf(e, shp, curve)]])
      else t1
  }

  /** The table built from `es`, entity by entity. */
  function Table(es: seq<Entity>, shp: Shapely, curve: Shape -> Geometry): LayerTable
  {
    if es == [] then LayerTable([], map[])
    else AddToTable(Table(es[..|es| - 1], shp, curve), es[|es| - 1], shp, curve)
  }

  /**
   * `_extract_geometries_by_layer(doc, skip_invalid)` over the modelspace entities.
   * Besides the table it returns the `total_count` and `skipped_count` it logs.
   */
  method ExtractGeometriesByLayer(es: seq<Entity>, skipInvalid: bool, shp: Shapely, curve: Shape -> Geometry)
    returns (r: Result<LayerTable, ExtractError>, total: nat, skipped: nat)
    ensures r.Err? <==> !skipInvalid && exists i :: 0 <= i < |es| && Fails(es[i], shp, curve)
    ensures r.Err? ==> exists k :: 0 <= k < |es| && Fails(es[k], shp, curve) &&
                                   (forall j :: 0 <= j < k ==> !Fails(es[j], shp, curve)) &&
                                   r.error == ConversionFailed(DxfType(es[k].shape), LayerName(es[k]))
    ensures r.Ok? ==> && WellFormed(r.value)
                      && r.value.names == Distinct(SupportedLayers(es))
                      && (forall n :: n in r.value.features ==> r.value.features[n] == LayerFeatures(es, n, shp, curve))
                      && total == CountSupported(es)
                      && skipped == CountSkipped(es, shp, curve)
  {
    var names: seq<string> := [];
    var features: map<string, seq<LayerFeature>> := map[];
    total, skipped := 0, 0;
    var i := 0;
    while i < |es|
      invariant 0 <= i <= |es|
      invariant LayerTable(names, features) == Table(es[..i], shp, curve)
      invariant total == CountSupported(es[..i])
      invariant skipped == CountSkipped(es[..i], shp, curve)
      invariant !skipInvalid ==> forall j :: 0 <= j < i ==> !Fails(es[j], shp, curve)
    {
      var e := es[i];
      assert es[..i + 1][..i] == es[..i];
      assert es[..i + 1][i] == e;
      if IsSupported(e) {
        total := total + 1;
        var converted;
        names, features, converted := AddEntity(names, features, e, shp, curve);
        if !converted {
          skipped := skipped + 1;
          if !skipInvalid {
            r := Err(ConversionFailed(DxfType(e.shape), LayerName(e)));
            return;
          }
        }
      }
      i := i + 1;
    }
    assert es[..i] == es;
    TableCharacterized(es, shp, curve);
    r := Ok(LayerTable(names, features));
  }

  /**
   * The loop body for one supported entity: create the layer's list on first sight,
   * convert the entity and append the feature if the geometry is truthy.
   */
  method AddEntity(names: seq<string>, features: map<string, seq<LayerFeature>>, e: Entity,
                   shp: Shapely, curve: Shape -> Geometry)
    returns (names': seq<string>, features': map<string, seq<LayerFeature>>, converted: bool)
    requires IsSupported(e)
    ensures converted == Converts(e, shp, curve)
    ensures LayerTable(names', features') == AddToTable(LayerTable(names, features), e, shp, curve)
  {
    var name := LayerName(e);
    names', features' := names, features;
    if name !in features' {
      names' := names' + [name];
      features' := features'[name := []];
    }
    var g := EntityToGeometry(e.shape, shp, curve);
    converted := g.Some? && !IsEmpty(g.value);
    if converted {
      features' := features'[name := features'[name] + [LayerFeature(g.value, name, DxfType(e.shape), ColorOf(e))]];
    }
  }

  // ---------------------------------------------------------------------------
  // Lemmas

  /**
   * The table lists each layer of a supported entity once, in order of first
   * appearance, and holds for each layer exactly the converted features on it.
   */
  lemma {:induction false} TableCharacterized(es: seq<Entity>, shp: Shapely, curve: Shape -> Geometry)
    ensures WellFormed(Table(es, shp, curve))
    ensures Table(es, shp, curve).names == Distinct(SupportedLayers(es))
    ensures forall n :: n in Table(es, shp, curve).features ==>
              Table(es, shp, curve).features[n] == LayerFeatures(es, n, shp, curve)
  {
    if es != [] {
      var init := es[..|es| - 1];
      var e := es[|es| - 1];
      TableCharacterized(init, shp, curve);
      var t := Table(init, shp, curve);
      var t' := Table(es, shp, curve);
      var layers := SupportedLayers(init);
      if IsSupported(e) {
        var n := LayerName(e);
        assert SupportedLayers(es) == layers + [n];
        DistinctSnoc(layers, n);
        var t1 := if n in t.features then t else LayerTable(t.names + [n], t.features[n := []]);
        assert t'.names == t1.names;
        assert t1.names == Distinct(layers + [n]);
        assert forall m :: m in t'.features <==> m in t1.features;
        if n !in t.features {
          NoFeaturesOffTable(init, n, shp, curve);
        }
        forall m | m in t'.features
          ensures t'.features[m] == LayerFeatures(es, m, shp, curve)
        {
          var added := if m == n && Converts(e, shp, curve) then [FeatureOf(e, shp, curve)] else [];
          assert LayerFeatures(es, m, shp, curve) == LayerFeatures(init, m, shp, curve) + added;
          if m != n {
            assert m in t.features;
            assert t'.features[m] == t.features[m];
            assert added == [];
          } else if n !in t.features {
            assert t1.features[n] == [];
            assert LayerFeatures(init, m, shp, curve) == [];
          }
        }
      } else {
        assert SupportedLayers(es) == layers + [];
        assert layers + [] == layers;
      }
    }
  }

  /** A layer appears in the table exactly when some supported entity lies on it. */
  lemma {:induction false} LayersAreThoseOfSupportedEntities(es: seq<Entity>, n: string)
    ensures n in Distinct(SupportedLayers(es)) <==> exists i :: 0 <= i < |es| && IsSupported(es[i]) && LayerName(es[i]) == n
  {
    var s := SupportedLayers(es);
    SupportedLayersMembers(es, n);
    if n in s {
      var k :| 0 <= k < |s| && s[k] == n;
      assert s[k] in Distinct(s);
    }
  }

  lemma {:induction false} SupportedLayersMembers(es: seq<Entity>, n: string)
    ensures n in SupportedLayers(es) <==> exists i :: 0 <= i < |es| && IsSupported(es[i]) && LayerName(es[i]) == n
  {
    if es != [] {
      var init := es[..|es| - 1];
      SupportedLayersMembers(init, n);
      assert forall i :: 0 <= i < |init| ==> init[i] == es[i];
      if exists i :: 0 <= i < |es| && IsSupported(es[i]) && LayerName(es[i]) == n {
        var i :| 0 <= i < |es| && IsSupported(es[i]) && LayerName(es[i]) == n;
        if i < |init| {
          assert IsSupported(init[i]) && LayerName(init[i]) == n;
        }
      }
    }
  }

  /** Every supported entity is either converted or skipped. */
  lemma {:induction false} CountsAddUp(es: seq<Entity>, shp: Shapely, curve: Shape -> Geometry)
    ensures CountSupported(es) == CountConverted(es, shp, curve) + CountSkipped(es, shp, curve)
  {
    if es != [] {
      CountsAddUp(es[..|es| - 1], shp, curve);
    }
  }

  /** The number of features over the listed layers. */
  function FeatureTotal(names: seq<string>, es: seq<Entity>, shp: Shapely, curve: Shape -> Geometry): nat
  {
    if names == [] then 0
    else FeatureTotal(names[..|names| - 1], es, shp, curve) + |LayerFeatures(es, names[|names| - 1], shp, curve)|
  }

  /** Over layers without repeats, one more entity adds one feature if it converts onto one of them. */
  lemma {:induction false} FeatureTotalStep(names: seq<string>, es: seq<Entity>, e: Entity, shp: Shapely, curve: Shape -> Geometry)
    requires forall i, j :: 0 <= i < j < |names| ==> names[i] != names[j]
    ensures FeatureTotal(names, es + [e], shp, curve) ==
              FeatureTotal(names, es, shp, curve) +
              (if IsSupported(e) && Converts(e, shp, curve) && LayerName(e) in names then 1 else 0)
  {
    assert (es + [e])[..|es + [e]| - 1] == es;
    if names != [] {
      var init := names[..|names| - 1];
      FeatureTotalStep(init, es, e, shp, curve);
      assert names == init + [names[|names| - 1]];
    }
  }

  /**
   * The features in the table number `total_count - skipped_count`, the count the
   * source logs as converted successfully.
   */
  lemma {:induction false} TableHoldsEveryConvertedEntity(es: seq<Entity>, shp: Shapely, curve: Shape -> Geometry)
    ensures FeatureTotal(Distinct(SupportedLayers(es)), es, shp, curve) == CountSupported(es) - CountSkipped(es, shp, curve)
  {
    CountsAddUp(es, shp, curve);
    if es != [] {
      var init := es[..|es| - 1];
      var e := es[|es| - 1];
      assert es == init + [e];
      TableHoldsEveryConvertedEntity(init, shp, curve);
      CountsAddUp(init, shp, curve);
      FeatureTotalAddsEntity(init, e, shp, curve);
    }
  }

  /** One more entity adds one feature to the table exactly when it is supported and converts. */
  lemma FeatureTotalAddsEntity(init: seq<Entity>, e: Entity, shp: Shapely, curve: Shape -> Geometry)
    ensures FeatureTotal(Distinct(SupportedLayers(init + [e])), init + [e], shp, curve) ==
              FeatureTotal(Distinct(SupportedLayers(init)), init, shp, curve) +
              (if IsSupported(e) && Converts(e, shp, curve) then 1 else 0)
  {
    var es := init + [e];
    assert es[..|es| - 1] == init;
    var layers := SupportedLayers(init);
    var before := Distinct(layers);
    FeatureTotalStep(before, init, e, shp, curve);
    if !IsSupported(e) {
      assert SupportedLayers(es) == layers + [];
      assert layers + [] == layers;
    } else if LayerName(e) in before {
      assert SupportedLayers(es) == layers + [LayerName(e)];
      DistinctSnoc(layers, LayerName(e));
    } else {
      NewLayerAddsEntity(init, e, shp, curve);
    }
  }

  /** An entity on a layer not yet in the table starts that layer with its own feature, if any. */
  lemma NewLayerAddsEntity(init: seq<Entity>, e: Entity, shp: Shapely, curve: Shape -> Geometry)
    requires IsSupported(e) && LayerName(e) !in Distinct(SupportedLayers(init))
    ensures FeatureTotal(Distinct(SupportedLayers(init + [e])), init + [e], shp, curve) ==
              FeatureTotal(Distinct(SupportedLayers(init)), init + [e], shp, curve) +
              (if Converts(e, shp, curve) then 1 else 0)
  {
    var es := init + [e];
    var n := LayerName(e);
    var layers := SupportedLayers(init);
    var before := Distinct(layers);
    assert es[..|es| - 1] == init;
    assert SupportedLayers(es) == layers + [n];
    DistinctSnoc(layers, n);
    var after := before + [n];
    assert Distinct(SupportedLayers(es)) == after;
    NoFeaturesOffTable(init, n, shp, curve);
    assert LayerFeatures(es, n, shp, curve) ==
             LayerFeatures(init, n, shp, curve) + (if Converts(e, shp, curve) then [FeatureOf(e, shp, curve)] else []);
    assert after[..|after| - 1] == before && after[|after| - 1] == n;
    assert FeatureTotal(after, es, shp, curve) == FeatureTotal(before, es, shp, curve) + |LayerFeatures(es, n, shp, curve)|;
  }

  /** A layer on which no supported entity lies has no features. */
  lemma {:induction false} NoFeaturesOffTable(es: seq<Entity>, n: string, shp: Shapely, curve: Shape -> Geometry)
    requires n !in Distinct(SupportedLayers(es))
    ensures LayerFeatures(es, n, shp, curve) == []
  {
    var s := SupportedLayers(es);
    forall k | 0 <= k < |s|
      ensures s[k] != n
    {
      assert s[k] in Distinct(s);
    }
    NoFeaturesOffLayers(es, n, shp, curve);
  }

  lemma {:induction false} NoFeaturesOffLayers(es: seq<Entity>, n: string, shp: Shapely, curve: Shape -> Geometry)
    requires n !in SupportedLayers(es)
    ensures LayerFeatures(es, n, shp, curve) == []
  {
    if es != [] {
      NoFeaturesOffLayers(es[..|es| - 1], n, shp, curve);
    }
  }
}
