# DXF-to-GIS converter backend: a Dafny model

This project models the backend of a converter that turns AutoCAD DXF drawings into
GIS data (GeoJSON and other formats) and serves the result through a small HTTP API.
It covers two source files.

- `backend/dxf_processor.py`, the conversion engine `DXFProcessor`. The model covers:
  - the rules that turn POINT, LINE, POLYLINE and LWPOLYLINE entities into geometries;
  - the grouping of converted entities by layer, with the converted and skipped counts;
  - the heuristic that labels sampled coordinates as geographic, projected or unknown;
  - the `EPSG:c` → `urn:ogc:def:crs:EPSG::c` naming and the parse back;
  - `apply_scale_to_geojson`, which validates a FeatureCollection, drops null
    geometries, scales every coordinate `(x, y[, z])` to `(x*f, y*f)` and copies the
    `crs` member verbatim.
- `backend/main.py`, the FastAPI service. The model covers:
  - the in-memory `jobs` table and its four statuses;
  - the `ScaleFactorRequest` body validation;
  - the endpoints upload, job status, preview, download, reproject and
    apply-scale-factor, as methods of the class `JobRegistry.JobRegistry` over a
    `map<string, Job>`;
  - the two background tasks, `process_dxf_file` and `process_scaled_conversion`.

Modules, one per file: `Wrappers` (Option/Result), `Numbers` (Python floats with NaN
and the infinities), `Geometry` (shapely geometries and the scaling),
`CrsNaming`, `ScaleGeoJson`, `DxfEntities`, `LayerExtraction`,
`CoordinateDetection`, `ScaleRequest` and `JobRegistry`.

Coordinates and factors are mathematical `real`s. A Python float that may be NaN or
infinite is a `Numbers.Float`. The computations the code delegates to GEOS
(`is_valid`, `buffer(0)`) are passed in as functions, in a `Geometry.Shapely` value,
so every property holds whatever those libraries answer. These are also parameters:
- file-system checks, as sets of existing and readable paths;
- new job ids;
- the outcome of reading, converting and saving files.

Facts about the scaling code that the model keeps:
- scaling multiplies every coordinate by the factor, about (0, 0);
- the factor 1.0 is not special-cased;
- the 0.9–1.1 range is checked inside `apply_scale_to_geojson` as well as in the
  request validator;
- scaling keeps x and y only, so a z coordinate is dropped;
- a collection whose geometries are all null is refused with "All geometries are null
  or invalid".

## Model

| member | source | states |
|---|---|---|
| `Numbers.WithinIsFiniteAndBounded` | backend/dxf_processor.py:623-630 | A float passes the IEEE range comparison exactly when it is finite and inside the bounds, so NaN and both infinities fail it. |
| `Geometry.ScaleGeometry` | backend/dxf_processor.py:748-763 | `shapely.ops.transform` with the scaling map; specified by `PositionsOfScaled`, `ScalePreservesLayout`, `ScalePreservesEmptiness` and `ScaleCompose`. |
| `Geometry.PositionsOfScaled` | backend/dxf_processor.py:748-763 | The coordinates of the scaled geometry are the original coordinates, in the same order, each mapped to (x*f, y*f). |
| `Geometry.ScalePreservesLayout` | backend/dxf_processor.py:756-763 | Scaling keeps the geometry kind, the number and order of parts and every nesting length. |
| `Geometry.ScalePreservesEmptiness` | backend/dxf_processor.py:756-763 | A geometry is empty after scaling exactly when it was empty before, so a non-empty input never scales to empty. |
| `Geometry.ScaleCompose` | backend/dxf_processor.py:756-758 | Scaling by a and then by b is scaling by a*b. |
| `Geometry.ScaleRoundTrip` | backend/dxf_processor.py:756-758 | Scaling by f and then by 1/f gives the 2D projection of the original (any z dropped). |
| `Geometry.UnitScaleKeepsPlanar` | backend/dxf_processor.py:756-758 | Scaling by 1.0 leaves a geometry unchanged exactly when it has no z coordinate. |
| `Geometry.UnitScaleIsIdentity` | backend/dxf_processor.py:756-758 | Scaling a 2D geometry by 1.0 is the identity. |
| `CrsNaming.IndexFrom` | backend/dxf_processor.py:665-666 | The first occurrence of a separator at or after a position, or none at or after it. |
| `CrsNaming.IndexOf` | backend/dxf_processor.py:665-666 | Finds the first occurrence of a separator, or reports that there is none. |
| `CrsNaming.LastPieceStart` | backend/dxf_processor.py:666 | The last piece of the split starts where no separator follows; it starts at the scan's start when the scan finds none, and right after an occurrence otherwise. |
| `CrsNaming.LastPiece` | backend/dxf_processor.py:666 | `split(sep)[-1]` is a suffix of the string that contains no separator. Without a separator it is the whole string; with one, the separator sits immediately before it. |
| `CrsNaming.EpsgCode` | backend/dxf_processor.py:211-212 | The code after the last ":" of the target CRS, or the whole name; specified by `EpsgCodeHasNoColon` and `CrsRoundTrip`. |
| `CrsNaming.UrnFor` | backend/dxf_processor.py:211-219 | The URN written for a target CRS; specified by `CrsRoundTrip`. |
| `CrsNaming.NamedCrs` | backend/dxf_processor.py:211-219 | The `crs` member attached to the converted GeoJSON; specified by `CrsRoundTrip` and `NamedCrsReadsBackAsEpsg`. |
| `CrsNaming.FrameCrs` | backend/dxf_processor.py:660-668 | The CRS read back from a `crs` member; specified by `CrsRoundTrip` and `NamedCrsReadsBackAsEpsg`. |
| `CrsNaming.IndexOfIsFirst` | backend/dxf_processor.py:665-666 | An occurrence with none before it is the one `IndexOf` reports. |
| `CrsNaming.NotContainsColon` | backend/dxf_processor.py:211-212 | A string without ":" as a substring has no colon character. |
| `CrsNaming.NoColonNoOccurrence` | backend/dxf_processor.py:665-666 | A colon-free string contains no separator that has a colon in it. |
| `CrsNaming.EpsgCodeHasNoColon` | backend/dxf_processor.py:211-212 | The code derived from a target CRS never contains a colon. |
| `CrsNaming.LastPieceOfColonFree` | backend/dxf_processor.py:666 | Splitting a colon-free string on "EPSG::" leaves it whole. |
| `CrsNaming.CrsRoundTrip` | backend/dxf_processor.py:211-219 | For `EPSG:c` with c colon-free: the derived code is c, the URN is `urn:ogc:def:crs:EPSG::c`, and reading the URN back gives `EPSG:c`. |
| `CrsNaming.NamedCrsReadsBackAsEpsg` | backend/dxf_processor.py:660-668 | Any target CRS written as a URN reads back as `EPSG:` + its code, and deriving the code again is stable. |
| `CrsNaming.TransformCoordinates` | backend/dxf_processor.py:769-795 | Reprojection keeps the list length, is the identity when source and target agree, and keeps null and empty geometries as they are. |
| `CrsNaming.MissingSourceCrsMeansNoReprojection` | backend/dxf_processor.py:182-198 | With no or an empty source CRS the target is used as the source, so reprojection changes nothing; with a different source every present non-empty geometry is projected. |
| `ScaleGeoJson.Trips` | backend/dxf_processor.py:601-634 | Each input check as a condition on the raw input; their order is stated by `GuardChainOrder`. |
| `ScaleGeoJson.Validate` | backend/dxf_processor.py:601-634 | No input check fails exactly when the input is acceptable; a failure is one of the eleven checks. |
| `ScaleGeoJson.GuardChainOrder` | backend/dxf_processor.py:601-634 | The reported error is the first check, in source order, that the input trips; none is reported exactly when no check trips. |
| `ScaleGeoJson.NonNullRows` | backend/dxf_processor.py:645-658 | The kept rows are features with a non-null geometry, with their properties, in increasing input order. |
| `ScaleGeoJson.NonNullRowsCover` | backend/dxf_processor.py:651-658 | Every feature with a non-null geometry is among the kept rows. |
| `ScaleGeoJson.RowsAreTheNonNullFeatures` | backend/dxf_processor.py:645-658 | No row is kept exactly when every geometry is null, and the number of rows is the number of non-null features. |
| `ScaleGeoJson.IndicesDistinct` | backend/dxf_processor.py:651-658 | Rows in increasing index order name pairwise different features. |
| `ScaleGeoJson.ScaleStep` | backend/dxf_processor.py:679-711 | An empty geometry is kept, not counted. A valid one is scaled, not counted. An invalid one whose buffer(0) raises is kept and counted. An invalid one repaired to an empty geometry is replaced by the repair and counted. An invalid one repaired to a non-empty geometry is replaced by the scaled repair, not counted. |
| `ScaleGeoJson.CountFailures` | backend/dxf_processor.py:677-711 | The `failed_count` of the loop; `ApplyScaleToGeoJson` states that it is reported. |
| `ScaleGeoJson.ScaleRow` | backend/dxf_processor.py:679-717 | The output feature for one kept row; specified by `ApplyScaleToGeoJson` and `ValidGeometryIsScaledCoordinatewise`. |
| `ScaleGeoJson.ValidGeometryIsScaledCoordinatewise` | backend/dxf_processor.py:686-711 | A valid non-empty geometry comes out with the same layout and every coordinate scaled. |
| `ScaleGeoJson.ApplyScaleToGeoJson` | backend/dxf_processor.py:582-746 | A failed check is reported as that error. All-null input is refused. Otherwise one output feature per non-null input feature, in order, each the scaled row; the failure count matches; `crs` is copied verbatim. |
| `DxfEntities.KeepFinite` | backend/dxf_processor.py:314-355 | The kept points are exactly the finite input vertices. |
| `DxfEntities.CollectFinitePoints` | backend/dxf_processor.py:314-355 | The loop that appends finite vertices builds exactly the kept-point list. |
| `DxfEntities.KeepFiniteAppend` | backend/dxf_processor.py:314-355 | Filtering distributes over concatenation, so input order is kept. |
| `DxfEntities.KeepFiniteAllFinite` | backend/dxf_processor.py:314-355 | When every vertex is finite, all of them are kept, position for position. |
| `DxfEntities.KeepFiniteDropsNonFinite` | backend/dxf_processor.py:314-355 | A non-finite vertex is dropped and nothing else changes. |
| `DxfEntities.Distinct` | backend/dxf_processor.py:362-363 | The unique points hold every input point once, without repeats. |
| `DxfEntities.DistinctCountsElements` | backend/dxf_processor.py:362-363 | The number of unique points is the size of the set of points. |
| `DxfEntities.DistinctSnoc` | backend/dxf_processor.py:362-363 | Adding a point adds it to the unique list only when it is new. |
| `DxfEntities.NoRepeatsCardinality` | backend/dxf_processor.py:362-363 | A list without repeats has as many elements as its set. |
| `DxfEntities.RingPolygon` | backend/dxf_processor.py:367-400 | The ring becomes a Polygon when valid. Otherwise it is the non-empty buffer(0) repair, falling back to a LineString of the ring. It is never empty. |
| `DxfEntities.PolylineGeometry` | backend/dxf_processor.py:356-409 | Fewer than 2 points gives None. An open polyline or 2 points gives a LineString of exactly those points. A closed one is closed and becomes a LineString with fewer than 3 distinct points, else a polygon. |
| `DxfEntities.CloseRing` | backend/dxf_processor.py:356-360 | Closing a polyline ring; specified by `ClosedRingHasSamePoints` and `CloseRingIdempotent`. |
| `DxfEntities.ClosedRingHasSamePoints` | backend/dxf_processor.py:356-363 | Closing a ring keeps the points as a prefix, makes the first and last point equal, and adds no new distinct point. |
| `DxfEntities.CloseRingIdempotent` | backend/dxf_processor.py:356-360 | A ring that is already closed is not extended again. |
| `DxfEntities.EntityConversionRules` | backend/dxf_processor.py:289-409 | POINT and LINE convert exactly when their points are finite. Polylines follow the polyline rules on their finite vertices. CIRCLE and ARC need a finite centre, a positive radius and finite angles. Other types give None. Non-curve results are never empty. |
| `DxfEntities.EntityGeometry` | backend/dxf_processor.py:289-409 | The geometry an entity converts to; specified by `EntityConversionRules`. |
| `DxfEntities.EntityToGeometry` | backend/dxf_processor.py:289-409 | The conversion routine returns what the conversion rules prescribe. |
| `LayerExtraction.LayerFeatures` | backend/dxf_processor.py:257-273 | Every feature filed under a layer carries that layer's name and a non-empty geometry. |
| `LayerExtraction.ExtractGeometriesByLayer` | backend/dxf_processor.py:246-287 | An error happens exactly when skipping is off and some entity fails, and it names the first failing entity. Otherwise the layers are the distinct layers of supported entities in first-seen order, each holding its converted entities in order. The counters are the supported and skipped counts. |
| `LayerExtraction.Table` | backend/dxf_processor.py:246-287 | The layer table built entity by entity; specified by `TableCharacterized`, `LayersAreThoseOfSupportedEntities` and `TableHoldsEveryConvertedEntity`. |
| `LayerExtraction.AddToTable` | backend/dxf_processor.py:257-281 | One loop step on the table; specified by `AddEntity`, `FeatureTotalStep`, `FeatureTotalAddsEntity` and `NewLayerAddsEntity`. |
| `LayerExtraction.AddEntity` | backend/dxf_processor.py:257-281 | One loop step files the entity under its layer (creating the layer when new) when it converts, and reports whether it did. |
| `LayerExtraction.TableCharacterized` | backend/dxf_processor.py:246-287 | The layer table built entity by entity is well formed, lists the distinct supported layers and holds each layer's converted entities. |
| `LayerExtraction.LayersAreThoseOfSupportedEntities` | backend/dxf_processor.py:254-258 | A layer is in the table exactly when some supported entity lies on it. |
| `LayerExtraction.SupportedLayersMembers` | backend/dxf_processor.py:254-258 | The supported-layer list holds exactly the layers of supported entities. |
| `LayerExtraction.CountsAddUp` | backend/dxf_processor.py:257-281 | Supported entities = converted + skipped. |
| `LayerExtraction.FeatureTotalStep` | backend/dxf_processor.py:265-273 | Adding an entity adds one feature to the listed layers exactly when it converts on one of them. |
| `LayerExtraction.TableHoldsEveryConvertedEntity` | backend/dxf_processor.py:246-287 | The table holds as many features as supported entities minus skipped ones: no converted entity is lost. |
| `LayerExtraction.FeatureTotalAddsEntity` | backend/dxf_processor.py:257-273 | Processing one more entity grows the table by one feature exactly when the entity converts. |
| `LayerExtraction.NewLayerAddsEntity` | backend/dxf_processor.py:258-273 | An entity on a new layer contributes its own feature when that layer is created. |
| `LayerExtraction.NoFeaturesOffTable` | backend/dxf_processor.py:257-273 | A layer outside the table holds no features. |
| `LayerExtraction.NoFeaturesOffLayers` | backend/dxf_processor.py:257-273 | A name no supported entity uses has no features. |
| `CoordinateDetection.Prefix5` | backend/dxf_processor.py:44-52 | The first at most five coordinates of a line, in order. |
| `CoordinateDetection.Min` | backend/dxf_processor.py:70-71 | The minimum is one of the values and at most each of them. |
| `CoordinateDetection.Max` | backend/dxf_processor.py:70-71 | The maximum is one of the values and at least each of them. |
| `CoordinateDetection.SampleLayers` | backend/dxf_processor.py:31-57 | The samples from the layers, at most 10 features per layer; `DetectCoordinateSystemType` states that the loops compute it. |
| `CoordinateDetection.Classify` | backend/dxf_processor.py:59-136 | The classification of the samples; specified by the lemmas from `UnknownExactlyWhenNothingSampled` to `RatioFallbackUnused`. |
| `CoordinateDetection.ProjectedSystem` | backend/dxf_processor.py:95-133 | The label for projected data; specified by `LabelFollowsType` and `RatioFallbackUnused`. |
| `CoordinateDetection.SampleMultiPart` | backend/dxf_processor.py:44-52 | The multi-part sampling loop, with its early stop at 50 samples, computes the sampling function. |
| `CoordinateDetection.SamplePartsBounded` | backend/dxf_processor.py:31-57 | Sampling only appends, at most five per part, so it stops below 55 samples. |
| `CoordinateDetection.DetectCoordinateSystemType` | backend/dxf_processor.py:16-136 | The nested sampling loops over layers, features and parts compute the classification of the samples. |
| `CoordinateDetection.UnknownExactlyWhenNothingSampled` | backend/dxf_processor.py:59-67 | The type is unknown exactly when nothing was sampled, and then the ranges are (0, 0) and no samples are reported. |
| `CoordinateDetection.ReportsFirstFiveSamples` | backend/dxf_processor.py:72-80 | The report holds the first five samples, or all of them when fewer. |
| `CoordinateDetection.RangesAreTight` | backend/dxf_processor.py:69-80 | Each range is min ≤ max, contains every sample and is attained by samples at both ends. |
| `CoordinateDetection.GeographicExactlyWhenRangesInBox` | backend/dxf_processor.py:83-88 | With samples, the type is geographic exactly when x lies in [-180, 180] and y in [-90, 90]; otherwise it is projected. |
| `CoordinateDetection.MagnitudeIsLargestAbsoluteValue` | backend/dxf_processor.py:90-93 | The magnitude is the largest absolute value among the samples. |
| `CoordinateDetection.LabelFollowsType` | backend/dxf_processor.py:83-133 | Geographic data is labelled WGS84, unknown data unknown, and projected data gets one of the four projected labels. |
| `CoordinateDetection.RatioFallbackUnused` | backend/dxf_processor.py:103-121 | In the second magnitude band the label is state-plane-feet exactly when y exceeds twice x or both exceed 1,000,000. |
| `ScaleRequest.ScaleFactorValidator` | backend/main.py:74-89 | The validator accepts exactly the finite values in [0.9, 1.1]. Only the number and range checks can refuse; the finiteness and positivity checks never decide. |
| `ScaleRequest.CheckFactor` | backend/main.py:61-89 | `scale_factor` is accepted exactly when it is a finite float in [0.9, 1.1], and the value is kept. A refusal is a parse error exactly for a non-number, else the field bounds. |
| `ScaleRequest.FormatValidator` | backend/main.py:91-96 | The validator accepts exactly None or "geojson" and keeps the value. |
| `ScaleRequest.CheckFormat` | backend/main.py:68-72 | `output_format` is accepted exactly when None or "geojson"; any refusal comes from the pattern. |
| `ScaleRequest.ParseRequest` | backend/main.py:59-96 | The request is built exactly when both fields are acceptable. Otherwise one or two errors are listed, the factor's first, one per failing field. |
| `JobRegistry.LowerChar` | backend/main.py:129 | `lower()` on one character maps A–Z to a–z and leaves the rest unchanged. |
| `JobRegistry.Lower` | backend/main.py:129 | `lower()` lowers each character and keeps the length. |
| `JobRegistry.LowerCharIsLetter` | backend/main.py:129 | A character lowers to a given lower-case letter exactly when it is that letter or its capital. |
| `JobRegistry.IsDxfFilename` | backend/main.py:129-130 | The upload's name check; specified by `DxfSuffixIgnoresCase`. |
| `JobRegistry.DxfSuffixIgnoresCase` | backend/main.py:129-130 | Upload accepts a name exactly when it ends in "." followed by d, x, f in any case. |
| `JobRegistry.RFind` | backend/main.py:248-249 | The position of the last occurrence of a character, or -1 when it does not occur. |
| `JobRegistry.SplitExt` | backend/main.py:248-249 | `os.path.splitext` splits a path into two parts that concatenate back to it; where it splits is stated by `SplitExtNoExtension`, `SplitExtExtensionShape` and `SplitExtAtLastDot`. |
| `JobRegistry.SplitExtNoExtension` | backend/main.py:248-249 | Nothing is split off exactly when the last path component has no dot, or only dots before its last dot; the root is then the whole path. |
| `JobRegistry.SplitExtExtensionShape` | backend/main.py:248-249 | A non-empty extension is a dot followed by neither dots nor slashes. |
| `JobRegistry.DownloadName` | backend/main.py:248-249 | The download file name; specified by `DownloadNameOfDxfUpload`. |
| `JobRegistry.DownloadNameOfDxfUpload` | backend/main.py:248-249 | The download of an uploaded `name.dxf` is named `name_converted.<format>`. |
| `JobRegistry.DxfExtensionPosition` | backend/main.py:248-249 | In a `.dxf` name the last dot starts the extension, after the last slash. |
| `JobRegistry.SplitExtAtLastDot` | backend/main.py:248-249 | `splitext` splits at the last dot when the base name before it is not all dots. |
| `JobRegistry.RFindLastOccurrence` | backend/main.py:248-249 | An occurrence with none after it is the last one. |
| `JobRegistry.RFindBefore` | backend/main.py:248-249 | A character absent from a suffix is last found before that suffix. |
| `JobRegistry.NotOnlyDots` | backend/main.py:248-249 | A slice holding a non-dot character is not all dots. |
| `JobRegistry.MapCrsUrnIsDerived` | backend/main.py:214-219 | The CRS name written into the preview is the URN of EPSG:4326. |
| `JobRegistry.EffectiveFormat` | backend/main.py:358 | `request.output_format or original_job["output_format"]`; its use is stated by `JobRegistry.ScaleRequestRefusal` and `JobRegistry.ApplyScaleFactor`. |
| `JobRegistry.TransformError` | backend/main.py:507-514 | The scaling call succeeds exactly when its input passes every check and has a non-null geometry. |
| `JobRegistry.ScaleStepFailure` | backend/main.py:500-543 | The factor, scaling and saving steps all pass exactly when the factor is present and in range, scaling succeeds and saving succeeds. |
| `JobRegistry.ScaleLoaded` | backend/main.py:500-543 | Running those steps reports the failure `ScaleStepFailure` gives. |
| `JobRegistry.ScaleJobSucceeds` | backend/main.py:444-564 | When the scaled conversion succeeds; specified by `ScaleJobFailure` and `ProcessScaledConversion`. |
| `JobRegistry.ScaleJobFailure` | backend/main.py:444-564 | The scaled conversion fails exactly when the success condition does not hold: parent exists with an output file, the data loads as a FeatureCollection, the factor is in range, scaling and saving succeed. |
| `JobRegistry.StoreKeepsWellFormed` | backend/main.py:51-57 | Storing a well-formed record keeps the whole table well formed. |
| `JobRegistry.ScaledConversionRechecksNeverFail` | backend/main.py:500-514 | Over a well-formed table the background conversion's factor range check never fails. Scaling can then only fail for an empty or all-null collection. |
| `JobRegistry.JobRegistry.constructor` | backend/main.py:51 | The registry starts with an empty, well-formed table. |
| `JobRegistry.JobRegistry.CompletedOutput` | backend/main.py:182-191 | The shared guard passes exactly for a completed job whose output file exists. A missing job gives 404 "Job not found". A job that is not completed gives 400 "Job not completed". A completed job without an existing output file gives 404 "Output file not found". |
| `JobRegistry.JobRegistry.ScaleRequestRefusal` | backend/main.py:308-363 | A request is admitted exactly when every check passes. The checks, in source order, each once the earlier ones pass: an invalid body gives 422 with its errors; a blank id 400 "Invalid job ID format"; an unknown id 404 "Job not found" (exactly then); a job not completed 400 with its status; a missing or empty output path 404; a missing file 404; an unreadable file 500; an effective format other than geojson 400. |
| `JobRegistry.JobRegistry.Upload` | backend/main.py:116-160 | A non-DXF name gives 400 and a failed save 500, with the table unchanged. Otherwise the table gains exactly one pending record with progress 0 and no scale factor or parent. The well-formedness invariant is kept. |
| `JobRegistry.JobRegistry.GetJobStatus` | backend/main.py:162-177 | A missing id gives 404; otherwise the stored record under its id, and the table is unchanged. |
| `JobRegistry.JobRegistry.Preview` | backend/main.py:179-228 | The shared guard errors are reported as such, and a non-GeoJSON output gives 400. EPSG:4326 output is served as stored. Anything else is reprojected and given the URN crs member. |
| `JobRegistry.JobRegistry.Download` | backend/main.py:230-265 | The shared guard errors are reported as such; otherwise the output file is served, named after the upload with "_converted." and the format, as JSON exactly for GeoJSON, as an attachment. |
| `JobRegistry.JobRegistry.Reproject` | backend/main.py:267-306 | A missing job or missing original file gives 404 with the table unchanged. Otherwise one pending record is added with the new CRS, the default format and the original as parent. |
| `JobRegistry.JobRegistry.ApplyScaleFactor` | backend/main.py:308-393 | A refused request leaves the table unchanged. An admitted one adds one pending record with the factor, the original as parent and the original's file, name and CRS. The original record is unchanged. |
| `JobRegistry.JobRegistry.ProcessDxfFile` | backend/main.py:395-442 | Only the job's own record changes. A failure marks it failed and leaves the progress at the step reached (50 or 80). Success completes it at 100 with its output path. |
| `JobRegistry.JobRegistry.ProcessScaledConversion` | backend/main.py:444-564 | Only the job's own record changes. It ends completed at 100 with the scaled output path exactly when the scaled conversion succeeds; otherwise it is failed at progress 0 with the failure reason. |

## Left out

- Reading DXF files (ezdxf), writing output files, and the GeoDataFrame round trip
  (`from_features`, `to_json`): entities are plain records, and the frame is modelled
  by the rows it keeps. The failure paths of those library calls (backend/dxf_processor.py:640-642,
  719-730) are not modelled.
- `ScaleGeoJson.ApplyScaleToGeoJson`: the result is the features and `crs` member, not
  the JSON text `to_json` writes. Three differences of that text are not modelled:
  every frame column is written for every feature, so a missing property comes back
  as null and an integer column with gaps comes back as floats; an empty geometry is
  written as `"geometry": null`; the feature id is written as a string.
- GEOS validity and the `buffer(0)` repair are opaque parameters (`Geometry.Shapely`).
  The exception fallback of `_scale_geometry_coordinates` (returning the original
  geometry) cannot occur for the pure coordinate map and is not modelled.
- CIRCLE and ARC tessellation uses floating-point `cos`/`sin`. The rejection of
  non-finite or non-positive input is modelled; the polygon itself is a parameter
  (`curve`).
- pyproj and `to_crs` reprojection: only the identity for equal CRSs is modelled,
  and the preview's reprojected numbers are not computed (the plan names the CRS
  change).
- An empty Point (`"coordinates": []` in GeoJSON that is scaled) cannot be represented:
  every modelled Point holds one position, so `Geometry.IsEmpty` is false for it.
- IEEE arithmetic: coordinates and factors are exact reals, and finiteness is a
  property of the input.
- Concurrency, FastAPI routing, CORS, `BackgroundTasks` and `asyncio.sleep`. Each
  background task runs atomically. Its intermediate progress values (10, 30, 50, 70,
  80) therefore never appear in the table; only the final record is stored.
- uuid generation and file-system access are parameters: the new id, the sets of
  existing and readable paths, and the outcomes of loading, converting and saving.
- `JobRegistry.JobRegistry.ProcessDxfFile`: the conversion itself is an outcome
  parameter, not linked to `ExtractGeometriesByLayer`. A failure before the
  conversion call (at progress 10 or 30) is not modelled.
- Log messages, the `suggestion` texts of HTTP errors, and the number formatting
  inside job messages: messages are a datatype carrying the numbers.
- `JobRegistry.Lower`, `JobRegistry.LowerChar`: model `str.lower()` on ASCII letters only.
- The generic 500 answers when an unexpected exception escapes a handler
  (backend/main.py:226-228, 388-393) are not modelled.
- The default filling in `get_job_status`: every modelled record always carries the
  `scale_factor` and `parent_job_id` fields.
- With skipping off, an entity that fails conversion is counted as skipped before
  the exception is raised. That count is never observed.
