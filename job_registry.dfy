/**
 * The in-memory `jobs` table of the API server and the handlers that read and update
 * it: upload, job status, preview, download, reprojection and scale-factor requests,
 * and the two background tasks that run a conversion or a scaled conversion to its
 * end. File-system checks are sets of existing (or readable) paths, job ids arrive as
 * parameters, and the outcome of each step that only does I/O is an `Outcome`
 * parameter.
 */
module JobRegistry {
  import opened Wrappers
  import opened Numbers
  import opened ScaleRequest
  import Geometry
  import CrsNaming
  import ScaleGeoJson

  datatype JobStatus = Pending | Processing | Completed | Failed

  /** The status value as stored in a record and shown in messages. */
  function StatusName(s: JobStatus): string
  {
    match s
    case Pending => "pending"
    case Processing => "processing"
    case Completed => "completed"
    case Failed => "failed"
  }

  /** Why a scaled conversion ended in FAILED; the text follows "Scale factor application failed: ". */
  datatype ScaleFailure =
    | ParentNotFound(parent: Option<string>)       // "Parent job ... not found"
    | NoOutputPath                                 // "Original job has no output path"
    | OriginalOutputMissing(path: string)          // "Original output file not found: ..."
    | ReadFailed(reason: string)                   // invalid JSON or unreadable file
    | NotAnObject                                  // "Original file is not a valid GeoJSON object"
    | NotAFeatureCollection                        // "Original file is not a FeatureCollection"
    | NoFeaturesArray                              // "Original file does not contain valid features array"
    | InvalidScaleFactor(given: Option<real>)       // "Invalid scale factor: ..."
    | FactorOutOfRange(value: real)                 // "Scale factor ... is outside valid range (0.9-1.1)"
    | TransformationFailed(error: ScaleGeoJson.ScaleError)  // "Scale factor transformation failed: ..."
    | SaveFailed(reason: string)                   // writing, creating or filling the output failed

  /** The `message` of a record; texts that embed a float keep the number instead. */
  datatype Message =
    | UploadedSuccessfully                         // "File uploaded successfully"
    | Reprojecting                                 // "Reprojecting to new coordinate system..."
    | ApplyingScaleFactor(factor: Option<real>)    // "Applying scale factor ...."
    | StartingDxfProcessing                        // "Starting DXF processing..."
    | ParsingDxf                                   // "Parsing DXF file..."
    | ConvertingGeometries                         // "Converting geometries..."
    | GeneratingOutput                             // "Generating output file..."
    | ConversionCompleted                          // "Conversion completed successfully!"
    | ProcessingFailed(reason: string)             // "Processing failed: ..."
    | InitializingScale                            // "Initializing scale factor application..."
    | LoadingOriginal                              // "Loading original conversion..."
    | SavingScaledOutput                           // "Saving scaled output..."
    | ScaleApplied(applied: real)                   // "Scale factor ... applied successfully!"
    | ScaleFailed(failure: ScaleFailure)           // "Scale factor application failed: ..."

  /** One record of the `jobs` table; a missing `output_path` key is `None`. */
  datatype Job = Job(
    status: JobStatus,
    filename: string,
    targetCrs: string,
    outputFormat: string,
    filePath: string,
    progress: int,
    message: Message,
    outputPath: Option<string>,
    scaleFactor: Option<real>,
    parentJobId: Option<string>)

  /** An `HTTPException`, or the 422 answer FastAPI gives when the request body is invalid. */
  datatype HttpError = Refused(status: nat, detail: string) | Unprocessable(errors: seq<RequestError>)

  /** The outcome of a step that only does I/O or calls code outside this model. */
  datatype Outcome = Succeeded | Raised(reason: string)

  /** What `get_job_status` returns: a copy of the record with `job_id` added. */
  datatype JobView = JobView(jobId: string, job: Job)

  /** What `preview_result` serves: the stored file, or the file reprojected to WGS84 with a new `crs` member. */
  datatype PreviewPlan =
    | AsStored(path: string)
    | ReprojectedForMap(path: string, fromCrs: string, crs: CrsNaming.CrsMember)

  /** The `FileResponse` of `download_result`. */
  datatype FileDownload = FileDownload(path: string, mediaType: string, filename: string, disposition: string)

  /** The answer of `apply_scale_factor`: the new job and the factor it will apply. */
  datatype ScaleAck = ScaleAck(jobId: string, scaleFactor: real)

  const DefaultTargetCrs: string := "EPSG:4326"
  const DefaultOutputFormat: string := "geojson"
  const MapCrs: string := "EPSG:4326"
  /** "urn:ogc:def:crs:EPSG::4326", the name the preview puts in its `crs` member. */
  const MapCrsUrn: string := CrsNaming.UrnPrefix + "4326"

  // ---------------------------------------------------------------------------
  // Names and paths

  /** Python's `str.lower` on ASCII letters; every other character is kept. */
  function LowerChar(c: char): (d: char)
    ensures 'A' <= c <= 'Z' ==> d as int == c as int + 32
    ensures !('A' <= c <= 'Z') ==> d == c
  {
    if 'A' <= c <= 'Z' then (c as int + 32) as char else c
  }

  function Lower(s: string): (t: string)
    ensures |t| == |s|
    ensures forall i :: 0 <= i < |s| ==> t[i] == LowerChar(s[i])
  {
    if |s| == 0 then "" else Lower(s[..|s| - 1]) + [LowerChar(s[|s| - 1])]
  }

  predicate EndsWith(s: string, suffix: string)
  {
    |suffix| <= |s| && s[|s| - |suffix|..] == suffix
  }

  /** The upload check `filename.lower().endswith('.dxf')`. */
  predicate IsDxfFilename(name: string)
  {
    EndsWith(Lower(name), ".dxf")
  }

  /** Whitespace as `str.strip()` removes it. */
  predicate IsSpace(c: char)
  {
    c in {' ', '\t', '\n', '\r', '\U{000B}', '\U{000C}', '\U{001C}', '\U{001D}', '\U{001E}', '\U{001F}',
          '\U{0085}', '\U{00A0}', '\U{1680}', '\U{2028}', '\U{2029}', '\U{202F}', '\U{205F}', '\U{3000}'}
    || '\U{2000}' <= c <= '\U{200A}'
  }

  /** `not s or s.strip() == ""`: the string is empty or all whitespace. */
  predicate IsBlank(s: string)
  {
    forall i :: 0 <= i < |s| ==> IsSpace(s[i])
  }

  /** Index of the last `c` in `s`, or -1 (`str.rfind`). */
  function RFind(s: string, c: char): (i: int)
    ensures -1 <= i < |s|
    ensures i >= 0 ==> s[i] == c
    ensures forall j :: i < j < |s| ==> s[j] != c
  {
    if |s| == 0 then -1
    else if s[|s| - 1] == c then |s| - 1
    else RFind(s[..|s| - 1], c)
  }

  predicate OnlyDots(s: string)
  {
    forall i :: 0 <= i < |s| ==> s[i] == '.'
  }

  /**
   * `os.path.splitext` on POSIX paths: the extension starts at the last dot of the
   * last path component, unless everything before that dot in the component is dots.
   */
  function SplitExt(p: string): (r: (string, string))
    ensures r.0 + r.1 == p
  {
    var sep := RFind(p, '/');
    var dot := RFind(p, '.');
    if dot > sep && !OnlyDots(p[sep + 1..dot]) then (p[..dot], p[dot..]) else (p, "")
  }

  /** A slice holds only dots exactly when each of its characters in `s` is a dot. */
  lemma OnlyDotsSlice(s: string, i: int, j: int)
    requires 0 <= i <= j <= |s|
    ensures OnlyDots(s[i..j]) <==> forall k :: i <= k < j ==> s[k] == '.'
  {
    assert forall k :: i <= k < j ==> s[i..j][k - i] == s[k];
  }

  /**
   * `splitext` splits off nothing exactly when the last path component has no dot, or
   * only dots before its last dot; the root is then the whole path.
   */
  lemma SplitExtNoExtension(p: string)
    ensures SplitExt(p).1 == "" <==>
              RFind(p, '.') <= RFind(p, '/') || forall k :: RFind(p, '/') < k < RFind(p, '.') ==> p[k] == '.'
    ensures SplitExt(p).1 == "" ==> SplitExt(p).0 == p
  {
    var sep := RFind(p, '/');
    var dot := RFind(p, '.');
    if dot > sep {
      OnlyDotsSlice(p, sep + 1, dot);
    }
  }

  /** A non-empty extension is a dot followed by neither dots nor slashes. */
  lemma SplitExtExtensionShape(p: string)
    ensures SplitExt(p).1 != "" ==>
              && SplitExt(p).1[0] == '.'
              && forall k :: 1 <= k < |SplitExt(p).1| ==> SplitExt(p).1[k] != '.' && SplitExt(p).1[k] != '/'
  {
    var dot := RFind(p, '.');
    if SplitExt(p).1 != "" {
      var ext := p[dot..];
      assert SplitExt(p).1 == ext;
      assert forall k :: 1 <= k < |ext| ==> ext[k] == p[dot + k];
    }
  }

  /** Lower-casing yields a given lower-case letter exactly from that letter or its capital. */
  lemma LowerCharIsLetter(c: char, l: char)
    requires 'a' <= l <= 'z'
    ensures LowerChar(c) == l <==> c == l || c as int == l as int - 32
  {
  }

  /**
   * The upload check ignores letter case: a name passes exactly when it ends in a dot
   * followed by d, x, f in either case.
   */
  lemma DxfSuffixIgnoresCase(name: string)
    ensures IsDxfFilename(name) <==>
              && |name| >= 4
              && name[|name| - 4] == '.'
              && (name[|name| - 3] == 'd' || name[|name| - 3] == 'D')
              && (name[|name| - 2] == 'x' || name[|name| - 2] == 'X')
              && (name[|name| - 1] == 'f' || name[|name| - 1] == 'F')
  {
    var n := |name|;
    var low := Lower(name);
    if n >= 4 {
      LowerCharIsLetter(name[n - 3], 'd');
      LowerCharIsLetter(name[n - 2], 'x');
      LowerCharIsLetter(name[n - 1], 'f');
      assert low[n - 4..] == [low[n - 4], low[n - 3], low[n - 2], low[n - 1]];
      assert ".dxf" == ['.', 'd', 'x', 'f'];
    }
  }

  /** The name `download_result` gives the file. */
  function DownloadName(filename: string, format: string): string
  {
    SplitExt(filename).0 + "_converted." + format
  }

  /**
   * For every name the upload accepts whose last path component has a character
   * other than a dot before the extension, the download name replaces the ".dxf"
   * extension (in whatever case) by "_converted." and the format.
   */
  lemma DownloadNameOfDxfUpload(name: string, format: string)
    requires IsDxfFilename(name)
    requires exists k :: RFind(name, '/') < k < |name| - 4 && name[k] != '.'
    ensures DownloadName(name, format) == name[..|name| - 4] + "_converted." + format
  {
    DxfSuffixIgnoresCase(name);
    DxfExtensionPosition(name);
    SplitExtAtLastDot(name, |name| - 4);
  }

  /** In a name ending in a dot and d, x, f in either case, the last dot starts the ".dxf" and no slash follows it. */
  lemma DxfExtensionPosition(name: string)
    requires |name| >= 4 && name[|name| - 4] == '.'
    requires name[|name| - 3] in {'d', 'D'} && name[|name| - 2] in {'x', 'X'} && name[|name| - 1] in {'f', 'F'}
    ensures RFind(name, '.') == |name| - 4 && RFind(name, '/') < |name| - 4
  {
    var n := |name|;
    assert forall j :: n - 4 < j < n ==> name[j] != '.' && name[j] != '/';
    RFindLastOccurrence(name, '.', n - 4);
    RFindBefore(name, '/', n - 4);
  }

  /** `splitext` cuts at the last dot when the component before it is not all dots. */
  lemma SplitExtAtLastDot(p: string, dot: int)
    requires 0 <= dot < |p| && RFind(p, '.') == dot && RFind(p, '/') < dot
    requires exists k :: RFind(p, '/') < k < dot && p[k] != '.'
    ensures SplitExt(p) == (p[..dot], p[dot..])
  {
    var sep := RFind(p, '/');
    var k :| sep < k < dot && p[k] != '.';
    NotOnlyDots(p, sep + 1, dot, k);
  }

  /** `rfind` finds an occurrence that no later character repeats. */
  lemma RFindLastOccurrence(s: string, c: char, i: int)
    requires 0 <= i < |s| && s[i] == c
    requires forall j :: i < j < |s| ==> s[j] != c
    ensures RFind(s, c) == i
  {
  }

  /** `rfind` of a character absent from a suffix lands before it. */
  lemma RFindBefore(s: string, c: char, i: int)
    requires 0 <= i <= |s|
    requires forall j :: i <= j < |s| ==> s[j] != c
    ensures RFind(s, c) < i
  {
  }

  lemma NotOnlyDots(s: string, i: int, j: int, k: int)
    requires 0 <= i <= k < j <= |s| && s[k] != '.'
    ensures !OnlyDots(s[i..j])
  {
    assert s[i..j][k - i] == s[k];
  }

  function MediaType(format: string): string
  {
    if format == "geojson" then "application/json" else "application/zip"
  }

  function UploadPath(jobId: string, filename: string): string
  {
    "uploads/" + jobId + "_" + filename
  }

  function ConvertedOutputPath(jobId: string, format: string): string
  {
    "outputs/" + jobId + "_converted." + format
  }

  function ScaledOutputPath(jobId: string, format: string): string
  {
    "outputs/" + jobId + "_scaled." + format
  }

  /** Python's `requested or original`: an absent or empty requested format falls back. */
  function EffectiveFormat(requested: Option<string>, original: string): string
  {
    if requested.Some? && requested.value != "" then requested.value else original
  }

  function OrDefault(v: Option<string>, default: string): string
  {
    if v.Some? then v.value else default
  }

  /** The record has an `output_path` that is non-empty and names an existing file. */
  predicate HasOutputFile(job: Job, files: set<string>)
  {
    job.outputPath.Some? && job.outputPath.value != "" && job.outputPath.value in files
  }

  /** The `crs` name the preview writes is the URN that the converter derives for WGS84. */
  lemma MapCrsUrnIsDerived()
    ensures CrsNaming.UrnFor(MapCrs) == MapCrsUrn
  {
    assert "EPSG:" + "4326" == MapCrs;
    CrsNaming.CrsRoundTrip("4326");
  }

  // ---------------------------------------------------------------------------
  // The background scaled conversion, as a function of the table and the I/O outcomes

  /** Why `apply_scale_to_geojson` would raise on this input, if it would. */
  function TransformError(data: ScaleGeoJson.GeoJsonData, factor: real, format: string): (e: Option<ScaleGeoJson.ScaleError>)
    ensures e.None? <==>
              ScaleGeoJson.AcceptableInput(data, Number(Finite(factor)), format) &&
              ScaleGeoJson.NonNullRows(data.features.items) != []
  {
    var guard := ScaleGeoJson.Validate(data, Number(Finite(factor)), format);
    if guard.Some? then guard
    else if ScaleGeoJson.NonNullRows(data.features.items) == [] then Some(ScaleGeoJson.AllGeometriesNull)
    else None
  }

  /**
   * The conditions under which `process_scaled_conversion` completes: the parent job
   * exists and has an output file, the loaded file is a FeatureCollection with a
   * features array, the job carries a factor in [0.9, 1.1], the transformation accepts
   * the data, and the output is saved.
   */
  predicate ScaleJobSucceeds(jobs: map<string, Job>, jobId: string, files: set<string>,
                             loaded: Result<ScaleGeoJson.GeoJsonData, string>, save: Outcome)
    requires jobId in jobs
  {
    var job := jobs[jobId];
    && job.parentJobId.Some? && job.parentJobId.value != "" && job.parentJobId.value in jobs
    && HasOutputFile(jobs[job.parentJobId.value], files)
    && loaded.Ok? && loaded.value.Dict?
    && loaded.value.typeTag == Some("FeatureCollection") && loaded.value.features.FeatureList?
    && job.scaleFactor.Some? && MinFactor <= job.scaleFactor.value <= MaxFactor
    && TransformError(loaded.value, job.scaleFactor.value, job.outputFormat).None?
    && save.Succeeded?
  }

  /** The first failing step of `process_scaled_conversion`, or `None` when it completes. */
  function ScaleJobFailure(jobs: map<string, Job>, jobId: string, files: set<string>,
                           loaded: Result<ScaleGeoJson.GeoJsonData, string>, save: Outcome): (f: Option<ScaleFailure>)
    requires jobId in jobs
    ensures f.None? <==> ScaleJobSucceeds(jobs, jobId, files, loaded, save)
  {
    var job := jobs[jobId];
    var parent := job.parentJobId;
    if parent.None? || parent.value == "" || parent.value !in jobs then Some(ParentNotFound(parent))
    else if jobs[parent.value].outputPath.None? || jobs[parent.value].outputPath.value == "" then Some(NoOutputPath)
    else if jobs[parent.value].outputPath.value !in files then Some(OriginalOutputMissing(jobs[parent.value].outputPath.value))
    else if loaded.Err? then Some(ReadFailed(loaded.error))
    else if !loaded.value.Dict? then Some(NotAnObject)
    else if loaded.value.typeTag != Some("FeatureCollection") then Some(NotAFeatureCollection)
    else if !loaded.value.features.FeatureList? then Some(NoFeaturesArray)
    else ScaleStepFailure(job.scaleFactor, loaded.value, job.outputFormat, save)
  }

  /** The first failing step once the original file is loaded: the factor checks, the transformation, the save. */
  function ScaleStepFailure(factor: Option<real>, data: ScaleGeoJson.GeoJsonData, format: string, save: Outcome)
    : (f: Option<ScaleFailure>)
    ensures f.None? <==>
              && factor.Some? && MinFactor <= factor.value <= MaxFactor
              && TransformError(data, factor.value, format).None? && save.Succeeded?
  {
    if factor.None? then Some(InvalidScaleFactor(factor))
    else if !(MinFactor <= factor.value <= MaxFactor) then Some(FactorOutOfRange(factor.value))
    else if TransformError(data, factor.value, format).Some? then
      Some(TransformationFailed(TransformError(data, factor.value, format).value))
    else if save.Raised? then Some(SaveFailed(save.reason))
    else None
  }

  /**
   * The steps of `process_scaled_conversion` after the original file is loaded and
   * checked: the factor checks, `apply_scale_to_geojson` and saving the result.
   */
  method ScaleLoaded(factor: Option<real>, data: ScaleGeoJson.GeoJsonData, format: string,
                     shp: Geometry.Shapely, save: Outcome)
    returns (failure: Option<ScaleFailure>)
    ensures failure == ScaleStepFailure(factor, data, format, save)
  {
    if factor.None? {
      return Some(InvalidScaleFactor(factor));
    }
    var f := factor.value;
    if !(MinFactor <= f <= MaxFactor) {
      return Some(FactorOutOfRange(f));
    }
    var scaled, _ := ScaleGeoJson.ApplyScaleToGeoJson(data, Number(Finite(f)), format, shp);
    if scaled.Err? {
      return Some(TransformationFailed(scaled.error));
    }
    if save.Raised? {
      return Some(SaveFailed(save.reason));
    }
    failure := None;
  }

  // ---------------------------------------------------------------------------
  // The table

  /**
   * A record as the handlers keep it, given the ids of its table: progress is a
   * percentage; a completed job has progress 100 and an output path; a parent link
   * names a job of the table; a scale job carries a factor in [0.9, 1.1] and the
   * format "geojson".
   */
  predicate WellFormedJob(job: Job, ids: set<string>)
  {
    && 0 <= job.progress <= 100
    && (job.status == Completed ==> job.progress == 100 && job.outputPath.Some?)
    && (job.parentJobId.Some? ==> job.parentJobId.value in ids)
    && (job.scaleFactor.Some? ==> MinFactor <= job.scaleFactor.value <= MaxFactor && job.outputFormat == "geojson")
  }

  predicate WellFormedTable(jobs: map<string, Job>)
  {
    forall id :: id in jobs ==> WellFormedJob(jobs[id], jobs.Keys)
  }

  /** Storing a record that is well formed for the grown table keeps the table well formed. */
  lemma StoreKeepsWellFormed(jobs: map<string, Job>, id: string, job: Job)
    requires WellFormedTable(jobs)
    requires WellFormedJob(job, jobs.Keys + {id})
    ensures WellFormedTable(jobs[id := job])
  {
  }

  /**
   * In a well-formed table the checks that `process_scaled_conversion` repeats are
   * never the ones that fail: the factor is always in range, and the transformation
   * can only refuse an empty features array or one whose geometries are all null.
   */
  lemma ScaledConversionRechecksNeverFail(jobs: map<string, Job>, jobId: string, files: set<string>,
                                          loaded: Result<ScaleGeoJson.GeoJsonData, string>, save: Outcome)
    requires WellFormedTable(jobs) && jobId in jobs
    ensures var f := ScaleJobFailure(jobs, jobId, files, loaded, save);
            f.Some? ==> && !f.value.FactorOutOfRange?
                        && (f.value.TransformationFailed? ==>
                              f.value.error in {ScaleGeoJson.NoFeatures, ScaleGeoJson.AllGeometriesNull})
  {
  }

  class JobRegistry {
    var jobs: map<string, Job>

    /** The invariant every handler keeps: each record is well formed for this table. */
    ghost predicate Valid()
      reads this
    {
      WellFormedTable(jobs)
    }

    constructor()
      ensures Valid()
      ensures jobs == map[]
    {
      jobs := map[];
    }

    /**
     * The guards shared by `preview_result` and `download_result`: the job exists, it
     * is COMPLETED, and its `output_path` names an existing file.
     */
    function CompletedOutput(jobId: string, files: set<string>): (r: Result<string, HttpError>)
      reads this
      ensures r.Ok? <==> jobId in jobs && jobs[jobId].status == Completed && HasOutputFile(jobs[jobId], files)
      ensures r.Ok? ==> r.value == jobs[jobId].outputPath.value && r.value in files
      ensures r == Err(Refused(404, "Job not found")) <==> jobId !in jobs
      ensures r == Err(Refused(400, "Job not completed")) <==> jobId in jobs && jobs[jobId].status != Completed
      ensures r == Err(Refused(404, "Output file not found")) <==>
                jobId in jobs && jobs[jobId].status == Completed && !HasOutputFile(jobs[jobId], files)
      ensures r.Err? ==> r.error.Refused? && r.error.status in {400, 404}
    {
      if jobId !in jobs then Err(Refused(404, "Job not found"))
      else if jobs[jobId].status != Completed then Err(Refused(400, "Job not completed"))
      else if !HasOutputFile(jobs[jobId], files) then Err(Refused(404, "Output file not found"))
      else Ok(jobs[jobId].outputPath.value)
    }

    /** The refusal `apply_scale_factor` answers with, checked in the order of the source; `None` when it creates the job. */
    function ScaleRequestRefusal(jobId: string, factor: FactorArg, format: Option<string>,
                                 files: set<string>, readable: set<string>): (e: Option<HttpError>)
      reads this
      ensures e.None? <==>
                && AcceptableFactor(factor) && AcceptableFormat(format)
                && !IsBlank(jobId) && jobId in jobs && jobs[jobId].status == Completed
                && HasOutputFile(jobs[jobId], files) && jobs[jobId].outputPath.value in readable
                && EffectiveFormat(format, jobs[jobId].outputFormat) == "geojson"
      ensures e.Some? && e.value.Unprocessable? <==> ParseRequest(factor, format).Err?
      ensures e.Some? && e.value.Refused? ==> e.value.status in {400, 404, 500}
      ensures ParseRequest(factor, format).Err? ==> e == Some(Unprocessable(ParseRequest(factor, format).error))
      ensures ParseRequest(factor, format).Ok? && IsBlank(jobId) ==> e == Some(Refused(400, "Invalid job ID format"))
      ensures ParseRequest(factor, format).Ok? && !IsBlank(jobId) ==>
                (e == Some(Refused(404, "Job not found")) <==> jobId !in jobs)
      ensures ParseRequest(factor, format).Ok? && !IsBlank(jobId) && jobId in jobs && jobs[jobId].status != Completed ==>
                e == Some(Refused(400, "Original job must be completed. Current status: " + StatusName(jobs[jobId].status)))
      ensures ParseRequest(factor, format).Ok? && !IsBlank(jobId) && jobId in jobs && jobs[jobId].status == Completed ==>
                var path := jobs[jobId].outputPath;
                && (path.None? || path.value == "" ==> e == Some(Refused(404, "Original conversion output path not found")))
                && (path.Some? && path.value != "" && path.value !in files ==>
                      e == Some(Refused(404, "Original conversion output file not found")))
                && (path.Some? && path.value in files - readable && path.value != "" ==>
                      e == Some(Refused(500, "Original conversion file is not accessible")))
                && (path.Some? && path.value in files * readable && path.value != "" &&
                    EffectiveFormat(format, jobs[jobId].outputFormat) != "geojson" ==>
                      e == Some(Refused(400, "Output format must be 'geojson'")))
    {
      var request := ParseRequest(factor, format);
      if request.Err? then Some(Unprocessable(request.error))
      else if IsBlank(jobId) then Some(Refused(400, "Invalid job ID format"))
      else if jobId !in jobs then Some(Refused(404, "Job not found"))
      else if jobs[jobId].status != Completed then
        Some(Refused(400, "Original job must be completed. Current status: " + StatusName(jobs[jobId].status)))
      else if jobs[jobId].outputPath.None? || jobs[jobId].outputPath.value == "" then
        Some(Refused(404, "Original conversion output path not found"))
      else if jobs[jobId].outputPath.value !in files then Some(Refused(404, "Original conversion output file not found"))
      else if jobs[jobId].outputPath.value !in readable then Some(Refused(500, "Original conversion file is not accessible"))
      else if EffectiveFormat(format, jobs[jobId].outputFormat) != "geojson" then
        Some(Refused(400, "Output format must be 'geojson'"))
      else None
    }

    /**
     * `upload_file`: refuses a name that does not end in ".dxf" in any letter case, or
     * a file that could not be saved; otherwise adds a PENDING record under `jobId`.
     */
    method Upload(jobId: string, filename: string, targetCrs: Option<string>, outputFormat: Option<string>, saved: bool)
      returns (r: Result<string, HttpError>)
      requires Valid()
      modifies this
      ensures Valid()
      ensures !IsDxfFilename(filename) ==> r == Err(Refused(400, "Only DXF files are supported")) && jobs == old(jobs)
      ensures IsDxfFilename(filename) && !saved ==>
                r == Err(Refused(500, "Failed to save uploaded file")) && jobs == old(jobs)
      ensures IsDxfFilename(filename) && saved ==>
                && r == Ok(jobId)
                && jobs == old(jobs)[jobId := Job(Pending, filename, OrDefault(targetCrs, DefaultTargetCrs),
                                                  OrDefault(outputFormat, DefaultOutputFormat),
                                                  UploadPath(jobId, filename), 0, UploadedSuccessfully,
                                                  None, None, None)]
      ensures IsDxfFilename(filename) && saved && jobId !in old(jobs) ==> |jobs| == |old(jobs)| + 1
    {
      if !EndsWith(Lower(filename), ".dxf") {
        return Err(Refused(400, "Only DXF files are supported"));
      }
      var filePath := UploadPath(jobId, filename);
      if !saved {
        return Err(Refused(500, "Failed to save uploaded file"));
      }
      var job := Job(Pending, filename, OrDefault(targetCrs, DefaultTargetCrs),
                     OrDefault(outputFormat, DefaultOutputFormat), filePath, 0,
                     UploadedSuccessfully, None, None, None);
      StoreKeepsWellFormed(jobs, jobId, job);
      jobs := jobs[jobId := job];
      r := Ok(jobId);
    }

    /** `get_job_status`: 404 for an unknown id, otherwise the record with its id. */
    method GetJobStatus(jobId: string) returns (r: Result<JobView, HttpError>)
      ensures r.Err? <==> jobId !in jobs
      ensures r.Err? ==> r.error == Refused(404, "Job not found")
      ensures r.Ok? ==> r.value.jobId == jobId && r.value.job == jobs[jobId]
    {
      if jobId !in jobs {
        return Err(Refused(404, "Job not found"));
      }
      r := Ok(JobView(jobId, jobs[jobId]));
    }

    /**
     * `preview_result`: after the shared guards, only GeoJSON can be previewed; output
     * stored in another CRS than WGS84 is reprojected to it and given the WGS84 `crs`
     * member.
     */
    method Preview(jobId: string, files: set<string>) returns (r: Result<PreviewPlan, HttpError>)
      ensures CompletedOutput(jobId, files).Err? ==> r == Err(CompletedOutput(jobId, files).error)
      ensures r.Ok? ==> CompletedOutput(jobId, files).Ok? && jobs[jobId].outputFormat == "geojson"
      ensures r.Ok? ==> r.value.path == jobs[jobId].outputPath.value
      ensures r.Ok? ==> (r.value.AsStored? <==> jobs[jobId].targetCrs == MapCrs)
      ensures r.Ok? && r.value.ReprojectedForMap? ==>
                r.value.fromCrs == jobs[jobId].targetCrs &&
                r.value.crs == CrsNaming.CrsMember(Some("name"), Some(MapCrsUrn))
      ensures CompletedOutput(jobId, files).Ok? && jobs[jobId].outputFormat != "geojson" ==>
                r == Err(Refused(400, "Preview only available for GeoJSON"))
    {
      var guard := CompletedOutput(jobId, files);
      if guard.Err? {
        return Err(guard.error);
      }
      var job := jobs[jobId];
      if job.outputFormat != "geojson" {
        return Err(Refused(400, "Preview only available for GeoJSON"));
      }
      if job.targetCrs != MapCrs {
        r := Ok(ReprojectedForMap(guard.value, job.targetCrs,
                                  CrsNaming.CrsMember(Some("name"), Some(MapCrsUrn))));
      } else {
        r := Ok(AsStored(guard.value));
      }
    }

    /**
     * `download_result`: after the shared guards, serves the output under the uploaded
     * name with "_converted." and the format in place of its extension.
     */
    method Download(jobId: string, files: set<string>) returns (r: Result<FileDownload, HttpError>)
      ensures CompletedOutput(jobId, files).Err? ==> r == Err(CompletedOutput(jobId, files).error)
      ensures CompletedOutput(jobId, files).Ok? ==> r.Ok?
      ensures r.Ok? ==>
                var job := jobs[jobId];
                && r.value.path == job.outputPath.value
                && r.value.filename == DownloadName(job.filename, job.outputFormat)
                && (r.value.mediaType == "application/json" <==> job.outputFormat == "geojson")
                && r.value.disposition == "attachment; filename=\"" + r.value.filename + "\""
    {
      var guard := CompletedOutput(jobId, files);
      if guard.Err? {
        return Err(guard.error);
      }
      var job := jobs[jobId];
      var base := SplitExt(job.filename).0;
      var name := base + "_converted." + job.outputFormat;
      r := Ok(FileDownload(guard.value, MediaType(job.outputFormat), name, "attachment; filename=\"" + name + "\""));
    }

    /**
     * `reproject_file`: for a known job whose uploaded DXF file still exists, adds a
     * PENDING job under `newJobId` that converts the same file to `targetCrs`, linked
     * to its parent and without a scale factor.
     */
    method Reproject(jobId: string, newJobId: string, targetCrs: string, outputFormat: Option<string>, files: set<string>)
      returns (r: Result<string, HttpError>)
      requires Valid()
      modifies this
      ensures Valid()
      ensures jobId !in old(jobs) ==> r == Err(Refused(404, "Job not found")) && jobs == old(jobs)
      ensures jobId in old(jobs) && old(jobs)[jobId].filePath !in files ==>
                r == Err(Refused(404, "Original DXF file no longer available")) && jobs == old(jobs)
      ensures jobId in old(jobs) && old(jobs)[jobId].filePath in files ==>
                var original := old(jobs)[jobId];
                && r == Ok(newJobId)
                && jobs == old(jobs)[newJobId := Job(Pending, original.filename, targetCrs,
                                                     OrDefault(outputFormat, original.outputFormat),
                                                     original.filePath, 0, Reprojecting, None, None, Some(jobId))]
    {
      if jobId !in jobs {
        return Err(Refused(404, "Job not found"));
      }
      var original := jobs[jobId];
      if original.filePath !in files {
        return Err(Refused(404, "Original DXF file no longer available"));
      }
      var format := if outputFormat.None? then original.outputFormat else outputFormat.value;
      var job := Job(Pending, original.filename, targetCrs, format, original.filePath, 0,
                     Reprojecting, None, None, Some(jobId));
      StoreKeepsWellFormed(jobs, newJobId, job);
      jobs := jobs[newJobId := job];
      r := Ok(newJobId);
    }

    /**
     * `apply_scale_factor`: validates the request body and the original job, then adds
     * a PENDING job under `newJobId` that will scale the original's output; the
     * original record is left as it was.
     */
    method ApplyScaleFactor(jobId: string, factor: FactorArg, format: Option<string>, newJobId: string,
                            files: set<string>, readable: set<string>)
      returns (r: Result<ScaleAck, HttpError>)
      requires Valid()
      modifies this
      ensures Valid()
      ensures old(ScaleRequestRefusal(jobId, factor, format, files, readable)).Some? ==>
                && r == Err(old(ScaleRequestRefusal(jobId, factor, format, files, readable)).value)
                && jobs == old(jobs)
      ensures old(ScaleRequestRefusal(jobId, factor, format, files, readable)).None? ==>
                var original := old(jobs)[jobId];
                var f := factor.number.value;
                && r == Ok(ScaleAck(newJobId, f))
                && jobs == old(jobs)[newJobId := Job(Pending, original.filename, original.targetCrs,
                                                     EffectiveFormat(format, original.outputFormat),
                                                     original.filePath, 0, ApplyingScaleFactor(Some(f)),
                                                     None, Some(f), Some(jobId))]
                && (newJobId != jobId ==> jobs[jobId] == old(jobs)[jobId])
    {
      var refusal := ScaleRequestRefusal(jobId, factor, format, files, readable);
      if refusal.Some? {
        return Err(refusal.value);
      }
      var request := ParseRequest(factor, format).value;
      var original := jobs[jobId];
      var effective := EffectiveFormat(request.outputFormat, original.outputFormat);
      var job := Job(Pending, original.filename, original.targetCrs, effective,
                     original.filePath, 0, ApplyingScaleFactor(Some(request.scaleFactor)),
                     None, Some(request.scaleFactor), Some(jobId));
      StoreKeepsWellFormed(jobs, newJobId, job);
      jobs := jobs[newJobId := job];
      r := Ok(ScaleAck(newJobId, request.scaleFactor));
    }

    /**
     * `process_dxf_file`: walks a record through its processing steps. A failure of the
     * conversion or of saving the result marks it FAILED and leaves the progress of
     * the last step reached; otherwise it ends COMPLETED with its output path.
     */
    method ProcessDxfFile(jobId: string, conversion: Outcome, save: Outcome)
      requires Valid()
      modifies this
      ensures Valid()
      ensures jobId !in old(jobs) ==> jobs == old(jobs)
      ensures jobId in old(jobs) ==>
                var before := old(jobs)[jobId];
                && jobId in jobs
                && jobs == old(jobs)[jobId := jobs[jobId]]
                && (conversion.Raised? ==>
                      jobs[jobId] == before.(status := Failed, progress := 50,
                                             message := ProcessingFailed(conversion.reason)))
                && (conversion.Succeeded? && save.Raised? ==>
                      jobs[jobId] == before.(status := Failed, progress := 80,
                                             message := ProcessingFailed(save.reason)))
                && (conversion.Succeeded? && save.Succeeded? ==>
                      jobs[jobId] == before.(status := Completed, progress := 100, message := ConversionCompleted,
                                             outputPath := Some(ConvertedOutputPath(jobId, before.outputFormat))))
    {
      if jobId !in jobs {
        return;
      }
      var job := jobs[jobId];
      job := job.(status := Processing, progress := 10, message := StartingDxfProcessing);
      job := job.(progress := 30, message := ParsingDxf);
      job := job.(progress := 50, message := ConvertingGeometries);
      if conversion.Raised? {
        job := job.(status := Failed, message := ProcessingFailed(conversion.reason));
      } else {
        job := job.(progress := 80, message := GeneratingOutput);
        var outputPath := ConvertedOutputPath(jobId, job.outputFormat);
        if save.Raised? {
          job := job.(status := Failed, message := ProcessingFailed(save.reason));
        } else {
          job := job.(outputPath := Some(outputPath), progress := 100, status := Completed,
                      message := ConversionCompleted);
        }
      }
      StoreKeepsWellFormed(jobs, jobId, job);
      jobs := jobs[jobId := job];
    }

    /**
     * `process_scaled_conversion`: loads the parent's output, checks it and the job's
     * factor, applies the factor and saves the result. It ends either COMPLETED with
     * progress 100 and the scaled output path, or FAILED with progress 0 and the reason
     * of the first step that failed; no other record changes.
     */
    method ProcessScaledConversion(jobId: string, files: set<string>, loaded: Result<ScaleGeoJson.GeoJsonData, string>,
                                   shp: Geometry.Shapely, save: Outcome)
      requires Valid()
      modifies this
      ensures Valid()
      ensures jobId !in old(jobs) ==> jobs == old(jobs)
      ensures jobId in old(jobs) ==>
                var before := old(jobs)[jobId];
                var failure := ScaleJobFailure(old(jobs), jobId, files, loaded, save);
                && jobId in jobs
                && jobs == old(jobs)[jobId := jobs[jobId]]
                && (failure.None? ==>
                      jobs[jobId] == before.(status := Completed, progress := 100,
                                             message := ScaleApplied(before.scaleFactor.value),
                                             outputPath := Some(ScaledOutputPath(jobId, before.outputFormat))))
                && (failure.Some? ==>
                      jobs[jobId] == before.(status := Failed, progress := 0, message := ScaleFailed(failure.value)))
    {
      if jobId !in jobs {
        return;
      }
      var job := jobs[jobId];
      job := job.(status := Processing, progress := 10, message := InitializingScale);
      var parent := job.parentJobId;
      var failure: Option<ScaleFailure> := None;
      if parent.None? || parent.value == "" || parent.value !in jobs {
        failure := Some(ParentNotFound(parent));
      } else if jobs[parent.value].outputPath.None? || jobs[parent.value].outputPath.value == "" {
        failure := Some(NoOutputPath);
      } else if jobs[parent.value].outputPath.value !in files {
        failure := Some(OriginalOutputMissing(jobs[parent.value].outputPath.value));
      } else {
        job := job.(progress := 20, message := LoadingOriginal);
        if loaded.Err? {
          failure := Some(ReadFailed(loaded.error));
        } else if !loaded.value.Dict? {
          failure := Some(NotAnObject);
        } else if loaded.value.typeTag != Some("FeatureCollection") {
          failure := Some(NotAFeatureCollection);
        } else if !loaded.value.features.FeatureList? {
          failure := Some(NoFeaturesArray);
        } else {
          job := job.(progress := 40, message := ApplyingScaleFactor(job.scaleFactor));
          failure := ScaleLoaded(job.scaleFactor, loaded.value, job.outputFormat, shp, save);
          if failure.None? {
            job := job.(outputPath := Some(ScaledOutputPath(jobId, job.outputFormat)), progress := 100,
                        status := Completed, message := ScaleApplied(job.scaleFactor.value));
          }
        }
      }
      if failure.Some? {
        job := job.(status := Failed, message := ScaleFailed(failure.value), progress := 0);
      }
      assert failure == ScaleJobFailure(jobs, jobId, files, loaded, save);
      StoreKeepsWellFormed(jobs, jobId, job);
      jobs := jobs[jobId := job];
    }
  }
}
