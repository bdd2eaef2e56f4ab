/**
 * `ScaleFactorRequest`, the body of `POST /api/apply-scale-factor/{job_id}`. pydantic
 * first reads `scale_factor` as a float and applies the field bounds `ge=0.9, le=1.1`,
 * then runs the `validate_scale_factor` validator (number, range, finite, positive);
 * `output_format` must match the pattern `^(geojson)$` and then passes the
 * `validate_output_format` validator. pydantic validates every field and reports the
 * errors of all fields that failed.
 */
module ScaleRequest {
  import opened Wrappers
  import opened Numbers

  const MinFactor: real := 0.9
  const MaxFactor: real := 1.1

  /** Why `scale_factor` was refused. */
  datatype FactorError =
    | NotAFloat            // pydantic cannot read the value as a float
    | OutsideFieldBounds   // the field constraint ge=0.9, le=1.1
    | MustBeANumber        // validator: "Scale factor must be a number"
    | MustBeInRange        // validator: "Scale factor must be between 0.9 and 1.1"
    | MustBeFinite         // validator: "Scale factor must be a finite number"
    | MustBePositive       // validator: "Scale factor must be greater than 0"

  /** Why `output_format` was refused. */
  datatype FormatError =
    | PatternMismatch      // the field pattern ^(geojson)$
    | MustBeGeoJson        // validator: 'Output format must be "geojson"'

  /** One entry of pydantic's error list. */
  datatype RequestError = FactorInvalid(factorError: FactorError) | FormatInvalid(formatError: FormatError)

  /** A request that passed validation. */
  datatype ScaleFactorRequest = ScaleFactorRequest(scaleFactor: real, outputFormat: Option<string>)

  /** A factor in the closed range [0.9, 1.1]; NaN and the infinities are not. */
  predicate AcceptableFactor(v: FactorArg)
  {
    v.Number? && v.number.Finite? && MinFactor <= v.number.value <= MaxFactor
  }

  /** The output formats the request admits: none at all, or "geojson". */
  predicate AcceptableFormat(f: Option<string>)
  {
    f == None || f == Some("geojson")
  }

  /**
   * `validate_scale_factor` as written: the number check, then the range check, then
   * finiteness, then positivity. Because the range check uses IEEE comparisons, NaN
   * and both infinities already fail it, and every value that passes it is positive:
   * the last two checks can never be the ones that refuse a value.
   */
  function ScaleFactorValidator(v: FactorArg): (r: Result<real, FactorError>)
    ensures r.Ok? <==> AcceptableFactor(v)
    ensures r.Ok? ==> r.value == v.number.value
    ensures r.Err? && v.Number? ==> r.error == MustBeInRange
    ensures r.Err? ==> r.error in {MustBeANumber, MustBeInRange}
  {
    if v.NotANumber? then Err(MustBeANumber)
    else if !Within(v.number, MinFactor, MaxFactor) then Err(MustBeInRange)
    else if !v.number.Finite? then Err(MustBeFinite)
    else if AtMostZero(v.number) then Err(MustBePositive)
    else Ok(v.number.value)
  }

  /**
   * The whole check of `scale_factor`: parsing as a float, the field bounds, then the
   * validator, which pydantic runs only when the field checks passed. The validator
   * never refuses a value the field checks let through.
   */
  function CheckFactor(v: FactorArg): (r: Result<real, FactorError>)
    ensures r.Ok? <==> AcceptableFactor(v)
    ensures r.Ok? ==> r.value == v.number.value
    ensures r.Err? ==> (r.error == NotAFloat <==> v.NotANumber?)
    ensures r.Err? ==> r.error in {NotAFloat, OutsideFieldBounds}
  {
    if v.NotANumber? then Err(NotAFloat)
    else if !Within(v.number, MinFactor, MaxFactor) then Err(OutsideFieldBounds)
    else ScaleFactorValidator(v)
  }

  /** `validate_output_format` as written. */
  function FormatValidator(f: Option<string>): (r: Result<Option<string>, FormatError>)
    ensures r.Ok? <==> AcceptableFormat(f)
    ensures r.Ok? ==> r.value == f
  {
    if f.Some? && f.value != "geojson" then Err(MustBeGeoJson) else Ok(f)
  }

  /**
   * The whole check of `output_format`: the anchored pattern admits exactly the string
   * "geojson", so the validator that follows never refuses anything.
   */
  function CheckFormat(f: Option<string>): (r: Result<Option<string>, FormatError>)
    ensures r.Ok? <==> AcceptableFormat(f)
    ensures r.Ok? ==> r.value == f
    ensures r.Err? ==> r.error == PatternMismatch
  {
    if f.Some? && f.value != "geojson" then Err(PatternMismatch) else FormatValidator(f)
  }

  /**
   * Building a `ScaleFactorRequest` from the body: accepted exactly when both fields
   * are acceptable; otherwise the error list names each field that failed, in field
   * order.
   */
  function ParseRequest(factor: FactorArg, format: Option<string>): (r: Result<ScaleFactorRequest, seq<RequestError>>)
    ensures r.Ok? <==> AcceptableFactor(factor) && AcceptableFormat(format)
    ensures r.Ok? ==> r.value.scaleFactor == factor.number.value && r.value.outputFormat == format
    ensures r.Ok? ==> MinFactor <= r.value.scaleFactor <= MaxFactor
    ensures r.Err? ==> 1 <= |r.error| <= 2
    ensures r.Err? ==> (r.error[0].FactorInvalid? <==> !AcceptableFactor(factor))
    ensures r.Err? ==> (FormatInvalid(PatternMismatch) in r.error <==> !AcceptableFormat(format))
  {
    var fr := CheckFactor(factor);
    var gr := CheckFormat(format);
    if fr.Ok? && gr.Ok? then Ok(ScaleFactorRequest(fr.value, gr.value))
    else Err((if fr.Err? then [FactorInvalid(fr.error)] else []) +
             (if gr.Err? then [FormatInvalid(gr.error)] else []))
  }
}
