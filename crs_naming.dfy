/**
 * CRS naming in `DXFProcessor.convert_dxf_to_gis` and `apply_scale_to_geojson`:
 * a target CRS such as "EPSG:8782" is written into the GeoJSON as the OGC URN
 * "urn:ogc:def:crs:EPSG::8782", and that URN is read back as "EPSG:8782".
 * Python's `sep in s` and `s.split(sep)[-1]` are modelled by `IndexOf` and `LastPiece`.
 */
module CrsNaming {
  import opened Wrappers
  import opened Geometry

  const UrnPrefix: string := "urn:ogc:def:crs:EPSG::"
  const UrnMarker: string := "EPSG::"

  /** True when `sep` occurs in `s` starting at index `j`. */
  predicate OccursAt(s: string, sep: string, j: int)
  {
    0 <= j && j + |sep| <= |s| && s[j..j + |sep|] == sep
  }

  /** The least index at or after `from` at which `sep` occurs in `s`, if any (Python's `s.find(sep, from)`). */
  function IndexFrom(s: string, sep: string, from: nat): (r: Option<nat>)
    requires |sep| > 0
    ensures r.Some? ==> from <= r.value && OccursAt(s, sep, r.value)
    ensures r.Some? ==> forall j :: from <= j < r.value ==> !OccursAt(s, sep, j)
    ensures r.None? ==> forall j :: from <= j ==> !OccursAt(s, sep, j)
    decreases |s| - from
  {
    if |s| < from + |sep| then None
    else if OccursAt(s, sep, from) then Some(from)
    else IndexFrom(s, sep, from + 1)
  }

  /** The least index at which `sep` occurs in `s`, if any. */
  function IndexOf(s: string, sep: string): (r: Option<nat>)
    requires |sep| > 0
    ensures r.Some? ==> OccursAt(s, sep, r.value)
    ensures r.Some? ==> forall j :: 0 <= j < r.value ==> !OccursAt(s, sep, j)
    ensures r.None? ==> forall j :: !OccursAt(s, sep, j)
  {
    IndexFrom(s, sep, 0)
  }

  /** Python's `sep in s`. */
  predicate Contains(s: string, sep: string)
    requires |sep| > 0
  {
    IndexOf(s, sep).Some?
  }

  /**
   * Where the last piece of `s.split(sep)` starts when `split` resumes its left-to-right,
   * non-overlapping scan at `from`: just after the last occurrence it finds, or `from` itself.
   */
  function LastPieceStart(s: string, sep: string, from: nat): (k: nat)
    requires |sep| > 0 && from <= |s|
    ensures from <= k <= |s|
    ensures forall j :: k <= j ==> !OccursAt(s, sep, j)
    ensures IndexFrom(s, sep, from).None? ==> k == from
    ensures IndexFrom(s, sep, from).Some? ==> from + |sep| <= k && OccursAt(s, sep, k - |sep|)
    decreases |s| - from
  {
    match IndexFrom(s, sep, from)
    case None => from
    case Some(i) => LastPieceStart(s, sep, i + |sep|)
  }

  /** An occurrence of `sep` in a suffix of `s` is an occurrence in `s`. */
  lemma OccursInSuffix(s: string, sep: string, d: nat, j: int)
    requires d <= |s| && OccursAt(s[d..], sep, j)
    ensures OccursAt(s, sep, d + j)
  {
    assert s[d..][j..j + |sep|] == s[d + j..d + j + |sep|];
  }

  /** Python's `s.split(sep)[-1]`: what follows the last occurrence of `sep`, or all of `s`. */
  function LastPiece(s: string, sep: string): (r: string)
    requires |sep| > 0
    ensures |r| <= |s| && r == s[|s| - |r|..]
    ensures !Contains(r, sep)
    ensures IndexOf(s, sep).None? ==> r == s
    ensures IndexOf(s, sep).Some? ==> |r| + |sep| <= |s| && s[|s| - |r| - |sep|..|s| - |r|] == sep
  {
    var k := LastPieceStart(s, sep, 0);
    var r := s[k..];
    assert IndexOf(s, sep) == IndexFrom(s, sep, 0);
    assert !Contains(r, sep) by {
      if Contains(r, sep) {
        OccursInSuffix(s, sep, k, IndexOf(r, sep).value);
        assert false;
      }
    }
    r
  }

  /** `target_crs.split(":")[-1] if ":" in target_crs else target_crs`. */
  function EpsgCode(target: string): string
  {
    if Contains(target, ":") then LastPiece(target, ":") else target
  }

  /** The URN that `convert_dxf_to_gis` writes for a target CRS. */
  function UrnFor(target: string): string
  {
    UrnPrefix + EpsgCode(target)
  }

  /** The GeoJSON `crs` member, `{"type": ..., "properties": {"name": ...}}`; a missing key is `None`. */
  datatype CrsMember = CrsMember(typeTag: Option<string>, name: Option<string>)

  /** The `crs` member that `convert_dxf_to_gis` attaches to its GeoJSON output. */
  function NamedCrs(target: string): CrsMember
  {
    CrsMember(Some("name"), Some(UrnFor(target)))
  }

  /**
   * The CRS `apply_scale_to_geojson` assigns to its frame from a `crs` member: when the
   * name (default "") contains "EPSG::", "EPSG:" followed by what comes after its last occurrence.
   */
  function FrameCrs(crs: CrsMember): Option<string>
  {
    var name := if crs.name.Some? then crs.name.value else "";
    if Contains(name, UrnMarker) then Some("EPSG:" + LastPiece(name, UrnMarker)) else None
  }

  /** `source_crs` if given and non-empty, otherwise the target (the legacy default). */
  function EffectiveSourceCrs(source: Option<string>, target: string): string
  {
    if source.Some? && source.value != "" then source.value else target
  }

  /**
   * `transform_coordinates`: identical CRS names return the input unchanged; otherwise
   * every present, non-empty geometry goes through the projection (pyproj, a parameter here).
   */
  function TransformCoordinates(geoms: seq<Option<Geometry>>, source: string, target: string,
                                project: Geometry -> Geometry): (r: seq<Option<Geometry>>)
    ensures |r| == |geoms|
    ensures source == target ==> r == geoms
    ensures forall i :: 0 <= i < |geoms| && (geoms[i].None? || IsEmpty(geoms[i].value)) ==> r[i] == geoms[i]
  {
    if source == target then geoms
    else seq(|geoms|, i requires 0 <= i < |geoms| =>
               if geoms[i].Some? && !IsEmpty(geoms[i].value) then Some(project(geoms[i].value)) else geoms[i])
  }

  // ---------------------------------------------------------------------------
  // Lemmas

  /**
   * Without a (non-empty) source CRS the conversion treats the data as already in the
   * target CRS, so reprojection leaves every geometry as it is; with a source CRS that
   * differs from the target, every present non-empty geometry is projected.
   */
  lemma MissingSourceCrsMeansNoReprojection(source: Option<string>, target: string,
                                            geoms: seq<Option<Geometry>>, project: Geometry -> Geometry)
    ensures source.None? || source.value == "" ==>
              TransformCoordinates(geoms, EffectiveSourceCrs(source, target), target, project) == geoms
    ensures source.Some? && source.value != "" && source.value != target ==>
              forall i :: 0 <= i < |geoms| && geoms[i].Some? && !IsEmpty(geoms[i].value) ==>
                TransformCoordinates(geoms, EffectiveSourceCrs(source, target), target, project)[i]
                  == Some(project(geoms[i].value))
  {
  }

  /** If `sep` first occurs at `i`, `IndexOf` finds `i`. */
  lemma IndexOfIsFirst(s: string, sep: string, i: nat)
    requires |sep| > 0
    requires OccursAt(s, sep, i)
    requires forall j :: 0 <= j < i ==> !OccursAt(s, sep, j)
    ensures IndexOf(s, sep) == Some(i)
  {
  }

  /** A string without ':' contains no separator that itself contains ':'. */
  lemma NoColonNoOccurrence(c: string, sep: string, k: nat)
    requires ':' !in c
    requires k < |sep| && sep[k] == ':'
    ensures !Contains(c, sep)
  {
    forall j
      ensures !OccursAt(c, sep, j)
    {
      if 0 <= j && j + |sep| <= |c| {
        assert c[j..j + |sep|][k] == c[j + k];
        assert c[j + k] in c;
      }
    }
  }

  /** A string in which ':' does not occur as a separator has no ':' character. */
  lemma NotContainsColon(s: string)
    requires !Contains(s, ":")
    ensures ':' !in s
  {
    forall k | 0 <= k < |s|
      ensures s[k] != ':'
    {
      assert s[k..k + 1] == [s[k]];
      assert !OccursAt(s, ":", k);
    }
  }

  /** The code derived from any target CRS is colon-free. */
  lemma EpsgCodeHasNoColon(target: string)
    ensures ':' !in EpsgCode(target)
  {
    if Contains(target, ":") {
      NotContainsColon(LastPiece(target, ":"));
    } else {
      NotContainsColon(target);
    }
  }

  /** A colon-free `c` is its own code: its last ':'-piece is itself. */
  lemma LastPieceOfColonFree(c: string, sep: string, k: nat)
    requires ':' !in c
    requires k < |sep| && sep[k] == ':'
    ensures LastPiece(c, sep) == c
  {
    NoColonNoOccurrence(c, sep, k);
  }

  /**
   * CRS naming round trip: for `"EPSG:" + c` with colon-free `c`, the derived code is `c`,
   * the URN is `"urn:ogc:def:crs:EPSG::" + c`, and reading that URN back yields `"EPSG:" + c`.
   */
  lemma CrsRoundTrip(c: string)
    requires ':' !in c
    ensures EpsgCode("EPSG:" + c) == c
    ensures UrnFor("EPSG:" + c) == UrnPrefix + c
    ensures FrameCrs(NamedCrs("EPSG:" + c)) == Some("EPSG:" + c)
  {
    var t := "EPSG:" + c;
    assert OccursAt(t, ":", 4);
    forall j | 0 <= j < 4
      ensures !OccursAt(t, ":", j)
    {
      assert t[j..j + 1] == [t[j]];
      assert t[j] == "EPSG"[j];
      assert ':' !in "EPSG";
    }
    IndexOfIsFirst(t, ":", 4);
    assert t[5..] == c;
    LastPieceOfColonFree(c, ":", 0);
    assert EpsgCode(t) == c;

    var u := UrnPrefix + c;
    assert OccursAt(u, UrnMarker, 16);
    forall j | 0 <= j < 16
      ensures !OccursAt(u, UrnMarker, j)
    {
      assert u[j] == UrnPrefix[j];
      assert 'E' !in UrnPrefix[..16];
      assert UrnPrefix[..16][j] == UrnPrefix[j];
      assert u[j..j + 6][0] == u[j];
    }
    IndexOfIsFirst(u, UrnMarker, 16);
    assert u[22..] == c;
    LastPieceOfColonFree(c, UrnMarker, 4);
  }

  /**
   * Whatever the target CRS string, reading back the URN written for it gives
   * `"EPSG:" + EpsgCode(target)`, and that code survives a second naming unchanged.
   */
  lemma NamedCrsReadsBackAsEpsg(target: string)
    ensures FrameCrs(NamedCrs(target)) == Some("EPSG:" + EpsgCode(target))
    ensures EpsgCode("EPSG:" + EpsgCode(target)) == EpsgCode(target)
  {
    EpsgCodeHasNoColon(target);
    CrsRoundTrip(EpsgCode(target));
  }
}
