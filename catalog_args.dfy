/** The argument handling shared by the public functions of `catalog`: which
    options reach the backend, the key class of a layer type, and how `query`
    normalises its geometry and projection. */
module CatalogArgs {
  import opened Wrappers
  import opened PyStr
  import opened Types
  import opened GeoPyContext

  /** `if options: ... elif kwargs: ... else: {}`: a non-empty `options`
      dictionary wins, then non-empty keyword arguments, then nothing. */
  function SelectOptions(options: Option<Options>, kwargs: Options): (r: Options)
    ensures options.Some? && |options.value| > 0 ==> r == options.value
    ensures (options.None? || |options.value| == 0) ==> r == kwargs
  {
    if options.Some? && |options.value| > 0 then options.value
    else if |kwargs| > 0 then kwargs
    else map[]
  }

  /** The selected options are empty exactly when both sources are. */
  lemma SelectOptionsEmpty(options: Option<Options>, kwargs: Options)
    ensures |SelectOptions(options, kwargs)| == 0 <==> (options.None? || |options.value| == 0) && |kwargs| == 0
  {
  }

  /** An empty `options` dictionary is as good as none: it is falsy. */
  lemma EmptyOptionsAreAbsent(kwargs: Options)
    ensures SelectOptions(Some(map[]), kwargs) == SelectOptions(None, kwargs)
  {
  }

  /** `map_key_input(LayerType(rdd_type).value, True)`: the tiled key class of
      a layer type. It never raises, since a layer type is spatial or
      spacetime. */
  function KeyName(layerType: LayerType): (k: string)
    ensures MapKeyInput(layerType.Value(), true) == Ok(k)
    ensures k == (if layerType == Spatial then "SpatialKey" else "SpaceTimeKey")
  {
    MapKeyInput(layerType.Value(), true).value
  }

  /** The truth value of `query_geom`: `None` is falsy, a Shapely geometry is
      truthy unless it is empty, an `Extent` (a non-empty tuple) always is, and
      `bytes` are truthy unless empty. */
  predicate Truthy(g: QueryGeom): (b: bool)
    ensures b ==> !g.NoGeom?
    ensures g.ExtentGeom? ==> b
    ensures g.WkbGeom? ==> (b <==> g.wkb != [])
  {
    match g
    case NoGeom => false
    case Geom(shape) => |shape.coords| > 0
    case ExtentGeom(_) => true
    case WkbGeom(wkb) => |wkb| > 0
    case OtherValue(truthy) => truthy
  }

  /** The Shapely geometry types `query` accepts: `Point`, `Polygon` and
      `MultiPolygon`. */
  predicate SupportedShape(s: Shape) {
    s.kind == PointShape || s.kind == PolygonShape || s.kind == MultiPolygonShape
  }

  /** The WKB `query` hands to the reader for a truthy `query_geom`: the
      geometry's own WKB, that of an extent's polygon, or the bytes as given;
      anything else raises `TypeError`. */
  function GeometryPayload(codecs: Codecs, g: QueryGeom): (r: Result<Bytes, Error>)
    ensures r.Ok? <==> (g.Geom? && SupportedShape(g.shape)) || g.ExtentGeom? || g.WkbGeom?
    ensures r.Err? ==> r.error == UnsupportedGeometry(g)
    ensures g.WkbGeom? ==> r == Ok(g.wkb)
    ensures g.Geom? && SupportedShape(g.shape) ==> r == Ok(codecs.wkbDumps(g.shape))
    ensures g.ExtentGeom? ==> r == Ok(codecs.wkbDumps(codecs.toPoly(g.extent)))
  {
    match g
    case Geom(shape) =>
      if SupportedShape(shape) then Ok(codecs.wkbDumps(shape)) else Err(UnsupportedGeometry(g))
    case ExtentGeom(extent) => Ok(codecs.wkbDumps(codecs.toPoly(extent)))
    case WkbGeom(wkb) => Ok(wkb)
    case _ => Err(UnsupportedGeometry(g))
  }

  /** A supported geometry and its WKB select the same area. */
  lemma GeometryAsWkb(codecs: Codecs, s: Shape)
    requires SupportedShape(s)
    ensures GeometryPayload(codecs, Geom(s)) == GeometryPayload(codecs, WkbGeom(codecs.wkbDumps(s)))
  {
  }

  /** An extent selects the same area as its polygon, `Extent.to_poly`. */
  lemma ExtentAsPolygon(codecs: Codecs, e: Extent)
    requires codecs.toPoly(e).kind == PolygonShape
    ensures GeometryPayload(codecs, ExtentGeom(e)) == GeometryPayload(codecs, Geom(codecs.toPoly(e)))
  {
  }

  const EpsgPrefix := "EPSG:"

  /** `query_proj` as the reader receives it: "" for `None`, `"EPSG:" +
      str(code)` for an integer, and a string unchanged. The EPSG code can be
      read back from the result. */
  function NormalizeProj(proj: Proj): (r: string)
    ensures proj.NoProj? ==> r == ""
    ensures proj.ProjText? ==> r == proj.text
    ensures proj.ProjCode? ==> |r| > |EpsgPrefix| && r[..|EpsgPrefix|] == EpsgPrefix
                               && ParseInt(r[|EpsgPrefix|..]) == Some(proj.code)
  {
    match proj
    case NoProj => ""
    case ProjCode(code) =>
      var digits := IntToDecimal(code);
      IntRoundTrip(code);
      var r := EpsgPrefix + digits;
      assert r[..|EpsgPrefix|] == EpsgPrefix;
      assert r[|EpsgPrefix|..] == digits;
      r
    case ProjText(text) => text
  }

  /** Distinct EPSG codes give distinct projection strings. */
  lemma ProjCodeInjective(a: int, b: int)
    requires NormalizeProj(ProjCode(a)) == NormalizeProj(ProjCode(b))
    ensures a == b
  {
  }
}
