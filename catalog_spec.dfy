/** What the functions of `geopyspark.geotrellis.catalog` do, as functions
    from the state of the module's two caches and the JVM call trace to a
    result and a new state. The class `Catalog.Catalog` is proved to follow
    these functions step by step; the lemmas here state the behaviour the
    module promises. */
module CatalogSpec {
  import opened Wrappers
  import opened UrlParse
  import opened PyStr
  import opened Types
  import opened CatalogAddress
  import opened CatalogArgs

  /** An entry of `_mapped_cached`: the attribute store, layer reader, value
      reader and layer writer built for a URI. */
  datatype Cached = Cached(store: Handle, reader: Handle, valueReader: Handle, writer: Handle)

  /** `_mapped_cached` (by URI), `_mapped_bounds` (by layer name and zoom)
      and the JVM calls made so far. */
  datatype State = State(bundles: map<string, Cached>, bounds: map<(string, int), Bounds>, calls: seq<Call>)

  /** `st2` keeps all that `st` has: the trace only grows and no cache entry
      is removed or replaced. */
  predicate Grows(st: State, st2: State) {
    && st.calls <= st2.calls
    && (forall u :: u in st.bundles ==> u in st2.bundles && st2.bundles[u] == st.bundles[u])
    && (forall k :: k in st.bounds ==> k in st2.bounds && st2.bounds[k] == st.bounds[k])
  }

  /** One call into the JVM: it is appended to the trace, and it either
      throws or returns the object named by its trace position. */
  function InvokeSpec(st: State, jvm: Jvm, c: Call): (Result<Handle, Error>, State) {
    var at := |st.calls|;
    (if jvm.raises(at, c) then Err(JvmError(at)) else Ok(at), st.(calls := st.calls + [c]))
  }

  /** The index of the first of `cs` that throws when they are made one after
      the other from trace position `at`, or `|cs|` when none does. */
  function FirstRaise(jvm: Jvm, at: nat, cs: seq<Call>): (k: nat)
    ensures k <= |cs|
    ensures forall i :: 0 <= i < k ==> !jvm.raises(at + i, cs[i])
    ensures k < |cs| ==> jvm.raises(at + k, cs[k])
    decreases |cs|
  {
    if |cs| == 0 then 0
    else if jvm.raises(at, cs[0]) then 0
    else 1 + FirstRaise(jvm, at + 1, cs[1..])
  }

  /** `FirstRaise` is the `k` with no throw before it and a throw at it (or
      the end). */
  lemma {:induction false} FirstRaiseIs(jvm: Jvm, at: nat, cs: seq<Call>, k: nat)
    requires k <= |cs|
    requires forall i :: 0 <= i < k ==> !jvm.raises(at + i, cs[i])
    requires k < |cs| ==> jvm.raises(at + k, cs[k])
    ensures FirstRaise(jvm, at, cs) == k
    decreases k
  {
    if k > 0 {
      var rest := cs[1..];
      forall i | 0 <= i < k - 1 ensures !jvm.raises(at + 1 + i, rest[i]) {
        assert rest[i] == cs[i + 1];
        assert !jvm.raises(at + (i + 1), cs[i + 1]);
      }
      if k < |cs| {
        assert rest[k - 1] == cs[k];
        assert jvm.raises(at + 1 + (k - 1), rest[k - 1]);
      }
      FirstRaiseIs(jvm, at + 1, rest, k - 1);
      assert !jvm.raises(at, cs[0]);
    }
  }

  /** Straight-line code making the calls `cs`: it stops at the first one
      that throws, which is still recorded. */
  function RunCalls(st: State, jvm: Jvm, cs: seq<Call>): (r: (Result<(), Error>, State))
    ensures r.1.bundles == st.bundles && r.1.bounds == st.bounds && st.calls <= r.1.calls
    ensures r.0.Ok? <==> forall i :: 0 <= i < |cs| ==> !jvm.raises(|st.calls| + i, cs[i])
    ensures r.0.Ok? ==> r.1.calls == st.calls + cs
  {
    var k := FirstRaise(jvm, |st.calls|, cs);
    if k == |cs| then (Ok(()), st.(calls := st.calls + cs))
    else (Err(JvmError(|st.calls| + k)), st.(calls := st.calls + cs[..k + 1]))
  }

  /** `_construct_catalog(pysc, uri, options)`, returning the entry of
      `_mapped_cached[uri]` that its callers read next. A cached URI is
      returned as it is; otherwise the URI is resolved and the objects are
      built. */
  function ConstructSpec(st: State, sc: SparkContext, uri: string, options: Options): (r: (Result<Cached, Error>, State))
    ensures Grows(st, r.1) && r.1.bounds == st.bounds
    ensures r.1.bundles.Keys == st.bundles.Keys + (if r.0.Ok? then {uri} else {})
    ensures r.0.Ok? ==> uri in r.1.bundles && r.1.bundles[uri] == r.0.value
    ensures r.0.Err? ==> uri !in st.bundles
  {
    if uri in st.bundles then (Ok(st.bundles[uri]), st)
    else BuildSpec(st, sc, uri, ResolveAddress(uri, options))
  }

  /** The branch of `_construct_catalog` for an uncached URI resolved to
      `resolved`: a resolution error raises before any call; otherwise the
      four objects are built, and the entry is added only when all four calls
      return. */
  function BuildSpec(st: State, sc: SparkContext, uri: string, resolved: Result<Address, Error>)
    : (r: (Result<Cached, Error>, State))
    requires uri !in st.bundles
    ensures Grows(st, r.1) && r.1.bounds == st.bounds
    ensures r.1.bundles.Keys == st.bundles.Keys + (if r.0.Ok? then {uri} else {})
    ensures r.0.Ok? ==> uri in r.1.bundles && r.1.bundles[uri] == r.0.value
    ensures resolved.Err? ==> r == (Err(resolved.error), st)
  {
    match resolved
    case Err(e) => (Err(e), st)
    case Ok(addr) =>
      var at := |st.calls|;
      var (run, st1) := RunCalls(st, sc.jvm, FactoryCalls(addr, sc.jsc, at));
      if run.Err? then (Err(run.error), st1)
      else
        var b := Cached(at, at + 1, at + 2, at + 3);
        (Ok(b), st1.(bundles := st1.bundles[uri := b]))
  }

  /** The call at index `k` is the first of `cs` to throw: the trace ends
      with it. */
  lemma RunCallsFailsAt(st: State, jvm: Jvm, cs: seq<Call>, k: nat)
    requires k < |cs| && jvm.raises(|st.calls| + k, cs[k])
    requires forall i :: 0 <= i < k ==> !jvm.raises(|st.calls| + i, cs[i])
    ensures RunCalls(st, jvm, cs) == (Err(JvmError(|st.calls| + k)), st.(calls := st.calls + cs[..k + 1]))
  {
    FirstRaiseIs(jvm, |st.calls|, cs, k);
  }

  /** The attribute-store call `read_layer_metadata` makes for a layer type. */
  function MetadataCall(b: Cached, layerType: LayerType, name: string, zoom: int): (c: Call)
    ensures (c.MetadataSpatial? || c.MetadataSpaceTime?) && c.store == b.store && c.name == name && c.zoom == zoom
    ensures c.MetadataSpatial? <==> layerType == Spatial
  {
    if layerType == Spatial then MetadataSpatial(b.store, name, zoom)
    else MetadataSpaceTime(b.store, name, zoom)
  }

  /** `read_layer_metadata(pysc, rdd_type, uri, layer_name, layer_zoom,
      options, **kwargs)`. */
  function MetadataSpec(st: State, sc: SparkContext, codecs: Codecs, layerType: LayerType, uri: string,
                        name: string, zoom: int, options: Option<Options>, kwargs: Options)
    : (r: (Result<Metadata, Error>, State))
    ensures Grows(st, r.1) && r.1.bounds == st.bounds
    ensures r.1.bundles.Keys <= st.bundles.Keys + {uri}
    ensures r.0.Ok? ==> uri in r.1.bundles
  {
    var (c, st1) := ConstructSpec(st, sc, uri, SelectOptions(options, kwargs));
    if c.Err? then (Err(c.error), st1)
    else
      var call := MetadataCall(c.value, layerType, name, zoom);
      var (h, st2) := InvokeSpec(st1, sc.jvm, call);
      if h.Err? then (Err(h.error), st2)
      else (Ok(codecs.parseMetadata(sc.jvm.metadataJson(h.value, call))), st2)
  }

  /** `get_layer_ids(pysc, uri, options, **kwargs)`. */
  function LayerIdsSpec(st: State, sc: SparkContext, uri: string, options: Option<Options>, kwargs: Options)
    : (r: (Result<seq<LayerId>, Error>, State))
    ensures Grows(st, r.1) && r.1.bounds == st.bounds
    ensures r.1.bundles.Keys <= st.bundles.Keys + {uri}
  {
    var (c, st1) := ConstructSpec(st, sc, uri, SelectOptions(options, kwargs));
    if c.Err? then (Err(c.error), st1)
    else
      var call := LayerIds(c.value.reader);
      var (h, st2) := InvokeSpec(st1, sc.jvm, call);
      if h.Err? then (Err(h.error), st2)
      else (Ok(sc.jvm.layerIds(h.value, call)), st2)
  }

  /** The range check of `_in_bounds`: the tile is inside the bounds, with
      both corners included. */
  function InRect(b: Bounds, col: int, row: int): (r: bool)
    ensures r <==> b.minKey.col <= col <= b.maxKey.col && b.minKey.row <= row <= b.maxKey.row
  {
    var mins := col < b.minKey.col || row < b.minKey.row;
    var maxs := col > b.maxKey.col || row > b.maxKey.row;
    !(mins || maxs)
  }

  /** `_in_bounds(pysc, rdd_type, uri, layer_name, zoom_level, col, row)`:
      the bounds come from `_mapped_bounds[(layer_name, zoom_level)]`, read
      from the layer's metadata (with no options) and stored there the first
      time. */
  function InBoundsSpec(st: State, sc: SparkContext, codecs: Codecs, layerType: LayerType, uri: string,
                        name: string, zoom: int, col: int, row: int): (r: (Result<bool, Error>, State))
    ensures Grows(st, r.1)
    ensures r.1.bounds.Keys <= st.bounds.Keys + {(name, zoom)}
    ensures r.1.bundles.Keys <= st.bundles.Keys + {uri}
    ensures r.0.Ok? ==> (name, zoom) in r.1.bounds && r.0.value == InRect(r.1.bounds[(name, zoom)], col, row)
    ensures r.0.Ok? && (name, zoom) !in st.bounds ==> uri in r.1.bundles
  {
    var key := (name, zoom);
    if key in st.bounds then (Ok(InRect(st.bounds[key], col, row)), st)
    else
      var (m, st1) := MetadataSpec(st, sc, codecs, layerType, uri, name, zoom, None, map[]);
      if m.Err? then (Err(m.error), st1)
      else (Ok(InRect(m.value.bounds, col, row)), st1.(bounds := st1.bounds[key := m.value.bounds]))
  }

  /** `read_value(pysc, rdd_type, uri, layer_name, layer_zoom, col, row, zdt,
      options, **kwargs)`: `None` outside the layer's bounds, otherwise the
      decoded tile. */
  function ReadValueSpec(st: State, sc: SparkContext, codecs: Codecs, layerType: LayerType, uri: string,
                         name: string, zoom: int, col: int, row: int, zdt: Option<string>,
                         options: Option<Options>, kwargs: Options): (r: (Result<Option<Raster>, Error>, State))
    ensures Grows(st, r.1)
    ensures r.1.bounds.Keys <= st.bounds.Keys + {(name, zoom)}
  {
    var (inside, st1) := InBoundsSpec(st, sc, codecs, layerType, uri, name, zoom, col, row);
    if inside.Err? then (Err(inside.error), st1)
    else if !inside.value then (Ok(None), st1)
    else TileSpec(st1, sc, codecs, layerType, uri, name, zoom, col, row, zdt, SelectOptions(options, kwargs))
  }

  /** The part of `read_value` after the bounds check: the catalog is built
      when the URI is not cached, and the tile is read and decoded. */
  function TileSpec(st: State, sc: SparkContext, codecs: Codecs, layerType: LayerType, uri: string,
                    name: string, zoom: int, col: int, row: int, zdt: Option<string>, options: Options)
    : (r: (Result<Option<Raster>, Error>, State))
    ensures Grows(st, r.1) && r.1.bounds == st.bounds
    ensures r.0.Ok? ==> r.0.value.Some?
  {
    var (c, st1) := ConstructSpec(st, sc, uri, options);
    if c.Err? then (Err(c.error), st1)
    else
      var call := ReadTile(c.value.valueReader, KeyName(layerType), name, zoom, col, row, zdt.GetOr(""));
      var (h, st2) := InvokeSpec(st1, sc.jvm, call);
      if h.Err? then (Err(h.error), st2)
      else (Ok(Some(codecs.decodeTile(sc.jvm.tileBytes(h.value, call)))), st2)
  }

  /** The reader call `query` makes, or the `TypeError` it raises. */
  function QueryCall(codecs: Codecs, b: Cached, key: string, name: string, zoom: int, geom: QueryGeom,
                     intervals: Option<seq<string>>, proj: Proj, numPartitions: int): (r: Result<Call, Error>)
    ensures !Truthy(geom) ==> r == Ok(ReadLayer(b.reader, key, name, zoom, numPartitions))
    ensures r.Err? <==> Truthy(geom) && GeometryPayload(codecs, geom).Err?
    ensures r.Err? ==> r.error == UnsupportedGeometry(geom)
    ensures Truthy(geom) && r.Ok? ==>
              && r.value.QueryLayer? && r.value.reader == b.reader
              && r.value.key == key && r.value.name == name && r.value.zoom == zoom
              && r.value.wkb == GeometryPayload(codecs, geom).value
              && r.value.intervals == intervals.GetOr([]) && r.value.proj == NormalizeProj(proj)
              && r.value.numPartitions == numPartitions
  {
    if !Truthy(geom) then Ok(ReadLayer(b.reader, key, name, zoom, numPartitions))
    else
      match GeometryPayload(codecs, geom)
      case Err(e) => Err(e)
      case Ok(wkb) => Ok(QueryLayer(b.reader, key, name, zoom, wkb, intervals.GetOr([]), NormalizeProj(proj), numPartitions))
  }

  /** `query(pysc, rdd_type, uri, layer_name, layer_zoom, query_geom,
      time_intervals, query_proj, options, numPartitions, **kwargs)`. */
  function QuerySpec(st: State, sc: SparkContext, codecs: Codecs, layerType: LayerType, uri: string,
                     name: string, zoom: int, geom: QueryGeom, intervals: Option<seq<string>>, proj: Proj,
                     options: Option<Options>, numPartitions: Option<int>, kwargs: Options)
    : (r: (Result<Layer, Error>, State))
    ensures Grows(st, r.1) && r.1.bounds == st.bounds
    ensures r.1.bundles.Keys <= st.bundles.Keys + {uri}
    ensures r.0.Ok? ==> r.0.value.pysc == sc && r.0.value.layerType == layerType && r.0.value.srdd + 1 == |r.1.calls|
  {
    var (c, st1) := ConstructSpec(st, sc, uri, SelectOptions(options, kwargs));
    if c.Err? then (Err(c.error), st1)
    else
      var parts := numPartitions.GetOr(sc.defaultMinPartitions);
      match QueryCall(codecs, c.value, KeyName(layerType), name, zoom, geom, intervals, proj, parts)
      case Err(e) => (Err(e), st1)
      case Ok(call) =>
        var (h, st2) := InvokeSpec(st1, sc.jvm, call);
        (if h.Err? then Err(h.error) else Ok(TiledRasterLayer(sc, layerType, h.value)), st2)
  }

  /** The deprecated `read(pysc, rdd_type, uri, layer_name, layer_zoom,
      options, numPartitions, **kwargs)`: a `query` with no geometry, which
      is not passed the keyword arguments. */
  function ReadSpec(st: State, sc: SparkContext, codecs: Codecs, layerType: LayerType, uri: string,
                    name: string, zoom: int, options: Option<Options>, numPartitions: Option<int>, kwargs: Options)
    : (r: (Result<Layer, Error>, State))
    ensures Grows(st, r.1) && r.1.bounds == st.bounds
  {
    QuerySpec(st, sc, codecs, layerType, uri, name, zoom, NoGeom, None, NoProj, options, numPartitions, map[])
  }

  /** The writer call `write` makes for a layer. */
  function WriteCall(b: Cached, name: string, layer: Layer, indexStrategy: string, timeUnit: Option<string>): (c: Call)
    ensures (c.WriteSpatial? || c.WriteTemporal?) && c.writer == b.writer && c.name == name
    ensures c.srdd == layer.srdd && c.indexStrategy == indexStrategy
    ensures c.WriteSpatial? <==> layer.layerType == Spatial
    ensures c.WriteTemporal? ==> c.timeUnit == timeUnit.GetOr("")
  {
    if layer.layerType == Spatial then WriteSpatial(b.writer, name, layer.srdd, indexStrategy)
    else WriteTemporal(b.writer, name, layer.srdd, timeUnit.GetOr(""), indexStrategy)
  }

  /** `write(uri, layer_name, tiled_raster_rdd, index_strategy, time_unit,
      options, **kwargs)`, on the layer's own Spark context. */
  function WriteSpec(st: State, uri: string, name: string, layer: Layer, indexStrategy: string,
                     timeUnit: Option<string>, options: Option<Options>, kwargs: Options)
    : (r: (Result<(), Error>, State))
    ensures Grows(st, r.1) && r.1.bounds == st.bounds
    ensures r.1.bundles.Keys <= st.bundles.Keys + {uri}
  {
    var sc := layer.pysc;
    var (c, st1) := ConstructSpec(st, sc, uri, SelectOptions(options, kwargs));
    if c.Err? then (Err(c.error), st1)
    else
      var (h, st2) := InvokeSpec(st1, sc.jvm, WriteCall(c.value, name, layer, indexStrategy, timeUnit));
      (if h.Err? then Err(h.error) else Ok(()), st2)
  }

  // ---- The invariant of the caches ----

  /** An entry of `_mapped_cached` names four objects built one after the
      other: a store, then a reader, a value reader and a writer on it. */
  predicate WellBuilt(calls: seq<Call>, b: Cached) {
    && b.reader == b.store + 1 && b.valueReader == b.store + 2 && b.writer == b.store + 3
    && b.writer < |calls|
    && IsStoreFactoryCall(calls[b.store])
    && calls[b.reader].BuildReader? && calls[b.reader].store == b.store
    && calls[b.valueReader].BuildValueReader? && calls[b.valueReader].store == b.store
    && calls[b.writer].BuildWriter? && calls[b.writer].store == b.store
  }

  /** Every cached entry is well built, and no two URIs share objects. */
  predicate Consistent(st: State) {
    && (forall u :: u in st.bundles ==> WellBuilt(st.calls, st.bundles[u]))
    && (forall u, v :: u in st.bundles && v in st.bundles && u != v ==> st.bundles[u].store != st.bundles[v].store)
  }

  /** Growing the trace keeps an entry well built. */
  lemma WellBuiltGrows(calls: seq<Call>, calls2: seq<Call>, b: Cached)
    requires WellBuilt(calls, b) && calls <= calls2
    ensures WellBuilt(calls2, b)
  {
    assert calls2[..|calls|] == calls;
    assert forall i :: 0 <= i < |calls| ==> calls2[i] == calls[i];
  }

  /** A step that only grows the trace and the bounds keeps the invariant. */
  lemma ConsistentGrows(st: State, st2: State)
    requires Consistent(st) && Grows(st, st2) && st2.bundles == st.bundles
    ensures Consistent(st2)
  {
    forall u | u in st2.bundles ensures WellBuilt(st2.calls, st2.bundles[u]) {
      WellBuiltGrows(st.calls, st2.calls, st.bundles[u]);
    }
  }

  /** `_construct_catalog` keeps the invariant. */
  lemma ConstructConsistent(st: State, sc: SparkContext, uri: string, options: Options)
    requires Consistent(st)
    ensures Consistent(ConstructSpec(st, sc, uri, options).1)
  {
    if uri !in st.bundles {
      BuildConsistent(st, sc, uri, ResolveAddress(uri, options));
    }
  }

  /** A new entry is made of the four calls just appended, after every object
      already cached. */
  lemma BuildConsistent(st: State, sc: SparkContext, uri: string, resolved: Result<Address, Error>)
    requires Consistent(st) && uri !in st.bundles
    ensures Consistent(BuildSpec(st, sc, uri, resolved).1)
  {
    var (r, st2) := BuildSpec(st, sc, uri, resolved);
    if r.Ok? {
      var at := |st.calls|;
      var cs := FactoryCalls(resolved.value, sc.jsc, at);
      assert st2.calls == st.calls + cs;
      assert st2.bundles == st.bundles[uri := r.value];
      assert r.value == Cached(at, at + 1, at + 2, at + 3);
      AppendedWellBuilt(st.calls, cs, r.value);
      ConsistentAdd(st, st2, uri, r.value);
    } else {
      ConsistentGrows(st, st2);
    }
  }

  /** Four factory calls appended to the trace make a well-built entry. */
  lemma AppendedWellBuilt(calls: seq<Call>, cs: seq<Call>, b: Cached)
    requires b == Cached(|calls|, |calls| + 1, |calls| + 2, |calls| + 3)
    requires |cs| == 4 && IsStoreFactoryCall(cs[0])
    requires cs[1].BuildReader? && cs[1].store == b.store
    requires cs[2].BuildValueReader? && cs[2].store == b.store
    requires cs[3].BuildWriter? && cs[3].store == b.store
    ensures WellBuilt(calls + cs, b)
  {
    var all := calls + cs;
    assert all[b.store] == cs[0] && all[b.reader] == cs[1];
    assert all[b.valueReader] == cs[2] && all[b.writer] == cs[3];
  }

  /** Adding a well-built entry whose objects come after the whole old trace
      keeps the invariant. */
  lemma ConsistentAdd(st: State, st2: State, uri: string, b: Cached)
    requires Consistent(st) && uri !in st.bundles && st.calls <= st2.calls
    requires st2.bundles == st.bundles[uri := b] && WellBuilt(st2.calls, b) && b.store >= |st.calls|
    ensures Consistent(st2)
  {
    forall u | u in st2.bundles ensures WellBuilt(st2.calls, st2.bundles[u]) {
      if u != uri {
        WellBuiltGrows(st.calls, st2.calls, st.bundles[u]);
      }
    }
  }

  /** Every operation of the module keeps the invariant. */
  lemma MetadataConsistent(st: State, sc: SparkContext, codecs: Codecs, layerType: LayerType, uri: string,
                           name: string, zoom: int, options: Option<Options>, kwargs: Options)
    requires Consistent(st)
    ensures Consistent(MetadataSpec(st, sc, codecs, layerType, uri, name, zoom, options, kwargs).1)
  {
    var r := MetadataSpec(st, sc, codecs, layerType, uri, name, zoom, options, kwargs);
    var (c, st1) := ConstructSpec(st, sc, uri, SelectOptions(options, kwargs));
    ConstructConsistent(st, sc, uri, SelectOptions(options, kwargs));
    if c.Err? {
      assert r.1 == st1;
    } else {
      var st2 := InvokeSpec(st1, sc.jvm, MetadataCall(c.value, layerType, name, zoom)).1;
      ConsistentGrows(st1, st2);
      assert r.1 == st2;
    }
  }

  lemma LayerIdsConsistent(st: State, sc: SparkContext, uri: string, options: Option<Options>, kwargs: Options)
    requires Consistent(st)
    ensures Consistent(LayerIdsSpec(st, sc, uri, options, kwargs).1)
  {
    var r := LayerIdsSpec(st, sc, uri, options, kwargs);
    var (c, st1) := ConstructSpec(st, sc, uri, SelectOptions(options, kwargs));
    ConstructConsistent(st, sc, uri, SelectOptions(options, kwargs));
    if c.Err? {
      assert r.1 == st1;
    } else {
      var st2 := InvokeSpec(st1, sc.jvm, LayerIds(c.value.reader)).1;
      ConsistentGrows(st1, st2);
      assert r.1 == st2;
    }
  }

  lemma InBoundsConsistent(st: State, sc: SparkContext, codecs: Codecs, layerType: LayerType, uri: string,
                           name: string, zoom: int, col: int, row: int)
    requires Consistent(st)
    ensures Consistent(InBoundsSpec(st, sc, codecs, layerType, uri, name, zoom, col, row).1)
  {
    if (name, zoom) !in st.bounds {
      var (m, st1) := MetadataSpec(st, sc, codecs, layerType, uri, name, zoom, None, map[]);
      MetadataConsistent(st, sc, codecs, layerType, uri, name, zoom, None, map[]);
      if m.Ok? {
        ConsistentGrows(st1, st1.(bounds := st1.bounds[(name, zoom) := m.value.bounds]));
      }
    }
  }

  lemma ReadValueConsistent(st: State, sc: SparkContext, codecs: Codecs, layerType: LayerType, uri: string,
                            name: string, zoom: int, col: int, row: int, zdt: Option<string>,
                            options: Option<Options>, kwargs: Options)
    requires Consistent(st)
    ensures Consistent(ReadValueSpec(st, sc, codecs, layerType, uri, name, zoom, col, row, zdt, options, kwargs).1)
  {
    var (inside, st1) := InBoundsSpec(st, sc, codecs, layerType, uri, name, zoom, col, row);
    InBoundsConsistent(st, sc, codecs, layerType, uri, name, zoom, col, row);
    if inside.Ok? && inside.value {
      TileConsistent(st1, sc, codecs, layerType, uri, name, zoom, col, row, zdt, SelectOptions(options, kwargs));
    }
  }

  lemma TileConsistent(st: State, sc: SparkContext, codecs: Codecs, layerType: LayerType, uri: string,
                       name: string, zoom: int, col: int, row: int, zdt: Option<string>, options: Options)
    requires Consistent(st)
    ensures Consistent(TileSpec(st, sc, codecs, layerType, uri, name, zoom, col, row, zdt, options).1)
  {
    var (c, st1) := ConstructSpec(st, sc, uri, options);
    ConstructConsistent(st, sc, uri, options);
    if c.Ok? {
      var call := ReadTile(c.value.valueReader, KeyName(layerType), name, zoom, col, row, zdt.GetOr(""));
      ConsistentGrows(st1, InvokeSpec(st1, sc.jvm, call).1);
    }
  }

  lemma QueryConsistent(st: State, sc: SparkContext, codecs: Codecs, layerType: LayerType, uri: string,
                        name: string, zoom: int, geom: QueryGeom, intervals: Option<seq<string>>, proj: Proj,
                        options: Option<Options>, numPartitions: Option<int>, kwargs: Options)
    requires Consistent(st)
    ensures Consistent(QuerySpec(st, sc, codecs, layerType, uri, name, zoom, geom, intervals, proj,
                                 options, numPartitions, kwargs).1)
  {
    var r := QuerySpec(st, sc, codecs, layerType, uri, name, zoom, geom, intervals, proj, options, numPartitions, kwargs);
    var (c, st1) := ConstructSpec(st, sc, uri, SelectOptions(options, kwargs));
    ConstructConsistent(st, sc, uri, SelectOptions(options, kwargs));
    if c.Err? {
      assert r.1 == st1;
    } else {
      var parts := numPartitions.GetOr(sc.defaultMinPartitions);
      var call := QueryCall(codecs, c.value, KeyName(layerType), name, zoom, geom, intervals, proj, parts);
      if call.Err? {
        assert r.1 == st1;
      } else {
        var st2 := InvokeSpec(st1, sc.jvm, call.value).1;
        ConsistentGrows(st1, st2);
        assert r.1 == st2;
      }
    }
  }

  lemma WriteConsistent(st: State, uri: string, name: string, layer: Layer, indexStrategy: string,
                        timeUnit: Option<string>, options: Option<Options>, kwargs: Options)
    requires Consistent(st)
    ensures Consistent(WriteSpec(st, uri, name, layer, indexStrategy, timeUnit, options, kwargs).1)
  {
    var r := WriteSpec(st, uri, name, layer, indexStrategy, timeUnit, options, kwargs);
    var (c, st1) := ConstructSpec(st, layer.pysc, uri, SelectOptions(options, kwargs));
    ConstructConsistent(st, layer.pysc, uri, SelectOptions(options, kwargs));
    if c.Err? {
      assert r.1 == st1;
    } else {
      var st2 := InvokeSpec(st1, layer.pysc.jvm, WriteCall(c.value, name, layer, indexStrategy, timeUnit)).1;
      ConsistentGrows(st1, st2);
      assert r.1 == st2;
    }
  }

  // ---- _construct_catalog ----

  /** A cached URI is answered from the cache: no call is made and nothing
      changes, whatever the options. */
  lemma ConstructHit(st: State, sc: SparkContext, uri: string, options: Options)
    requires uri in st.bundles
    ensures ConstructSpec(st, sc, uri, options) == (Ok(st.bundles[uri]), st)
  {
  }

  /** A URI that is not cached and whose four calls all return adds exactly
      that URI, bound to the four objects, after its four factory calls. */
  lemma ConstructMiss(st: State, sc: SparkContext, uri: string, options: Options, addr: Address)
    requires uri !in st.bundles && ResolveAddress(uri, options) == Ok(addr)
    requires var cs := FactoryCalls(addr, sc.jsc, |st.calls|);
             forall i :: 0 <= i < 4 ==> !sc.jvm.raises(|st.calls| + i, cs[i])
    ensures var at := |st.calls|;
            var b := Cached(at, at + 1, at + 2, at + 3);
            ConstructSpec(st, sc, uri, options)
              == (Ok(b), State(st.bundles[uri := b], st.bounds, st.calls + FactoryCalls(addr, sc.jsc, at)))
  {
  }

  /** A URI whose scheme names no backend raises `ValueError` and leaves the
      cache and the trace as they were. */
  lemma ConstructUnsupported(st: State, sc: SparkContext, uri: string, options: Options)
    requires uri !in st.bundles && SchemeBackend(UrlSplit(uri).scheme).None?
    ensures ConstructSpec(st, sc, uri, options) == (Err(UnsupportedBackend(UrlSplit(uri).scheme)), st)
  {
  }

  /** A Cassandra URI with a query part without `=` fails on the first such
      part, before any store is built. */
  lemma ConstructCassandraWithoutValue(st: State, sc: SparkContext, uri: string, options: Options, j: nat)
    requires uri !in st.bundles && UrlSplit(uri).scheme == "cassandra"
    requires var parts := Split(UrlSplit(uri).query, '&');
             j < |parts| && '=' !in parts[j] && forall i :: 0 <= i < j ==> '=' in parts[i]
    ensures ConstructSpec(st, sc, uri, options)
         == (Err(ParameterWithoutValue(Split(UrlSplit(uri).query, '&')[j])), st)
  {
    CassandraUriWithoutValue(uri, options, j);
  }

  /** A Cassandra URI lacking one of the five required parameters fails with
      `KeyError` on the first missing one, before any store is built. */
  lemma ConstructCassandraMissingKey(st: State, sc: SparkContext, uri: string, options: Options, key: string)
    requires uri !in st.bundles && UrlSplit(uri).scheme == "cassandra"
    requires var params := CollectParams(Split(UrlSplit(uri).query, '&'));
             params.Ok? && FirstMissing(params.value, CassandraKeys) == Some(key)
    ensures ConstructSpec(st, sc, uri, options) == (Err(MissingParameter(key)), st)
  {
    CassandraUriMissingKey(uri, options, key);
  }

  /** A second construction of the same URI finds the first one's entry. */
  lemma ConstructIdempotent(st: State, sc: SparkContext, sc2: SparkContext, uri: string, options: Options, options2: Options)
    requires ConstructSpec(st, sc, uri, options).0.Ok?
    ensures var r := ConstructSpec(st, sc, uri, options);
            ConstructSpec(r.1, sc2, uri, options2) == r
  {
  }

  /** A failed construction leaves the URI uncached, so the next attempt
      builds again. */
  lemma ConstructFailureNotCached(st: State, sc: SparkContext, uri: string, options: Options)
    requires ConstructSpec(st, sc, uri, options).0.Err?
    ensures uri !in ConstructSpec(st, sc, uri, options).1.bundles
    ensures ConstructSpec(st, sc, uri, options).1.bundles == st.bundles
  {
  }

  // ---- read_layer_metadata and get_layer_ids ----

  /** On a cached URI the metadata is one call to the store, chosen by the
      layer type, and the parsed JSON it returns. */
  lemma MetadataCached(st: State, sc: SparkContext, codecs: Codecs, layerType: LayerType, uri: string,
                       name: string, zoom: int, options: Option<Options>, kwargs: Options)
    requires uri in st.bundles
    ensures var call := if layerType == Spatial then MetadataSpatial(st.bundles[uri].store, name, zoom)
                        else MetadataSpaceTime(st.bundles[uri].store, name, zoom);
            var at := |st.calls|;
            MetadataSpec(st, sc, codecs, layerType, uri, name, zoom, options, kwargs)
              == (if sc.jvm.raises(at, call) then Err(JvmError(at))
                  else Ok(codecs.parseMetadata(sc.jvm.metadataJson(at, call))),
                  st.(calls := st.calls + [call]))
  {
  }

  /** On a cached URI the layer ids are what one `layerIds` call on the
      cached reader returns. */
  lemma LayerIdsCached(st: State, sc: SparkContext, uri: string, options: Option<Options>, kwargs: Options)
    requires uri in st.bundles
    ensures var call := LayerIds(st.bundles[uri].reader);
            var at := |st.calls|;
            LayerIdsSpec(st, sc, uri, options, kwargs)
              == (if sc.jvm.raises(at, call) then Err(JvmError(at)) else Ok(sc.jvm.layerIds(at, call)),
                  st.(calls := st.calls + [call]))
  {
  }

  // ---- _in_bounds ----

  /** Cached bounds are used without reading metadata, and the answer depends
      only on the layer name and zoom: not on the URI, the layer type or the
      Spark context. */
  lemma InBoundsHit(st: State, sc: SparkContext, sc2: SparkContext, codecs: Codecs, layerType: LayerType,
                    layerType2: LayerType, uri: string, uri2: string, name: string, zoom: int, col: int, row: int)
    requires (name, zoom) in st.bounds
    ensures InBoundsSpec(st, sc, codecs, layerType, uri, name, zoom, col, row)
         == (Ok(InRect(st.bounds[(name, zoom)], col, row)), st)
    ensures InBoundsSpec(st, sc, codecs, layerType, uri, name, zoom, col, row)
         == InBoundsSpec(st, sc2, codecs, layerType2, uri2, name, zoom, col, row)
  {
  }

  /** The first check of a layer reads its metadata once, on a cached URI
      with one store call, and stores the bounds for later checks. */
  lemma InBoundsMiss(st: State, sc: SparkContext, codecs: Codecs, layerType: LayerType, uri: string,
                     name: string, zoom: int, col: int, row: int)
    requires (name, zoom) !in st.bounds && uri in st.bundles
    requires !sc.jvm.raises(|st.calls|, MetadataCall(st.bundles[uri], layerType, name, zoom))
    ensures var call := MetadataCall(st.bundles[uri], layerType, name, zoom);
            var b := codecs.parseMetadata(sc.jvm.metadataJson(|st.calls|, call)).bounds;
            InBoundsSpec(st, sc, codecs, layerType, uri, name, zoom, col, row)
              == (Ok(InRect(b, col, row)), State(st.bundles, st.bounds[(name, zoom) := b], st.calls + [call]))
  {
  }

  /** Bounds, once stored, are never replaced: a later check with other
      bounds in the metadata still uses the first ones. */
  lemma InBoundsWriteOnce(st: State, sc: SparkContext, codecs: Codecs, layerType: LayerType, uri: string,
                          name: string, zoom: int, col: int, row: int, key: (string, int))
    requires key in st.bounds
    ensures var st2 := InBoundsSpec(st, sc, codecs, layerType, uri, name, zoom, col, row).1;
            key in st2.bounds && st2.bounds[key] == st.bounds[key]
  {
  }

  // ---- read_value ----

  /** A tile outside the stored bounds is `None`, with no call at all. */
  lemma ReadValueOutside(st: State, sc: SparkContext, codecs: Codecs, layerType: LayerType, uri: string,
                         name: string, zoom: int, col: int, row: int, zdt: Option<string>,
                         options: Option<Options>, kwargs: Options)
    requires (name, zoom) in st.bounds && !InRect(st.bounds[(name, zoom)], col, row)
    ensures ReadValueSpec(st, sc, codecs, layerType, uri, name, zoom, col, row, zdt, options, kwargs) == (Ok(None), st)
  {
  }

  /** A tile outside the bounds is never read: a `None` result comes with no
      `readTile` call. */
  lemma ReadValueNoneReadsNoTile(st: State, sc: SparkContext, codecs: Codecs, layerType: LayerType, uri: string,
                                 name: string, zoom: int, col: int, row: int, zdt: Option<string>,
                                 options: Option<Options>, kwargs: Options)
    requires ReadValueSpec(st, sc, codecs, layerType, uri, name, zoom, col, row, zdt, options, kwargs).0 == Ok(None)
    ensures ReadValueSpec(st, sc, codecs, layerType, uri, name, zoom, col, row, zdt, options, kwargs).1
         == InBoundsSpec(st, sc, codecs, layerType, uri, name, zoom, col, row).1
    ensures InBoundsSpec(st, sc, codecs, layerType, uri, name, zoom, col, row).0 == Ok(false)
  {
  }

  /** Inside the stored bounds, on a cached URI, the tile is one `readTile`
      call on the cached value reader, with "" for a missing time. */
  lemma ReadValueInside(st: State, sc: SparkContext, codecs: Codecs, layerType: LayerType, uri: string,
                        name: string, zoom: int, col: int, row: int, zdt: Option<string>,
                        options: Option<Options>, kwargs: Options)
    requires (name, zoom) in st.bounds && InRect(st.bounds[(name, zoom)], col, row) && uri in st.bundles
    ensures var call := ReadTile(st.bundles[uri].valueReader, KeyName(layerType), name, zoom, col, row,
                                 if zdt.Some? then zdt.value else "");
            var at := |st.calls|;
            ReadValueSpec(st, sc, codecs, layerType, uri, name, zoom, col, row, zdt, options, kwargs)
              == (if sc.jvm.raises(at, call) then Err(JvmError(at))
                  else Ok(Some(codecs.decodeTile(sc.jvm.tileBytes(at, call)))),
                  st.(calls := st.calls + [call]))
  {
  }

  /** When neither the bounds nor the URI are cached yet, `_in_bounds` builds
      the catalog with empty options, so the options given to `read_value` do
      not matter. */
  lemma ReadValueFirstReadIgnoresOptions(st: State, sc: SparkContext, codecs: Codecs, layerType: LayerType,
                                         uri: string, name: string, zoom: int, col: int, row: int,
                                         zdt: Option<string>, options: Option<Options>, kwargs: Options,
                                         options2: Option<Options>, kwargs2: Options)
    requires (name, zoom) !in st.bounds && uri !in st.bundles
    ensures ReadValueSpec(st, sc, codecs, layerType, uri, name, zoom, col, row, zdt, options, kwargs)
         == ReadValueSpec(st, sc, codecs, layerType, uri, name, zoom, col, row, zdt, options2, kwargs2)
  {
    var (inside, st1) := InBoundsSpec(st, sc, codecs, layerType, uri, name, zoom, col, row);
    if inside == Ok(true) {
      assert uri in st1.bundles;
      TileCached(st1, sc, codecs, layerType, uri, name, zoom, col, row, zdt,
                 SelectOptions(options, kwargs), SelectOptions(options2, kwargs2));
      ReadValueInsideIsTile(st, sc, codecs, layerType, uri, name, zoom, col, row, zdt, options, kwargs);
      ReadValueInsideIsTile(st, sc, codecs, layerType, uri, name, zoom, col, row, zdt, options2, kwargs2);
    } else {
      ReadValueNotInside(st, sc, codecs, layerType, uri, name, zoom, col, row, zdt, options, kwargs);
      ReadValueNotInside(st, sc, codecs, layerType, uri, name, zoom, col, row, zdt, options2, kwargs2);
    }
  }

  /** Inside the bounds, `read_value` goes on to the tile read. */
  lemma ReadValueInsideIsTile(st: State, sc: SparkContext, codecs: Codecs, layerType: LayerType, uri: string,
                              name: string, zoom: int, col: int, row: int, zdt: Option<string>,
                              options: Option<Options>, kwargs: Options)
    requires InBoundsSpec(st, sc, codecs, layerType, uri, name, zoom, col, row).0 == Ok(true)
    ensures ReadValueSpec(st, sc, codecs, layerType, uri, name, zoom, col, row, zdt, options, kwargs)
         == TileSpec(InBoundsSpec(st, sc, codecs, layerType, uri, name, zoom, col, row).1, sc, codecs, layerType,
                     uri, name, zoom, col, row, zdt, SelectOptions(options, kwargs))
  {
  }

  /** Otherwise the result is the bounds check's error or `None`, and its state. */
  lemma ReadValueNotInside(st: State, sc: SparkContext, codecs: Codecs, layerType: LayerType, uri: string,
                           name: string, zoom: int, col: int, row: int, zdt: Option<string>,
                           options: Option<Options>, kwargs: Options)
    requires InBoundsSpec(st, sc, codecs, layerType, uri, name, zoom, col, row).0 != Ok(true)
    ensures var (inside, st1) := InBoundsSpec(st, sc, codecs, layerType, uri, name, zoom, col, row);
            ReadValueSpec(st, sc, codecs, layerType, uri, name, zoom, col, row, zdt, options, kwargs)
              == (if inside.Err? then Err(inside.error) else Ok(None), st1)
  {
  }

  /** On a cached URI the options do not matter for the tile read. */
  lemma TileCached(st: State, sc: SparkContext, codecs: Codecs, layerType: LayerType, uri: string,
                   name: string, zoom: int, col: int, row: int, zdt: Option<string>,
                   options: Options, options2: Options)
    requires uri in st.bundles
    ensures TileSpec(st, sc, codecs, layerType, uri, name, zoom, col, row, zdt, options)
         == TileSpec(st, sc, codecs, layerType, uri, name, zoom, col, row, zdt, options2)
  {
    ConstructHit(st, sc, uri, options);
    ConstructHit(st, sc, uri, options2);
  }

  // ---- query and read ----

  /** With a falsy geometry and a cached URI, `query` makes one plain `read`
      of the whole layer; the intervals and the projection play no part. */
  lemma QueryPlain(st: State, sc: SparkContext, codecs: Codecs, layerType: LayerType, uri: string,
                   name: string, zoom: int, geom: QueryGeom, intervals: Option<seq<string>>, proj: Proj,
                   options: Option<Options>, numPartitions: Option<int>, kwargs: Options)
    requires !Truthy(geom) && uri in st.bundles
    ensures var parts := if numPartitions.Some? then numPartitions.value else sc.defaultMinPartitions;
            var call := ReadLayer(st.bundles[uri].reader, KeyName(layerType), name, zoom, parts);
            var at := |st.calls|;
            QuerySpec(st, sc, codecs, layerType, uri, name, zoom, geom, intervals, proj, options, numPartitions, kwargs)
              == (if sc.jvm.raises(at, call) then Err(JvmError(at)) else Ok(TiledRasterLayer(sc, layerType, at)),
                  st.(calls := st.calls + [call]))
  {
  }

  /** With a truthy geometry and a cached URI, `query` makes one `query`
      call with the geometry's WKB, `[]` for missing intervals, the
      normalised projection and the default partition count when none is
      given. */
  lemma QueryFiltered(st: State, sc: SparkContext, codecs: Codecs, layerType: LayerType, uri: string,
                      name: string, zoom: int, geom: QueryGeom, intervals: Option<seq<string>>, proj: Proj,
                      options: Option<Options>, numPartitions: Option<int>, kwargs: Options)
    requires Truthy(geom) && GeometryPayload(codecs, geom).Ok? && uri in st.bundles
    ensures var parts := if numPartitions.Some? then numPartitions.value else sc.defaultMinPartitions;
            var ivs := if intervals.Some? then intervals.value else [];
            var call := QueryLayer(st.bundles[uri].reader, KeyName(layerType), name, zoom,
                                   GeometryPayload(codecs, geom).value, ivs, NormalizeProj(proj), parts);
            var at := |st.calls|;
            QuerySpec(st, sc, codecs, layerType, uri, name, zoom, geom, intervals, proj, options, numPartitions, kwargs)
              == (if sc.jvm.raises(at, call) then Err(JvmError(at)) else Ok(TiledRasterLayer(sc, layerType, at)),
                  st.(calls := st.calls + [call]))
  {
  }

  /** A truthy geometry of an unsupported type raises `TypeError` after the
      catalog is built, and no reader is called. */
  lemma QueryUnsupportedGeometry(st: State, sc: SparkContext, codecs: Codecs, layerType: LayerType, uri: string,
                                 name: string, zoom: int, geom: QueryGeom, intervals: Option<seq<string>>, proj: Proj,
                                 options: Option<Options>, numPartitions: Option<int>, kwargs: Options)
    requires Truthy(geom) && GeometryPayload(codecs, geom).Err?
    ensures var c := ConstructSpec(st, sc, uri, SelectOptions(options, kwargs));
            QuerySpec(st, sc, codecs, layerType, uri, name, zoom, geom, intervals, proj, options, numPartitions, kwargs)
              == (if c.0.Err? then Err(c.0.error) else Err(UnsupportedGeometry(geom)), c.1)
  {
  }

  /** A supported geometry and its WKB give the same query. */
  lemma QueryGeometryAsWkb(st: State, sc: SparkContext, codecs: Codecs, layerType: LayerType, uri: string,
                           name: string, zoom: int, s: Shape, intervals: Option<seq<string>>, proj: Proj,
                           options: Option<Options>, numPartitions: Option<int>, kwargs: Options)
    requires SupportedShape(s) && |s.coords| > 0 && |codecs.wkbDumps(s)| > 0
    ensures QuerySpec(st, sc, codecs, layerType, uri, name, zoom, Geom(s), intervals, proj, options, numPartitions, kwargs)
         == QuerySpec(st, sc, codecs, layerType, uri, name, zoom, WkbGeom(codecs.wkbDumps(s)), intervals, proj,
                      options, numPartitions, kwargs)
  {
    var c := ConstructSpec(st, sc, uri, SelectOptions(options, kwargs));
    if c.0.Ok? {
      var parts := numPartitions.GetOr(sc.defaultMinPartitions);
      QueryCallWkb(codecs, c.0.value, KeyName(layerType), name, zoom, s, intervals, proj, parts);
    }
  }

  lemma QueryCallWkb(codecs: Codecs, b: Cached, key: string, name: string, zoom: int, s: Shape,
                     intervals: Option<seq<string>>, proj: Proj, numPartitions: int)
    requires SupportedShape(s) && |s.coords| > 0 && |codecs.wkbDumps(s)| > 0
    ensures QueryCall(codecs, b, key, name, zoom, Geom(s), intervals, proj, numPartitions)
         == QueryCall(codecs, b, key, name, zoom, WkbGeom(codecs.wkbDumps(s)), intervals, proj, numPartitions)
  {
    GeometryAsWkb(codecs, s);
  }

  /** An integer projection is the string `"EPSG:<code>"`. */
  lemma QueryEpsgCode(st: State, sc: SparkContext, codecs: Codecs, layerType: LayerType, uri: string,
                      name: string, zoom: int, geom: QueryGeom, intervals: Option<seq<string>>, code: int,
                      options: Option<Options>, numPartitions: Option<int>, kwargs: Options)
    ensures QuerySpec(st, sc, codecs, layerType, uri, name, zoom, geom, intervals, ProjCode(code), options, numPartitions, kwargs)
         == QuerySpec(st, sc, codecs, layerType, uri, name, zoom, geom, intervals, ProjText("EPSG:" + IntToDecimal(code)),
                      options, numPartitions, kwargs)
  {
    var c := ConstructSpec(st, sc, uri, SelectOptions(options, kwargs));
    if c.0.Ok? {
      var parts := numPartitions.GetOr(sc.defaultMinPartitions);
      QueryCallEpsg(codecs, c.0.value, KeyName(layerType), name, zoom, geom, intervals, code, parts);
    }
  }

  lemma QueryCallEpsg(codecs: Codecs, b: Cached, key: string, name: string, zoom: int, geom: QueryGeom,
                      intervals: Option<seq<string>>, code: int, numPartitions: int)
    ensures QueryCall(codecs, b, key, name, zoom, geom, intervals, ProjCode(code), numPartitions)
         == QueryCall(codecs, b, key, name, zoom, geom, intervals, ProjText("EPSG:" + IntToDecimal(code)), numPartitions)
  {
  }

  /** The deprecated `read` drops its keyword arguments. */
  lemma ReadIgnoresKwargs(st: State, sc: SparkContext, codecs: Codecs, layerType: LayerType, uri: string,
                          name: string, zoom: int, options: Option<Options>, numPartitions: Option<int>,
                          kwargs: Options, kwargs2: Options)
    ensures ReadSpec(st, sc, codecs, layerType, uri, name, zoom, options, numPartitions, kwargs)
         == ReadSpec(st, sc, codecs, layerType, uri, name, zoom, options, numPartitions, kwargs2)
  {
  }

  /** On a cached URI, `read` is one plain read of the whole layer. */
  lemma ReadCached(st: State, sc: SparkContext, codecs: Codecs, layerType: LayerType, uri: string,
                   name: string, zoom: int, options: Option<Options>, numPartitions: Option<int>, kwargs: Options)
    requires uri in st.bundles
    ensures var parts := if numPartitions.Some? then numPartitions.value else sc.defaultMinPartitions;
            var call := ReadLayer(st.bundles[uri].reader, KeyName(layerType), name, zoom, parts);
            ReadSpec(st, sc, codecs, layerType, uri, name, zoom, options, numPartitions, kwargs).1
              == st.(calls := st.calls + [call])
  {
  }

  // ---- write ----

  /** On a cached URI, `write` is one call to the cached writer: `writeSpatial`
      for a spatial layer, otherwise `writeTemporal` with "" for a missing
      time unit. */
  lemma WriteCached(st: State, uri: string, name: string, layer: Layer, indexStrategy: string,
                    timeUnit: Option<string>, options: Option<Options>, kwargs: Options)
    requires uri in st.bundles
    ensures var w := st.bundles[uri].writer;
            var call := if layer.layerType == Spatial then WriteSpatial(w, name, layer.srdd, indexStrategy)
                        else WriteTemporal(w, name, layer.srdd, if timeUnit.Some? then timeUnit.value else "", indexStrategy);
            var at := |st.calls|;
            WriteSpec(st, uri, name, layer, indexStrategy, timeUnit, options, kwargs)
              == (if layer.pysc.jvm.raises(at, call) then Err(JvmError(at)) else Ok(()), st.(calls := st.calls + [call]))
  {
  }
}
