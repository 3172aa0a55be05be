/** The module `geopyspark.geotrellis.catalog` as an object: its two caches,
    `_mapped_cached` and `_mapped_bounds`, are fields updated in place, and
    every call into the JVM is appended to a trace. Each public function of
    the module is a method proved to follow its function in `CatalogSpec`. */
module Catalog {
  import opened Wrappers
  import opened PyStr
  import opened UrlParse
  import opened Types
  import opened CatalogAddress
  import opened CatalogArgs
  import opened CatalogSpec

  /** The Cassandra branch's loop over the `&`-separated parts of the query:
      each part is split on its first `=` and stored in `parameter_dict`; a
      part without `=` raises `IndexError`. */
  method CassandraParameters(query: string) returns (r: Result<Options, Error>)
    ensures r == CollectParams(Split(query, '&'))
  {
    var parameters := Split(query, '&');
    var parameterDict: Options := map[];
    for i := 0 to |parameters|
      invariant CollectParams(parameters[..i]) == Ok(parameterDict)
    {
      var param := parameters[i];
      var splitParam := SplitOnce(param, '=');
      assert parameters[..i + 1][..i] == parameters[..i];
      if |splitParam| < 2 {
        CollectParamsOk(parameters[..i]);
        assert forall j :: 0 <= j < i ==> parameters[..i][j] == parameters[j];
        CollectParamsFirstError(parameters, i);
        return Err(ParameterWithoutValue(param));
      }
      parameterDict := parameterDict[splitParam[0] := splitParam[1]];
    }
    assert parameters[..|parameters|] == parameters;
    r := Ok(parameterDict);
  }

  /** The Cassandra branch of `_construct_catalog`: the query string's
    parameters, then the five required ones looked up in order. */
  method CassandraStore(query: string, options: Options) returns (r: Result<Address, Error>)
    ensures r == CassandraAddress(query, options)
  {
    var parameters := CassandraParameters(query);
    if parameters.Err? {
      return Err(parameters.error);
    }
    var missing := FirstMissing(parameters.value, CassandraKeys);
    if missing.Some? {
      return Err(MissingParameter(missing.value));
    }
    var m := parameters.value;
    assert CassandraKeys[0] in m && CassandraKeys[1] in m && CassandraKeys[2] in m
        && CassandraKeys[3] in m && CassandraKeys[4] in m;
    r := Ok(CassandraAddr(m["host"], m["username"], m["password"], m["keyspace"], m["table"], options));
  }

  /** The arguments `_construct_catalog` passes to the store factory, chosen
      by the scheme of `urlparse(uri)`; an unknown scheme raises
      `ValueError`. */
  method ResolveUri(uri: string, options: Options) returns (r: Result<Address, Error>)
    ensures r == ResolveAddress(uri, options)
  {
    var parsed := UrlSplit(uri);
    ResolveParsed(uri, parsed, options);
    var backend := parsed.scheme;
    if backend == "hdfs" {
      HadoopDispatch(parsed, uri, options);
      r := Ok(HadoopAddr(uri));
    } else if backend == "file" {
      FileDispatch(parsed, uri, options);
      r := Ok(FileAddr(Drop(uri, 7)));
    } else if backend == "s3" {
      S3Dispatch(parsed, uri, options);
      r := Ok(S3Addr(parsed.netloc, Drop(parsed.path, 1)));
    } else if backend == "cassandra" {
      CassandraDispatch(parsed, uri, options);
      r := CassandraStore(parsed.query, options);
    } else if backend == "hbase" {
      HBaseParsedDispatch(parsed, uri, options);
      r := HBaseAddress(parsed, options);
    } else if backend == "accumulo" {
      AccumuloParsedDispatch(parsed, uri, options);
      r := AccumuloAddress(parsed);
    } else {
      UnsupportedDispatch(parsed, uri, options);
      r := Err(UnsupportedBackend(backend));
    }
  }

  class Catalog {
    /** `_mapped_cached`: the objects built for each URI. */
    var bundles: map<string, Cached>
    /** `_mapped_bounds`: the bounds of each (layer name, zoom) checked so far. */
    var bounds: map<(string, int), Bounds>
    /** The calls made into the JVM so far. */
    var calls: seq<Call>
    /** Shapely, the metadata parser and the tile decoder. */
    const codecs: Codecs

    function Snapshot(): State
      reads this
    {
      State(bundles, bounds, calls)
    }

    predicate Valid()
      reads this
    {
      Consistent(Snapshot())
    }

    /** The module as first imported: both caches empty, no call made. */
    constructor(codecs: Codecs)
      ensures Valid() && this.codecs == codecs
      ensures Snapshot() == State(map[], map[], [])
    {
      bundles := map[];
      bounds := map[];
      calls := [];
      this.codecs := codecs;
    }

    /** One call into the JVM. */
    method Invoke(jvm: Jvm, c: Call) returns (r: Result<Handle, Error>)
      modifies this
      ensures (r, Snapshot()) == InvokeSpec(old(Snapshot()), jvm, c)
    {
      var at := |calls|;
      calls := calls + [c];
      r := if jvm.raises(at, c) then Err(JvmError(at)) else Ok(at);
    }

    /** The store, reader, value reader and writer of an uncached URI, and
      the entry of `_mapped_cached` once all four are built. */
    method BuildObjects(sc: SparkContext, uri: string, addr: Address) returns (r: Result<Cached, Error>)
      requires uri !in bundles
      modifies this
      ensures (r, Snapshot()) == BuildSpec(old(Snapshot()), sc, uri, Ok(addr))
    {
      var at := |calls|;
      var run := MakeCalls(sc.jvm, FactoryCalls(addr, sc.jsc, at));
      if run.Err? {
        return Err(run.error);
      }
      var b := Cached(at, at + 1, at + 2, at + 3);
      bundles := bundles[uri := b];
      r := Ok(b);
    }

    /** The four factory calls of a branch of `_construct_catalog`, one
      statement after the other: each is made only when the one before
      returned. */
    method MakeCalls(jvm: Jvm, cs: seq<Call>) returns (r: Result<(), Error>)
      requires |cs| == 4
      modifies this
      ensures (r, Snapshot()) == RunCalls(old(Snapshot()), jvm, cs)
    {
      ghost var before := Snapshot();
      var store := MakeCall(jvm, cs, 0, before);
      if store.Err? {
        return Err(store.error);
      }
      var reader := MakeCall(jvm, cs, 1, before);
      if reader.Err? {
        return Err(reader.error);
      }
      var valueReader := MakeCall(jvm, cs, 2, before);
      if valueReader.Err? {
        return Err(valueReader.error);
      }
      var writer := MakeCall(jvm, cs, 3, before);
      if writer.Err? {
        return Err(writer.error);
      }
      FirstRaiseIs(jvm, |before.calls|, cs, 4);
      assert cs[..4] == cs;
      r := Ok(());
    }

    /** Call `i` of `cs`, made once calls `0` to `i - 1` have returned: on a
      throw the run of `cs` from `before` ends here. */
    method MakeCall(jvm: Jvm, cs: seq<Call>, i: nat, ghost before: State) returns (r: Result<Handle, Error>)
      requires i < |cs|
      requires bundles == before.bundles && bounds == before.bounds && calls == before.calls + cs[..i]
      requires forall j :: 0 <= j < i ==> !jvm.raises(|before.calls| + j, cs[j])
      modifies this
      ensures bundles == before.bundles && bounds == before.bounds && calls == before.calls + cs[..i + 1]
      ensures r.Ok? ==> forall j :: 0 <= j < i + 1 ==> !jvm.raises(|before.calls| + j, cs[j])
      ensures r.Err? ==> (Err(r.error), Snapshot()) == RunCalls(before, jvm, cs)
    {
      r := Invoke(jvm, cs[i]);
      assert cs[..i + 1] == cs[..i] + [cs[i]];
      if r.Err? {
        RunCallsFailsAt(before, jvm, cs, i);
      }
    }

    /** `_construct_catalog(pysc, uri, options)`, which returns the entry it
      finds or makes for `uri`. */
    method ConstructCatalog(sc: SparkContext, uri: string, options: Options) returns (r: Result<Cached, Error>)
      requires Valid()
      modifies this
      ensures Valid()
      ensures (r, Snapshot()) == ConstructSpec(old(Snapshot()), sc, uri, options)
    {
      ConstructConsistent(Snapshot(), sc, uri, options);
      if uri in bundles {
        return Ok(bundles[uri]);
      }
      var addr := ResolveUri(uri, options);
      if addr.Err? {
        return Err(addr.error);
      }
      r := BuildObjects(sc, uri, addr.value);
    }

    /** `read_layer_metadata(pysc, rdd_type, uri, layer_name, layer_zoom,
      options, **kwargs)`. */
    method ReadLayerMetadata(sc: SparkContext, layerType: LayerType, uri: string, name: string, zoom: int,
                             options: Option<Options>, kwargs: Options) returns (r: Result<Metadata, Error>)
      requires Valid()
      modifies this
      ensures Valid()
      ensures (r, Snapshot()) == MetadataSpec(old(Snapshot()), sc, codecs, layerType, uri, name, zoom, options, kwargs)
    {
      MetadataConsistent(Snapshot(), sc, codecs, layerType, uri, name, zoom, options, kwargs);
      var built := ConstructCatalog(sc, uri, SelectOptions(options, kwargs));
      if built.Err? {
        return Err(built.error);
      }
      var cached := bundles[uri];
      var call := if layerType == Spatial then MetadataSpatial(cached.store, name, zoom)
                  else MetadataSpaceTime(cached.store, name, zoom);
      var metadata := Invoke(sc.jvm, call);
      if metadata.Err? {
        return Err(metadata.error);
      }
      r := Ok(codecs.parseMetadata(sc.jvm.metadataJson(metadata.value, call)));
    }

    /** `get_layer_ids(pysc, uri, options, **kwargs)`. */
    method GetLayerIds(sc: SparkContext, uri: string, options: Option<Options>, kwargs: Options)
      returns (r: Result<seq<LayerId>, Error>)
      requires Valid()
      modifies this
      ensures Valid()
      ensures (r, Snapshot()) == LayerIdsSpec(old(Snapshot()), sc, uri, options, kwargs)
    {
      LayerIdsConsistent(Snapshot(), sc, uri, options, kwargs);
      var built := ConstructCatalog(sc, uri, SelectOptions(options, kwargs));
      if built.Err? {
        return Err(built.error);
      }
      var cached := bundles[uri];
      var call := LayerIds(cached.reader);
      var ids := Invoke(sc.jvm, call);
      if ids.Err? {
        return Err(ids.error);
      }
      r := Ok(sc.jvm.layerIds(ids.value, call));
    }

    /** `_in_bounds(pysc, rdd_type, uri, layer_name, zoom_level, col, row)`. */
    method InBounds(sc: SparkContext, layerType: LayerType, uri: string, name: string, zoom: int,
                    col: int, row: int) returns (r: Result<bool, Error>)
      requires Valid()
      modifies this
      ensures Valid()
      ensures (r, Snapshot()) == InBoundsSpec(old(Snapshot()), sc, codecs, layerType, uri, name, zoom, col, row)
    {
      InBoundsConsistent(Snapshot(), sc, codecs, layerType, uri, name, zoom, col, row);
      ghost var st := Snapshot();
      ghost var spec := InBoundsSpec(st, sc, codecs, layerType, uri, name, zoom, col, row);
      var b: Bounds;
      if (name, zoom) !in bounds {
        var layerMetadata := ReadLayerMetadata(sc, layerType, uri, name, zoom, None, map[]);
        if layerMetadata.Err? {
          return Err(layerMetadata.error);
        }
        b := layerMetadata.value.bounds;
        bounds := bounds[(name, zoom) := b];
        assert spec.1 == Snapshot();
      } else {
        b := bounds[(name, zoom)];
      }
      var mins := col < b.minKey.col || row < b.minKey.row;
      var maxs := col > b.maxKey.col || row > b.maxKey.row;
      assert spec.0 == Ok(!(mins || maxs));
      if mins || maxs {
        r := Ok(false);
      } else {
        r := Ok(true);
      }
    }

    /** `read_value(pysc, rdd_type, uri, layer_name, layer_zoom, col, row,
      zdt, options, **kwargs)`. */
    method ReadValue(sc: SparkContext, layerType: LayerType, uri: string, name: string, zoom: int,
                     col: int, row: int, zdt: Option<string>, options: Option<Options>, kwargs: Options)
      returns (r: Result<Option<Raster>, Error>)
      requires Valid()
      modifies this
      ensures Valid()
      ensures (r, Snapshot())
           == ReadValueSpec(old(Snapshot()), sc, codecs, layerType, uri, name, zoom, col, row, zdt, options, kwargs)
    {
      ReadValueConsistent(Snapshot(), sc, codecs, layerType, uri, name, zoom, col, row, zdt, options, kwargs);
      var inside := InBounds(sc, layerType, uri, name, zoom, col, row);
      if inside.Err? {
        return Err(inside.error);
      }
      if !inside.value {
        return Ok(None);
      }
      var built := ConstructCatalog(sc, uri, SelectOptions(options, kwargs));
      if built.Err? {
        return Err(built.error);
      }
      var cached := bundles[uri];
      var time := if zdt.Some? then zdt.value else "";
      var call := ReadTile(cached.valueReader, KeyName(layerType), name, zoom, col, row, time);
      var values := Invoke(sc.jvm, call);
      if values.Err? {
        return Err(values.error);
      }
      r := Ok(Some(codecs.decodeTile(sc.jvm.tileBytes(values.value, call))));
    }

    /** `query(pysc, rdd_type, uri, layer_name, layer_zoom, query_geom,
      time_intervals, query_proj, options, numPartitions, **kwargs)`. */
    method Query(sc: SparkContext, layerType: LayerType, uri: string, name: string, zoom: int,
                 geom: QueryGeom, intervals: Option<seq<string>>, proj: Proj,
                 options: Option<Options>, numPartitions: Option<int>, kwargs: Options)
      returns (r: Result<Layer, Error>)
      requires Valid()
      modifies this
      ensures Valid()
      ensures (r, Snapshot()) == QuerySpec(old(Snapshot()), sc, codecs, layerType, uri, name, zoom, geom,
                                           intervals, proj, options, numPartitions, kwargs)
    {
      QueryConsistent(Snapshot(), sc, codecs, layerType, uri, name, zoom, geom, intervals, proj,
                      options, numPartitions, kwargs);
      var built := ConstructCatalog(sc, uri, SelectOptions(options, kwargs));
      if built.Err? {
        return Err(built.error);
      }
      var cached := bundles[uri];
      var key := KeyName(layerType);
      var parts := if numPartitions.Some? then numPartitions.value else sc.defaultMinPartitions;
      var call: Call;
      if !Truthy(geom) {
        call := ReadLayer(cached.reader, key, name, zoom, parts);
      } else {
        var timeIntervals := if intervals.Some? then intervals.value else [];
        var queryProj := NormalizeProj(proj);
        var wkb := GeometryPayload(codecs, geom);
        if wkb.Err? {
          return Err(wkb.error);
        }
        call := QueryLayer(cached.reader, key, name, zoom, wkb.value, timeIntervals, queryProj, parts);
      }
      var srdd := Invoke(sc.jvm, call);
      if srdd.Err? {
        return Err(srdd.error);
      }
      r := Ok(TiledRasterLayer(sc, layerType, srdd.value));
    }

    /** The deprecated `read(pysc, rdd_type, uri, layer_name, layer_zoom,
      options, numPartitions, **kwargs)`. */
    method Read(sc: SparkContext, layerType: LayerType, uri: string, name: string, zoom: int,
                options: Option<Options>, numPartitions: Option<int>, kwargs: Options)
      returns (r: Result<Layer, Error>)
      requires Valid()
      modifies this
      ensures Valid()
      ensures (r, Snapshot()) == ReadSpec(old(Snapshot()), sc, codecs, layerType, uri, name, zoom,
                                          options, numPartitions, kwargs)
    {
      r := Query(sc, layerType, uri, name, zoom, NoGeom, None, NoProj, options, numPartitions, map[]);
    }

    /** `write(uri, layer_name, tiled_raster_rdd, index_strategy, time_unit,
      options, **kwargs)`. */
    method Write(uri: string, name: string, layer: Layer, indexStrategy: string, timeUnit: Option<string>,
                 options: Option<Options>, kwargs: Options) returns (r: Result<(), Error>)
      requires Valid()
      modifies this
      ensures Valid()
      ensures (r, Snapshot()) == WriteSpec(old(Snapshot()), uri, name, layer, indexStrategy, timeUnit, options, kwargs)
    {
      WriteConsistent(Snapshot(), uri, name, layer, indexStrategy, timeUnit, options, kwargs);
      var built := ConstructCatalog(layer.pysc, uri, SelectOptions(options, kwargs));
      if built.Err? {
        return Err(built.error);
      }
      var cached := bundles[uri];
      var unit := if timeUnit.Some? then timeUnit.value else "";
      var call := if layer.layerType == Spatial then WriteSpatial(cached.writer, name, layer.srdd, indexStrategy)
                  else WriteTemporal(cached.writer, name, layer.srdd, unit, indexStrategy);
      var written := Invoke(layer.pysc.jvm, call);
      if written.Err? {
        return Err(written.error);
      }
      r := Ok(());
    }
  }
}
