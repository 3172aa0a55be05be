# A model of the GeoPySpark catalog

This project models `geopyspark.geotrellis.catalog`, the module through which
GeoPySpark reads, queries and writes GeoTrellis tile layers. It also models
the parts of `GeoPyContext` the catalog relies on.

- **Backends.** Each catalog URI names a storage backend by its scheme:
  `hdfs`, `file`, `s3`, `cassandra`, `hbase` or `accumulo`.
- **Building a catalog.** `_construct_catalog` parses the URI. It then has
  the JVM build four objects: an attribute store, then a layer reader, a value
  reader and a layer writer on that store. The four are kept in the module
  cache `_mapped_cached`, keyed by URI.
- **Bounds.** `_in_bounds` keeps the bounds of each layer name and zoom in a
  second cache, `_mapped_bounds`. It reads them from the layer metadata the
  first time and never replaces them.
- **Public functions.** `read_layer_metadata`, `get_layer_ids`, `query` and
  `write` build (or find) the catalog, then make one call on the store, reader
  or writer. `read` is a `query` without a geometry. There are exceptions:
  - `read_value` first checks the tile against the layer's bounds. Outside
    them it returns `None` and makes no call at all. Inside them it makes one
    call on the value reader.
  - When the bounds of a layer are not cached yet, `_in_bounds` reads the
    metadata itself. It builds the catalog with no options, whatever options
    the caller of `read_value` gave.
  - `query` with a truthy geometry of an unsupported type raises `TypeError`
    after the catalog is built, without any call on the reader.

The model has these layers:

- **`Types`.** The values exchanged with code outside the model.
  - Every call into the JVM is a `Call` value, appended to a trace.
  - An object the JVM returns is named by its `Handle`: the trace position of
    the call that made it.
  - What the JVM answers, and whether a call throws, is a `Jvm` value of
    total functions.
  - Shapely, the metadata parser and the tile decoder are a `Codecs` value.
- **`PyStr` and `UrlParse`.** The Python string operations and the part of
  `urllib.parse.urlparse` the catalog uses.
- **`CatalogAddress`.** How a URI and its options select a backend and the
  arguments of its store factory. This includes the Cassandra query-string
  parsing and the HBase and Accumulo network-location splits.
- **`CatalogArgs`.** The `options`/`**kwargs` precedence, the key class of a
  layer type, and how `query` turns its geometry and projection into reader
  arguments.
- **`CatalogSpec`.** Each public function as a function from the state of the
  two caches and the call trace to a result and a new state. The lemmas here
  state what the module promises, and that every operation keeps the cache
  invariant `Consistent`.
- **`Catalog`.** The imperative side of the module.
  - The Cassandra loop and the scheme dispatch are methods.
  - The class `Catalog.Catalog` holds the two caches and the trace as fields.
  - Each of its methods is proved to produce exactly the result and new state
    of its `CatalogSpec` function.
- **`GeoPyContext`.** `map_key_input`, and how the constructor chooses its
  Spark context.

For an Accumulo URI, the path segments after the leading `/` are read
positionally as zookeepers, instance and table
(geopyspark/geotrellis/catalog.py:95-103).

## Model

| member | source | states |
|---|---|---|
| Catalog.CassandraParameters | geopyspark/geotrellis/catalog.py:56-61 | the loop over the `&`-separated query parts computes `CollectParams`: each part split on its first `=`, a later key overwriting an earlier one, and the first part without `=` raising |
| Catalog.CassandraStore | geopyspark/geotrellis/catalog.py:55-69 | the Cassandra branch equals `CassandraAddress`: the parameters, then the five required keys looked up in order |
| Catalog.ResolveUri | geopyspark/geotrellis/catalog.py:34-116 | the if-chain over `urlparse(uri).scheme` returns exactly `ResolveAddress(uri, options)` |
| Catalog.Catalog.constructor | geopyspark/geotrellis/catalog.py:19-23 | the module starts with both caches empty and no JVM call made, and the invariant holds |
| Catalog.Catalog.BuildObjects | geopyspark/geotrellis/catalog.py:37-121 | an uncached URI's four factory calls are made in order and stop at the first throw; the cache entry is added only after all four return; the result and new state are those of `BuildSpec` |
| Catalog.Catalog.ConstructCatalog | geopyspark/geotrellis/catalog.py:26-121 | `_construct_catalog` keeps the invariant, and its result and new state are those of `ConstructSpec` |
| Catalog.Catalog.ReadLayerMetadata | geopyspark/geotrellis/catalog.py:140-183 | `read_layer_metadata` keeps the invariant and follows `MetadataSpec` |
| Catalog.Catalog.GetLayerIds | geopyspark/geotrellis/catalog.py:185-220 | `get_layer_ids` keeps the invariant and follows `LayerIdsSpec` |
| Catalog.Catalog.InBounds | geopyspark/geotrellis/catalog.py:123-137 | `_in_bounds` keeps the invariant and follows `InBoundsSpec` |
| Catalog.Catalog.ReadValue | geopyspark/geotrellis/catalog.py:237-305 | `read_value` keeps the invariant and follows `ReadValueSpec` |
| Catalog.Catalog.Query | geopyspark/geotrellis/catalog.py:307-425 | `query` keeps the invariant and follows `QuerySpec` |
| Catalog.Catalog.Read | geopyspark/geotrellis/catalog.py:222-235 | `read` keeps the invariant and follows `ReadSpec`, a `query` without geometry or keyword arguments |
| Catalog.Catalog.Write | geopyspark/geotrellis/catalog.py:427-479 | `write` keeps the invariant and follows `WriteSpec` |
| CatalogAddress.CollectParams | geopyspark/geotrellis/catalog.py:59-61 | the dictionary the loop fills; when it fails, the error names a part without `=` |
| CatalogAddress.CollectParamsOk | geopyspark/geotrellis/catalog.py:59-61 | the query parts fill a dictionary exactly when every part contains `=` |
| CatalogAddress.CollectParamsFirstError | geopyspark/geotrellis/catalog.py:59-61 | the error names the first part without `=` |
| CatalogAddress.CollectParamsErrorKind | geopyspark/geotrellis/catalog.py:59-61 | filling the dictionary fails only with the missing-value error |
| CatalogAddress.CollectParamsHasKeys | geopyspark/geotrellis/catalog.py:59-61 | the key of every part (the text before its first `=`) is in the dictionary |
| CatalogAddress.CollectParamsOnlyKeys | geopyspark/geotrellis/catalog.py:59-61 | every key of the dictionary is the key of some part |
| CatalogAddress.CollectParamsSnoc | geopyspark/geotrellis/catalog.py:59-61 | one more part stores the text after its first `=` under its key, on top of the dictionary so far |
| CatalogAddress.CollectParamsLast | geopyspark/geotrellis/catalog.py:59-61 | under each key the dictionary holds the value of the last part with that key |
| CatalogAddress.FirstMissing | geopyspark/geotrellis/catalog.py:64-68 | `None` exactly when all keys are present; otherwise the first absent key in lookup order |
| CatalogAddress.CassandraAddress | geopyspark/geotrellis/catalog.py:55-69 | a Cassandra address exactly when the parameters parse and hold all five required keys, with those values and the options; otherwise the parsing error or `KeyError` on the first missing key |
| CatalogAddress.HBaseAddress | geopyspark/geotrellis/catalog.py:80-86 | succeeds exactly when the network location splits into two on `:`, which join back to it; the table is the path, and `master` comes from the options or is "" |
| CatalogAddress.AccumuloAddress | geopyspark/geotrellis/catalog.py:96-103 | succeeds exactly when the network location splits into user and password and the path has at least three segments after the leading `/`; these are zookeepers, instance and table; otherwise the matching error |
| CatalogAddress.ResolveAddress | geopyspark/geotrellis/catalog.py:34-116 | `ValueError` exactly when the scheme names no backend; an address is always of the backend its scheme names |
| CatalogAddress.SchemeBackend | geopyspark/geotrellis/catalog.py:35-116 | a scheme selects exactly the backend whose scheme it is (`hdfs`, `file`, `s3`, `cassandra`, `hbase`, `accumulo`), and none when no backend has it |
| CatalogAddress.Dispatch | geopyspark/geotrellis/catalog.py:37-116 | on a parsed URI, `ValueError` exactly when the scheme names no backend; an address is always of the backend its scheme names |
| CatalogAddress.CassandraBackend | geopyspark/geotrellis/catalog.py:55-69 | the Cassandra branch yields a Cassandra address and never the unsupported-scheme error |
| CatalogAddress.FactoryCalls | geopyspark/geotrellis/catalog.py:37-113 | every branch makes four calls: a store factory call, then reader, value-reader and writer factory calls of the same backend on that store |
| CatalogAddress.FileUri | geopyspark/geotrellis/catalog.py:43-44 | `file://<path>` builds the file store on `<path>` (`new_uri[7:]`) |
| CatalogAddress.S3Uri | geopyspark/geotrellis/catalog.py:49-50 | `s3://<bucket>/<prefix>` builds the S3 store on the bucket and the path without its leading `/` |
| CatalogAddress.HBaseUri | geopyspark/geotrellis/catalog.py:77-88 | `hbase://<zookeepers>:<port><table>` builds the HBase store on the zookeepers, the `master` option or "", the port and the table |
| CatalogAddress.AccumuloUri | geopyspark/geotrellis/catalog.py:93-103 | `accumulo://<user>:<password>/<zookeepers>/<instance>/<table>` builds the Accumulo store on those five parts |
| CatalogAddress.CassandraUriWithoutValue | geopyspark/geotrellis/catalog.py:59-61 | a Cassandra URI with a query part without `=` resolves to the error naming the first such part |
| CatalogAddress.CassandraUriMissingKey | geopyspark/geotrellis/catalog.py:63-68 | a Cassandra URI that lacks a required parameter resolves to `KeyError` on the first missing one |
| CatalogArgs.SelectOptions | geopyspark/geotrellis/catalog.py:168-173 | a non-empty `options` wins; otherwise the keyword arguments (empty when none) |
| CatalogArgs.SelectOptionsEmpty | geopyspark/geotrellis/catalog.py:168-173 | the chosen options are empty exactly when both sources are |
| CatalogArgs.EmptyOptionsAreAbsent | geopyspark/geotrellis/catalog.py:168 | an empty `options` dictionary counts as none |
| CatalogArgs.KeyName | geopyspark/geotrellis/catalog.py:378 | `map_key_input(LayerType(rdd_type).value, True)` never raises and gives `SpatialKey` for a spatial layer, `SpaceTimeKey` otherwise |
| CatalogArgs.Truthy | geopyspark/geotrellis/catalog.py:383 | the truth value of `query_geom`: `None` is falsy, an `Extent` always truthy, and `bytes` truthy exactly when non-empty |
| CatalogArgs.GeometryPayload | geopyspark/geotrellis/catalog.py:396-423 | WKB exactly for a Point, Polygon or MultiPolygon (its own WKB), an `Extent` (its polygon's WKB) or `bytes` (as given); `TypeError` for anything else |
| CatalogArgs.GeometryAsWkb | geopyspark/geotrellis/catalog.py:396-421 | a supported geometry gives the same reader argument as its WKB bytes |
| CatalogArgs.ExtentAsPolygon | geopyspark/geotrellis/catalog.py:405-412 | an extent gives the same reader argument as its polygon |
| CatalogArgs.NormalizeProj | geopyspark/geotrellis/catalog.py:391-394 | `None` becomes "", a string is kept, and an integer becomes `EPSG:` followed by digits that read back as that integer |
| CatalogArgs.ProjCodeInjective | geopyspark/geotrellis/catalog.py:393-394 | distinct EPSG codes give distinct projection strings |
| CatalogSpec.ConstructSpec | geopyspark/geotrellis/catalog.py:26-121 | no cache entry is removed or replaced and the trace only grows; the URI is added exactly on success and maps to the result; a failure means it was not cached |
| CatalogSpec.BuildSpec | geopyspark/geotrellis/catalog.py:34-121 | a resolution error raises with nothing changed; otherwise the same growth facts, with the URI added exactly on success |
| CatalogSpec.RunCalls | geopyspark/geotrellis/catalog.py:38-41 | straight-line calls succeed exactly when none throws, and then append exactly those calls |
| CatalogSpec.MetadataSpec | geopyspark/geotrellis/catalog.py:140-183 | the bounds cache is unchanged and nothing is removed; at most the URI is added, and it is cached on success |
| CatalogSpec.LayerIdsSpec | geopyspark/geotrellis/catalog.py:185-220 | the bounds cache is unchanged; at most the URI is added to the catalog cache |
| CatalogSpec.InRect | geopyspark/geotrellis/catalog.py:131-137 | true exactly when the column and the row lie within the bounds, both corners included |
| CatalogSpec.InBoundsSpec | geopyspark/geotrellis/catalog.py:123-137 | only the (name, zoom) key can be added to the bounds cache and nothing is replaced; the answer is the inclusive check against the stored bounds |
| CatalogSpec.ReadValueSpec | geopyspark/geotrellis/catalog.py:237-305 | nothing is removed or replaced; only the (name, zoom) bounds can be added |
| CatalogSpec.TileSpec | geopyspark/geotrellis/catalog.py:288-305 | the bounds cache is unchanged, and a successful tile read returns a tile, never `None` |
| CatalogSpec.QuerySpec | geopyspark/geotrellis/catalog.py:307-425 | a layer on the given context and layer type, whose RDD is the object returned by the last call made |
| CatalogSpec.ReadSpec | geopyspark/geotrellis/catalog.py:222-235 | the bounds cache is unchanged and nothing is removed |
| CatalogSpec.WriteSpec | geopyspark/geotrellis/catalog.py:427-479 | the bounds cache is unchanged; at most the URI is added to the catalog cache |
| CatalogSpec.ConstructConsistent | geopyspark/geotrellis/catalog.py:118-121 | `_construct_catalog` keeps every entry made of four consecutive, matching factory calls, with distinct stores for distinct URIs |
| CatalogSpec.BuildConsistent | geopyspark/geotrellis/catalog.py:118-121 | a new entry is made of the four calls just appended, after all cached objects |
| CatalogSpec.MetadataConsistent | geopyspark/geotrellis/catalog.py:175-183 | `read_layer_metadata` keeps the invariant |
| CatalogSpec.LayerIdsConsistent | geopyspark/geotrellis/catalog.py:217-220 | `get_layer_ids` keeps the invariant |
| CatalogSpec.InBoundsConsistent | geopyspark/geotrellis/catalog.py:124-127 | `_in_bounds` keeps the invariant |
| CatalogSpec.ReadValueConsistent | geopyspark/geotrellis/catalog.py:278-305 | `read_value` keeps the invariant |
| CatalogSpec.TileConsistent | geopyspark/geotrellis/catalog.py:288-303 | the tile read keeps the invariant |
| CatalogSpec.QueryConsistent | geopyspark/geotrellis/catalog.py:374-425 | `query` keeps the invariant |
| CatalogSpec.WriteConsistent | geopyspark/geotrellis/catalog.py:464-479 | `write` keeps the invariant |
| CatalogSpec.ConstructHit | geopyspark/geotrellis/catalog.py:27 | a cached URI is answered from the cache: no call, no change, whatever the options |
| CatalogSpec.ConstructMiss | geopyspark/geotrellis/catalog.py:27-121 | an uncached URI whose four calls return adds exactly that URI, bound to the four new objects, after exactly its four factory calls |
| CatalogSpec.ConstructUnsupported | geopyspark/geotrellis/catalog.py:115-116 | an unknown scheme raises `ValueError` with no call made and nothing cached |
| CatalogSpec.ConstructCassandraWithoutValue | geopyspark/geotrellis/catalog.py:59-61 | a Cassandra query part without `=` fails on the first such part, with no call made |
| CatalogSpec.ConstructCassandraMissingKey | geopyspark/geotrellis/catalog.py:63-68 | a missing required Cassandra parameter raises `KeyError` on the first one, with no call made |
| CatalogSpec.ConstructIdempotent | geopyspark/geotrellis/catalog.py:27 | constructing a URI a second time, with any context and options, changes nothing |
| CatalogSpec.ConstructFailureNotCached | geopyspark/geotrellis/catalog.py:118-121 | a failed construction leaves the cache as it was and the URI uncached |
| CatalogSpec.MetadataCall | geopyspark/geotrellis/catalog.py:178-181 | a `metadataSpatial` call exactly for a spatial layer, otherwise `metadataSpaceTime`, on the cached store with the layer's name and zoom |
| CatalogSpec.MetadataCached | geopyspark/geotrellis/catalog.py:175-183 | on a cached URI: one `metadataSpatial` or `metadataSpaceTime` call, by layer type, and the parsed JSON |
| CatalogSpec.LayerIdsCached | geopyspark/geotrellis/catalog.py:217-220 | on a cached URI: one `layerIds` call on the cached reader, returning its answer |
| CatalogSpec.InBoundsHit | geopyspark/geotrellis/catalog.py:124-137 | cached bounds are used with no metadata read; the answer depends only on the name and zoom, not on the URI, the layer type or the context |
| CatalogSpec.InBoundsMiss | geopyspark/geotrellis/catalog.py:124-127 | the first check reads the metadata once and stores its bounds under (name, zoom) |
| CatalogSpec.InBoundsWriteOnce | geopyspark/geotrellis/catalog.py:124-129 | stored bounds are never replaced |
| CatalogSpec.ReadValueOutside | geopyspark/geotrellis/catalog.py:278-279 | a tile outside the stored bounds is `None`, with no call |
| CatalogSpec.ReadValueNoneReadsNoTile | geopyspark/geotrellis/catalog.py:278-279 | a `None` result comes only from a failed bounds check, and no call follows it |
| CatalogSpec.ReadValueInside | geopyspark/geotrellis/catalog.py:288-305 | inside the stored bounds, on a cached URI: one `readTile` call with the key class and "" for a missing time, and the decoded tile |
| CatalogSpec.ReadValueInsideIsTile | geopyspark/geotrellis/catalog.py:278-305 | a passed bounds check is followed by the tile read with the chosen options |
| CatalogSpec.ReadValueNotInside | geopyspark/geotrellis/catalog.py:278-279 | otherwise the result is the bounds check's error or `None` |
| CatalogSpec.ReadValueFirstReadIgnoresOptions | geopyspark/geotrellis/catalog.py:125 | on a first read, `_in_bounds` builds the catalog with empty options, so the options given to `read_value` make no difference |
| CatalogSpec.TileCached | geopyspark/geotrellis/catalog.py:288-291 | on a cached URI the options make no difference to the tile read |
| CatalogSpec.QueryCall | geopyspark/geotrellis/catalog.py:383-423 | a falsy geometry gives a plain `read` call; a truthy one the `query` call with its WKB, `[]` for missing intervals, the normalised projection and the partition count; `TypeError` exactly for a truthy geometry of an unsupported type |
| CatalogSpec.QueryPlain | geopyspark/geotrellis/catalog.py:380-385 | a falsy geometry on a cached URI gives one plain `read` of the layer, with the default partition count when none is given |
| CatalogSpec.QueryFiltered | geopyspark/geotrellis/catalog.py:387-421 | a truthy supported geometry on a cached URI gives one `query` call with its WKB, `[]` for missing intervals, the normalised projection and the partition count |
| CatalogSpec.QueryUnsupportedGeometry | geopyspark/geotrellis/catalog.py:422-423 | an unsupported truthy geometry raises `TypeError` after the catalog is built, with no reader call |
| CatalogSpec.QueryGeometryAsWkb | geopyspark/geotrellis/catalog.py:396-421 | a supported geometry and its WKB bytes give the same query |
| CatalogSpec.QueryEpsgCode | geopyspark/geotrellis/catalog.py:393-394 | an integer projection queries as the string `EPSG:<code>` |
| CatalogSpec.ReadIgnoresKwargs | geopyspark/geotrellis/catalog.py:234-235 | `read` does not pass on its keyword arguments |
| CatalogSpec.ReadCached | geopyspark/geotrellis/catalog.py:234-235 | on a cached URI, `read` makes one plain `read` call on the cached reader |
| CatalogSpec.WriteCall | geopyspark/geotrellis/catalog.py:468-479 | a `writeSpatial` call exactly for a spatial layer, otherwise `writeTemporal` with the time unit or ""; always on the cached writer with the name, the layer's RDD and the index strategy |
| CatalogSpec.WriteCached | geopyspark/geotrellis/catalog.py:468-479 | on a cached URI: `writeSpatial` for a spatial layer, otherwise `writeTemporal` with "" for a missing time unit, on the cached writer |
| GeoPyContext.MapKeyInput | geopyspark/geopycontext.py:64-79 | succeeds exactly for "spatial" and "spacetime", otherwise raises; the tiled key classes exactly when `is_boundable` |
| GeoPyContext.KeyClasses | geopyspark/geopycontext.py:66-77 | the four valid inputs map to `SpatialKey`, `SpaceTimeKey`, `ProjectedExtent` and `TemporalProjectedExtent` |
| GeoPyContext.MapKeyInputInjective | geopyspark/geopycontext.py:64-79 | distinct valid inputs give distinct key classes |
| GeoPyContext.NewContext | geopyspark/geopycontext.py:9-17 | a given context wins; otherwise non-empty keyword arguments build one; with neither it raises `TypeError` |
| GeoPyContext.GivenContextIgnoresKwargs | geopyspark/geopycontext.py:10-11 | given a context, the keyword arguments make no difference |
| PyStr.Split | geopyspark/geotrellis/catalog.py:56 | `str.split` gives at least one piece, and no piece contains the separator |
| PyStr.JoinSplit | geopyspark/geotrellis/catalog.py:80 | joining the pieces of a split gives back the string |
| PyStr.SplitJoin | geopyspark/geotrellis/catalog.py:56 | splitting a join of separator-free pieces gives back the pieces |
| PyStr.SplitOnce | geopyspark/geotrellis/catalog.py:60 | `split('=', 1)` gives one piece exactly when there is no `=`; otherwise the text before the first `=` and the rest |
| PyStr.SplitOnceJoin | geopyspark/geotrellis/catalog.py:60 | the first `=` after an `=`-free prefix is where `split('=', 1)` cuts |
| PyStr.Drop | geopyspark/geotrellis/catalog.py:44 | `s[k:]` has the characters from index `k` on, and is empty past the end |
| PyStr.IntRoundTrip | geopyspark/geotrellis/catalog.py:394 | `str(n)` reads back as `n` |
| UrlParse.UrlSplit | geopyspark/geotrellis/catalog.py:34 | `urlparse`: the network location holds no `/`, `?` or `#`, the path no `?` or `#`, and the query no `#` |
| UrlParse.SplitUnsplit | geopyspark/geotrellis/catalog.py:34 | `urlparse` takes apart a URL built from unambiguous components |
| UrlParse.SchemeOf | geopyspark/geotrellis/catalog.py:34-35 | the scheme of `scheme:rest` is `scheme` |

## Left out

- The JVM side is not part of this model: the factories, stores, readers and writers reached through `pysc._gateway.jvm`. Each call is recorded with its arguments. Whether it throws, and what it returns, is a free parameter (`Jvm`).
- `pysc._jsc.sc()` is modelled as a fixed handle of the Spark context. The model does not count it as a JVM call.
- `urlparse` is modelled for the URIs the catalog handles. It does not strip whitespace or control characters, and it does not validate IPv6 brackets or ports. `;` parameters are not split off, so `urlsplit` and `urlparse` agree on the six schemes.
- Shapely, `Extent.to_poly`, `Metadata.from_dict(json.loads(...))` and `multibandtile_decoder` are not part of this model. They are uninterpreted functions (`Codecs`). So is a `readTile` that returns no value.
- `TiledRasterLayer` and Spark are not part of this model. A layer is its context, its layer type and the handle of the JVM RDD.
- The `@deprecated` decorator on `read` only emits a warning. It is not modelled.
- `rdd_type` is a `LayerType` value. The `ValueError` that `LayerType(...)` raises on an unknown string is not modelled.
- `query_proj` is `None`, an integer or a string; any other value passes through unchanged in the source and is not modelled. Python's `bool` being an `int` (so `True` would become `EPSG:True`) is not modelled.
- The default `index_strategy` (`IndexingMethod.ZORDER`) is not modelled: the index strategy is a parameter of `write`.
- What a write does to the backend, and later reads of a written layer, are not part of this model.
- `catalog.py` imports the package-level `map_key_input`, whose source is not part of this model. It is modelled by `GeoPyContext.map_key_input`, which it mirrors.
- The rest of `GeoPyContext` is not modelled: its JVM properties, the Avro serializers and RDD helpers, `stop` and `close_gateway`. Of its constructor, only the choice of context is modelled; `self.sc`, `self._jvm` and the Avro registry are not.
- `_mapped_serializers` is declared by the module but never used. It is not modelled.
- `projected_extent_test.py` tests code outside the catalog. It is not modelled.
- Concurrent use of the module caches is not modelled.
