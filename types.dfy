/** The values the catalog exchanges with the code it calls but that is not
    part of this model: the JVM side reached through the Spark gateway (the
    four factories and the store, reader, value-reader and writer objects they
    build), Shapely, the metadata parser and the tile decoder.

    Every call into the JVM is recorded as a `Call` in a trace. The object a
    call returns is named by its `Handle`: the position of that call in the
    trace. What the JVM answers, and whether it throws, is given by a `Jvm`
    value of total functions; the library functions by a `Codecs` value. */
module Types {
  import opened Wrappers

  type Handle = nat
  newtype byte = b: int | 0 <= b < 256
  type Bytes = seq<byte>

  /** A Python dictionary of options or keyword arguments. */
  type Options = map<string, string>

  /** The storage backend a URI scheme selects. */
  datatype Backend = Hadoop | File | S3 | Cassandra | HBase | Accumulo

  /** `LayerType.SPATIAL` and `LayerType.SPACETIME`. */
  datatype LayerType = Spatial | Spacetime {
    /** `LayerType(...).value`. */
    function Value(): string {
      if Spatial? then "spatial" else "spacetime"
    }
  }

  datatype SpatialKey = SpatialKey(col: int, row: int)
  datatype Bounds = Bounds(minKey: SpatialKey, maxKey: SpatialKey)

  /** The part of a layer's metadata the catalog uses, and its CRS. */
  datatype Metadata = Metadata(bounds: Bounds, crs: string)

  /** One entry of `get_layer_ids`: a dict with `name` and `zoom`. */
  datatype LayerId = LayerId(name: string, zoom: int)

  /** A decoded tile: its cells and the no-data value. */
  datatype Raster = Raster(cells: seq<int>, noDataValue: Option<int>)

  /** `geopyspark.geotrellis.Extent`, a named tuple (always truthy). */
  datatype Extent = Extent(xmin: real, ymin: real, xmax: real, ymax: real)

  datatype ShapeKind = PointShape | PolygonShape | MultiPolygonShape | OtherShape(typeName: string)

  /** A Shapely geometry; it is empty (falsy) when it has no coordinates. */
  datatype Shape = Shape(kind: ShapeKind, coords: seq<(real, real)>)

  /** The Python value passed as `query_geom`. */
  datatype QueryGeom =
    | NoGeom                        // None
    | Geom(shape: Shape)            // a Shapely geometry
    | ExtentGeom(extent: Extent)    // an Extent
    | WkbGeom(wkb: Bytes)           // a bytes object
    | OtherValue(truthy: bool)      // any other Python value, with its truth value

  /** The Python value passed as `query_proj`. */
  datatype Proj = NoProj | ProjCode(code: int) | ProjText(text: string)

  /** The calls made into the JVM. Factory calls take the backend-specific
      string arguments in `extra`, in the order the source passes them. */
  datatype Call =
    // AttributeStoreFactory
    | BuildHadoopStore(uri: string, sc: Handle)
    | BuildFileStore(path: string)
    | BuildS3Store(bucket: string, prefix: string)
    | BuildCassandraStore(host: string, username: string, password: string,
                          keyspace: string, table: string, options: Options)
    | BuildHBaseStore(zookeepers: string, master: string, port: string, table: string)
    | BuildAccumuloStore(zookeepers: string, instance: string, user: string,
                         password: string, table: string)
    // LayerReaderFactory, ValueReaderFactory, LayerWriterFactory
    | BuildReader(backend: Backend, store: Handle, sc: Handle, extra: seq<string>)
    | BuildValueReader(backend: Backend, store: Handle)
    | BuildWriter(backend: Backend, store: Handle, extra: seq<string>)
    // the attribute store
    | MetadataSpatial(store: Handle, name: string, zoom: int)
    | MetadataSpaceTime(store: Handle, name: string, zoom: int)
    // the layer reader
    | LayerIds(reader: Handle)
    | ReadLayer(reader: Handle, key: string, name: string, zoom: int, numPartitions: int)
    | QueryLayer(reader: Handle, key: string, name: string, zoom: int, wkb: Bytes,
                 intervals: seq<string>, proj: string, numPartitions: int)
    // the value reader
    | ReadTile(valueReader: Handle, key: string, name: string, zoom: int, col: int, row: int, zdt: string)
    // the layer writer
    | WriteSpatial(writer: Handle, name: string, srdd: Handle, indexStrategy: string)
    | WriteTemporal(writer: Handle, name: string, srdd: Handle, timeUnit: string, indexStrategy: string)

  predicate IsStoreFactoryCall(c: Call) {
    c.BuildHadoopStore? || c.BuildFileStore? || c.BuildS3Store? || c.BuildCassandraStore?
      || c.BuildHBaseStore? || c.BuildAccumuloStore?
  }

  /** The JVM as the catalog sees it: for the call at a trace position,
      whether it throws, and what the metadata, layer-id and tile calls return. */
  datatype Jvm = Jvm(
    raises: (nat, Call) -> bool,
    metadataJson: (nat, Call) -> string,
    layerIds: (nat, Call) -> seq<LayerId>,
    tileBytes: (nat, Call) -> Bytes)

  /** A `pyspark.SparkContext`: the JVM context `_jsc.sc()`, the default
      partition count and the gateway to the JVM. */
  datatype SparkContext = SparkContext(jsc: Handle, defaultMinPartitions: int, jvm: Jvm)

  /** Library code outside the catalog: `shapely.wkb.dumps`, `Extent.to_poly`,
      `Metadata.from_dict(json.loads(...))` and `multibandtile_decoder`. */
  datatype Codecs = Codecs(
    wkbDumps: Shape -> Bytes,
    toPoly: Extent -> Shape,
    parseMetadata: string -> Metadata,
    decodeTile: Bytes -> Raster)

  /** A `TiledRasterLayer`: its context, its layer type and the JVM RDD. */
  datatype Layer = TiledRasterLayer(pysc: SparkContext, layerType: LayerType, srdd: Handle)

  /** The exceptions the modelled code raises. */
  datatype Error =
    | UnsupportedBackend(scheme: string)   // ValueError: no attribute store for the scheme
    | ParameterWithoutValue(param: string) // IndexError: a Cassandra query part without `=`
    | MissingParameter(key: string)        // KeyError: a required Cassandra parameter
    | AuthorityNotPair(netloc: string)     // ValueError: netloc does not split into two on `:`
    | TooFewPathSegments(path: string)     // IndexError: fewer than three Accumulo path segments
    | UnknownKeyType(keyType: string)      // Exception from map_key_input
    | UnsupportedGeometry(geom: QueryGeom) // TypeError: query_geom of an unsupported type
    | NoSparkContext                       // TypeError from GeoPyContext()
    | JvmError(at: nat)                    // the JVM threw on the call at this trace position
}
