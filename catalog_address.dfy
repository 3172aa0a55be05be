/** URI dispatch of `catalog._construct_catalog`: which backend a URI selects,
    the address fields each backend reads out of it, and the four factory
    calls that build a backend's attribute store, layer reader, value reader
    and layer writer. */
module CatalogAddress {
  import opened Wrappers
  import opened PyStr
  import opened UrlParse
  import opened Types

  /** The arguments a backend's store factory is called with. */
  datatype Address =
    | HadoopAddr(uri: string)
    | FileAddr(path: string)
    | S3Addr(bucket: string, prefix: string)
    | CassandraAddr(host: string, username: string, password: string,
                    keyspace: string, table: string, options: Options)
    | HBaseAddr(zookeepers: string, master: string, port: string, table: string)
    | AccumuloAddr(zookeepers: string, instance: string, user: string,
                   password: string, table: string)
  {
    function Kind(): Backend {
      match this
      case HadoopAddr(_) => Hadoop
      case FileAddr(_) => File
      case S3Addr(_, _) => S3
      case CassandraAddr(_, _, _, _, _, _) => Cassandra
      case HBaseAddr(_, _, _, _) => HBase
      case AccumuloAddr(_, _, _, _, _) => Accumulo
    }
  }

  /** The URI scheme `_construct_catalog` recognises for a backend. */
  function SchemeName(b: Backend): string {
    match b
    case Hadoop => "hdfs"
    case File => "file"
    case S3 => "s3"
    case Cassandra => "cassandra"
    case HBase => "hbase"
    case Accumulo => "accumulo"
  }

  /** The backend a URI scheme names, if any: exactly the backend whose
      scheme it is, and none when no backend has that scheme. */
  function SchemeBackend(scheme: string): (r: Option<Backend>)
    ensures r.Some? ==> SchemeName(r.value) == scheme
    ensures r.None? ==> forall b :: SchemeName(b) != scheme
  {
    if scheme == "hdfs" then Some(Hadoop)
    else if scheme == "file" then Some(File)
    else if scheme == "s3" then Some(S3)
    else if scheme == "cassandra" then Some(Cassandra)
    else if scheme == "hbase" then Some(HBase)
    else if scheme == "accumulo" then Some(Accumulo)
    else None
  }

  // ---- Cassandra: key=value pairs of the query string ----

  /** The key of a query part: the text before its first `=`. */
  function ParamKey(part: string): string {
    var i := Find(part, '=');
    if i < 0 then part else part[..i]
  }

  /** The value of a query part: the text after its first `=`. */
  function ParamValue(part: string): string
    requires '=' in part
  {
    part[Find(part, '=') + 1..]
  }

  /** The dictionary the Cassandra branch fills from the `&`-separated parts
      of the query, one part after the other: each part is split on its first
      `=` and stored under its key, and the first part without `=` raises. */
  function CollectParams(parts: seq<string>): (r: Result<Options, Error>)
    ensures r.Err? ==> exists i :: 0 <= i < |parts| && '=' !in parts[i] && r.error == ParameterWithoutValue(parts[i])
    decreases |parts|
  {
    if |parts| == 0 then Ok(map[])
    else
      var last := parts[|parts| - 1];
      match CollectParams(parts[..|parts| - 1])
      case Err(e) => Err(e)
      case Ok(m) =>
        if '=' !in last then Err(ParameterWithoutValue(last)) else Ok(m[ParamKey(last) := ParamValue(last)])
  }

  /** The parts fill a dictionary exactly when every one of them has an `=`. */
  lemma {:induction false} CollectParamsOk(parts: seq<string>)
    ensures CollectParams(parts).Ok? <==> forall i :: 0 <= i < |parts| ==> '=' in parts[i]
    decreases |parts|
  {
    if |parts| > 0 {
      var n := |parts| - 1;
      var init := parts[..n];
      CollectParamsOk(init);
      assert CollectParams(parts).Ok? <==> CollectParams(init).Ok? && '=' in parts[n];
      assert forall i :: 0 <= i < n ==> init[i] == parts[i];
    }
  }

  /** The error names the first part without `=`. */
  lemma {:induction false} CollectParamsFirstError(parts: seq<string>, j: nat)
    requires j < |parts| && '=' !in parts[j]
    requires forall i :: 0 <= i < j ==> '=' in parts[i]
    ensures CollectParams(parts) == Err(ParameterWithoutValue(parts[j]))
    decreases |parts|
  {
    var init := parts[..|parts| - 1];
    if j < |parts| - 1 {
      CollectParamsFirstError(init, j);
    } else {
      CollectParamsOk(init);
    }
  }

  /** A filled dictionary has the key of every part ... */
  lemma {:induction false} CollectParamsHasKeys(parts: seq<string>, i: nat)
    requires CollectParams(parts).Ok? && i < |parts|
    ensures ParamKey(parts[i]) in CollectParams(parts).value
    decreases |parts|
  {
    var n := |parts| - 1;
    CollectParamsSnoc(parts);
    if i < n {
      var init := parts[..n];
      CollectParamsHasKeys(init, i);
      assert init[i] == parts[i];
    }
  }

  /** ... and no other key. */
  lemma {:induction false} CollectParamsOnlyKeys(parts: seq<string>, k: string)
    requires CollectParams(parts).Ok?
    requires k in CollectParams(parts).value
    ensures exists i :: 0 <= i < |parts| && ParamKey(parts[i]) == k
    decreases |parts|
  {
    var n := |parts| - 1;
    var init := parts[..n];
    CollectParamsSnoc(parts);
    if k != ParamKey(parts[n]) {
      CollectParamsOnlyKeys(init, k);
      var i :| 0 <= i < n && ParamKey(init[i]) == k;
      assert parts[i] == init[i];
    }
  }

  /** One more part with an `=` stores its value under its key. */
  lemma CollectParamsSnoc(parts: seq<string>)
    requires |parts| > 0 && CollectParams(parts).Ok?
    ensures CollectParams(parts[..|parts| - 1]).Ok?
    ensures '=' in parts[|parts| - 1]
    ensures var last := parts[|parts| - 1];
            CollectParams(parts).value
              == CollectParams(parts[..|parts| - 1]).value[ParamKey(last) := ParamValue(last)]
  {
  }

  /** A filled dictionary holds, under a key, the value of the LAST part with
      that key: a later duplicate overwrites an earlier one. */
  lemma {:induction false} CollectParamsLast(parts: seq<string>, i: nat)
    requires CollectParams(parts).Ok?
    requires i < |parts|
    requires forall j :: i < j < |parts| ==> ParamKey(parts[j]) != ParamKey(parts[i])
    ensures '=' in parts[i]
    ensures ParamKey(parts[i]) in CollectParams(parts).value
    ensures CollectParams(parts).value[ParamKey(parts[i])] == ParamValue(parts[i])
    decreases |parts|
  {
    CollectParamsOk(parts);
    var n := |parts| - 1;
    if i < n {
      var init := parts[..n];
      assert init[i] == parts[i];
      CollectParamsLast(init, i);
    }
  }

  /** The first of `keys` that `m` lacks, if any. */
  function FirstMissing(m: Options, keys: seq<string>): (r: Option<string>)
    ensures r.None? <==> forall i :: 0 <= i < |keys| ==> keys[i] in m
    ensures r.Some? ==> exists i :: 0 <= i < |keys| && keys[i] == r.value && keys[i] !in m
                                    && forall j :: 0 <= j < i ==> keys[j] in m
    decreases |keys|
  {
    if |keys| == 0 then None
    else if keys[0] !in m then Some(keys[0])
    else
      var r := FirstMissing(m, keys[1..]);
      assert forall i :: 1 <= i < |keys| ==> keys[i] == keys[1..][i - 1];
      r
  }

  /** The parameters `CassandraAddress` requires, in the order it looks them up. */
  const CassandraKeys := ["host", "username", "password", "keyspace", "table"]

  /** The Cassandra address: the query string's parameters, of which `host`,
      `username`, `password`, `keyspace` and `table` are required (the first
      one missing raises `KeyError`), and the options passed to the store
      factory. */
  function CassandraAddress(query: string, options: Options): (r: Result<Address, Error>)
    ensures r.Ok? <==> CollectParams(Split(query, '&')).Ok?
                       && forall i :: 0 <= i < |CassandraKeys| ==> CassandraKeys[i] in CollectParams(Split(query, '&')).value
    ensures r.Ok? ==> var m := CollectParams(Split(query, '&')).value;
                      && "host" in m && "username" in m && "password" in m && "keyspace" in m && "table" in m
                      && r.value == CassandraAddr(m["host"], m["username"], m["password"], m["keyspace"], m["table"], options)
    ensures r.Err? ==> r.error.ParameterWithoutValue? || r.error.MissingParameter?
    ensures CollectParams(Split(query, '&')).Err? ==> r == Err(CollectParams(Split(query, '&')).error)
    ensures r.Err? && CollectParams(Split(query, '&')).Ok? ==>
              r.error == MissingParameter(FirstMissing(CollectParams(Split(query, '&')).value, CassandraKeys).value)
  {
    CollectParamsErrorKind(Split(query, '&'));
    match CollectParams(Split(query, '&'))
    case Err(e) => Err(e)
    case Ok(m) =>
      var missing := FirstMissing(m, CassandraKeys);
      if missing.Some? then Err(MissingParameter(missing.value))
      else
        assert CassandraKeys[0] in m && CassandraKeys[1] in m && CassandraKeys[2] in m
            && CassandraKeys[3] in m && CassandraKeys[4] in m;
        Ok(CassandraAddr(m["host"], m["username"], m["password"], m["keyspace"], m["table"], options))
  }

  /** A query string only ever fails on a part without `=`. */
  lemma {:induction false} CollectParamsErrorKind(parts: seq<string>)
    ensures CollectParams(parts).Err? ==> CollectParams(parts).error.ParameterWithoutValue?
    decreases |parts|
  {
    if |parts| > 0 {
      CollectParamsErrorKind(parts[..|parts| - 1]);
    }
  }

  // ---- HBase and Accumulo: split network location and path ----

  /** `(zookeepers, port) = netloc.split(':')`; the table is the path as it
      is, and `master` comes from the options when they have it. */
  function HBaseAddress(parsed: SplitResult, options: Options): (r: Result<Address, Error>)
    ensures r.Ok? <==> |Split(parsed.netloc, ':')| == 2
    ensures r.Err? ==> r.error == AuthorityNotPair(parsed.netloc)
    ensures r.Ok? ==> r.value.HBaseAddr?
                      && Join([r.value.zookeepers, r.value.port], ':') == parsed.netloc
                      && r.value.table == parsed.path
                      && r.value.master == (if "master" in options then options["master"] else "")
  {
    var zp := Split(parsed.netloc, ':');
    JoinSplit(parsed.netloc, ':');
    if |zp| != 2 then Err(AuthorityNotPair(parsed.netloc))
    else
      var master := if "master" in options then options["master"] else "";
      Ok(HBaseAddr(zp[0], master, zp[1], parsed.path))
  }

  /** `(user, password) = netloc.split(':')`, and the path after its first
      `/`-separated piece gives the zookeepers, the instance and the table
      by position; a fourth segment and beyond are ignored. */
  function AccumuloAddress(parsed: SplitResult): (r: Result<Address, Error>)
    ensures r.Ok? <==> |Split(parsed.netloc, ':')| == 2 && |Split(parsed.path, '/')| >= 4
    ensures r.Err? && |Split(parsed.netloc, ':')| != 2 ==> r.error == AuthorityNotPair(parsed.netloc)
    ensures r.Err? && |Split(parsed.netloc, ':')| == 2 ==> r.error == TooFewPathSegments(parsed.path)
    ensures r.Ok? ==> var segs := Split(parsed.path, '/');
                      && r.value.AccumuloAddr?
                      && Join([r.value.user, r.value.password], ':') == parsed.netloc
                      && r.value.zookeepers == segs[1] && r.value.instance == segs[2] && r.value.table == segs[3]
  {
    var up := Split(parsed.netloc, ':');
    JoinSplit(parsed.netloc, ':');
    if |up| != 2 then Err(AuthorityNotPair(parsed.netloc))
    else
      var segs := Split(parsed.path, '/')[1..];
      if |segs| < 3 then Err(TooFewPathSegments(parsed.path))
      else Ok(AccumuloAddr(segs[0], segs[1], up[0], up[1], segs[2]))
  }

  /** The address `_construct_catalog` resolves `uri` to, by the scheme of
      `urlparse(uri)`; an unknown scheme raises `ValueError`. */
  function ResolveAddress(uri: string, options: Options): (r: Result<Address, Error>)
    ensures SchemeBackend(UrlSplit(uri).scheme).None? <==> r == Err(UnsupportedBackend(UrlSplit(uri).scheme))
    ensures r.Ok? ==> SchemeBackend(UrlSplit(uri).scheme) == Some(r.value.Kind())
  {
    Dispatch(UrlSplit(uri), uri, options)
  }

  /** The branch of `_construct_catalog` for the scheme of `parsed`, the
      parsed form of `uri`. Only an unknown scheme raises `ValueError`, and
      every address is of the backend its scheme names. */
  function Dispatch(parsed: SplitResult, uri: string, options: Options): (r: Result<Address, Error>)
    ensures SchemeBackend(parsed.scheme).None? <==> r == Err(UnsupportedBackend(parsed.scheme))
    ensures r.Ok? ==> SchemeBackend(parsed.scheme) == Some(r.value.Kind())
  {
    match SchemeBackend(parsed.scheme)
    case None => Err(UnsupportedBackend(parsed.scheme))
    case Some(Hadoop) => Ok(HadoopAddr(uri))
    case Some(File) => Ok(FileAddr(Drop(uri, 7)))
    case Some(S3) => Ok(S3Addr(parsed.netloc, Drop(parsed.path, 1)))
    case Some(Cassandra) =>
      CassandraBackend(parsed.query, options);
      CassandraAddress(parsed.query, options)
    case Some(HBase) =>
      HBaseBackend(parsed, options);
      HBaseAddress(parsed, options)
    case Some(Accumulo) =>
      AccumuloBackend(parsed);
      AccumuloAddress(parsed)
  }


  /** The Cassandra, HBase and Accumulo branches fail only on the parts of
      the URI they read, never with `ValueError`. */
  lemma CassandraBackend(query: string, options: Options)
    ensures CassandraAddress(query, options).Ok? ==> CassandraAddress(query, options).value.Kind() == Cassandra
    ensures CassandraAddress(query, options).Err? ==> !CassandraAddress(query, options).error.UnsupportedBackend?
  {
  }

  lemma HBaseBackend(p: SplitResult, options: Options)
    ensures HBaseAddress(p, options).Ok? ==> HBaseAddress(p, options).value.Kind() == HBase
    ensures HBaseAddress(p, options).Err? ==> !HBaseAddress(p, options).error.UnsupportedBackend?
  {
  }

  lemma AccumuloBackend(p: SplitResult)
    ensures AccumuloAddress(p).Ok? ==> AccumuloAddress(p).value.Kind() == Accumulo
    ensures AccumuloAddress(p).Err? ==> !AccumuloAddress(p).error.UnsupportedBackend?
  {
  }

  /** The four factory calls for an address, when the store they are built
      from will be the object returned by the call at trace position `store`. */
  function FactoryCalls(addr: Address, sc: Handle, store: Handle): (cs: seq<Call>)
    ensures |cs| == 4 && IsStoreFactoryCall(cs[0])
    ensures cs[1].BuildReader? && cs[1].store == store && cs[1].backend == addr.Kind()
    ensures cs[2].BuildValueReader? && cs[2].store == store && cs[2].backend == addr.Kind()
    ensures cs[3].BuildWriter? && cs[3].store == store && cs[3].backend == addr.Kind()
  {
    var kind := addr.Kind();
    match addr
    case HadoopAddr(uri) =>
      [BuildHadoopStore(uri, sc), BuildReader(kind, store, sc, []), BuildValueReader(kind, store),
       BuildWriter(kind, store, [])]
    case FileAddr(path) =>
      [BuildFileStore(path), BuildReader(kind, store, sc, []), BuildValueReader(kind, store),
       BuildWriter(kind, store, [])]
    case S3Addr(bucket, prefix) =>
      [BuildS3Store(bucket, prefix), BuildReader(kind, store, sc, []), BuildValueReader(kind, store),
       BuildWriter(kind, store, [])]
    case CassandraAddr(host, username, password, keyspace, table, options) =>
      [BuildCassandraStore(host, username, password, keyspace, table, options),
       BuildReader(kind, store, sc, []), BuildValueReader(kind, store),
       BuildWriter(kind, store, [keyspace, table])]
    case HBaseAddr(zookeepers, master, port, table) =>
      [BuildHBaseStore(zookeepers, master, port, table), BuildReader(kind, store, sc, []),
       BuildValueReader(kind, store), BuildWriter(kind, store, [table])]
    case AccumuloAddr(zookeepers, instance, user, password, table) =>
      [BuildAccumuloStore(zookeepers, instance, user, password, table),
       BuildReader(kind, store, sc, [instance]), BuildValueReader(kind, store),
       BuildWriter(kind, store, [instance, table])]
  }

  // ---- The URI shapes the source documents ----

  /** `file://<path>` builds the file store on `<path>` (`new_uri[7:]`). */
  lemma FileUri(path: string, options: Options)
    ensures ResolveAddress("file://" + path, options) == Ok(FileAddr(path))
  {
    var uri := "file://" + path;
    var p := FileSplit(path, uri);
    ResolveParsed(uri, p, options);
    FileDispatch(p, uri, options);
    assert Drop(uri, 7) == path;
  }

  lemma FileSplit(path: string, uri: string) returns (p: SplitResult)
    requires uri == "file://" + path
    ensures p == UrlSplit(uri) && p.scheme == "file"
  {
    assert uri == "file" + ":" + ("//" + path);
    SchemeOf("file", "//" + path);
    p := UrlSplit(uri);
  }

  lemma HadoopDispatch(p: SplitResult, uri: string, options: Options)
    requires p.scheme == "hdfs"
    ensures Dispatch(p, uri, options) == Ok(HadoopAddr(uri))
  {
  }

  lemma HBaseParsedDispatch(p: SplitResult, uri: string, options: Options)
    requires p.scheme == "hbase"
    ensures Dispatch(p, uri, options) == HBaseAddress(p, options)
  {
  }

  lemma AccumuloParsedDispatch(p: SplitResult, uri: string, options: Options)
    requires p.scheme == "accumulo"
    ensures Dispatch(p, uri, options) == AccumuloAddress(p)
  {
  }

  lemma UnsupportedDispatch(p: SplitResult, uri: string, options: Options)
    requires SchemeBackend(p.scheme).None?
    ensures Dispatch(p, uri, options) == Err(UnsupportedBackend(p.scheme))
  {
  }

  lemma FileDispatch(p: SplitResult, uri: string, options: Options)
    requires p.scheme == "file"
    ensures Dispatch(p, uri, options) == Ok(FileAddr(Drop(uri, 7)))
  {
  }

  /** `s3://<bucket>/<prefix>` builds the S3 store on `<bucket>` and
      `<prefix>`, the path without its leading `/`. */
  lemma S3Uri(bucket: string, prefix: string, options: Options)
    requires forall k :: 0 <= k < |bucket| ==> bucket[k] !in NetlocEnd
    requires '?' !in prefix && '#' !in prefix
    ensures ResolveAddress("s3://" + bucket + "/" + prefix, options) == Ok(S3Addr(bucket, prefix))
  {
    var uri := "s3://" + bucket + "/" + prefix;
    var p := SplitResult("s3", bucket, "/" + prefix, "", "");
    S3Unsplit(bucket, prefix, p);
    SplitUnsplit(p);
    ResolveParsed(uri, p, options);
    S3Dispatch(p, uri, options);
    assert Drop("/" + prefix, 1) == prefix;
  }

  lemma S3Unsplit(bucket: string, prefix: string, p: SplitResult)
    requires p == SplitResult("s3", bucket, "/" + prefix, "", "")
    ensures Unsplit(p) == "s3://" + bucket + "/" + prefix
  {
  }

  lemma S3Dispatch(p: SplitResult, uri: string, options: Options)
    requires p.scheme == "s3"
    ensures Dispatch(p, uri, options) == Ok(S3Addr(p.netloc, Drop(p.path, 1)))
  {
  }

  /** `hbase://<zookeepers>:<port><table>` builds the HBase store on the
      zookeepers, the master option, the port and the table path. */
  lemma HBaseUri(zookeepers: string, port: string, table: string, options: Options)
    requires ':' !in zookeepers && ':' !in port
    requires forall k :: 0 <= k < |zookeepers| ==> zookeepers[k] !in NetlocEnd
    requires forall k :: 0 <= k < |port| ==> port[k] !in NetlocEnd
    requires table == "" || table[0] == '/'
    requires '?' !in table && '#' !in table
    ensures ResolveAddress("hbase://" + zookeepers + ":" + port + table, options)
         == Ok(HBaseAddr(zookeepers, if "master" in options then options["master"] else "", port, table))
  {
    var netloc := PairNetloc(zookeepers, port);
    var p := SplitResult("hbase", netloc, table, "", "");
    HBaseWellFormed(netloc, table, p);
    HBaseUnsplit(zookeepers, port, table, netloc);
    SplitUnsplit(p);
    ResolveParsed("hbase://" + zookeepers + ":" + port + table, p, options);
    HBaseDispatch(zookeepers, port, table, options, netloc);
  }

  lemma HBaseWellFormed(netloc: string, table: string, p: SplitResult)
    requires p == SplitResult("hbase", netloc, table, "", "")
    requires forall k :: 0 <= k < |netloc| ==> netloc[k] !in NetlocEnd
    requires table == "" || table[0] == '/'
    requires '?' !in table && '#' !in table
    ensures WellFormed(p)
  {
    assert IsScheme("hbase");
  }

  lemma HBaseUnsplit(zookeepers: string, port: string, table: string, netloc: string)
    requires netloc == zookeepers + ":" + port
    ensures Unsplit(SplitResult("hbase", netloc, table, "", "")) == "hbase://" + zookeepers + ":" + port + table
  {
  }

  lemma HBaseDispatch(zookeepers: string, port: string, table: string, options: Options, netloc: string)
    requires Split(netloc, ':') == [zookeepers, port]
    ensures Dispatch(SplitResult("hbase", netloc, table, "", ""), "hbase://" + zookeepers + ":" + port + table, options)
         == Ok(HBaseAddr(zookeepers, if "master" in options then options["master"] else "", port, table))
  {
  }

  /** A Cassandra URI whose query has a part without `=` fails on the first
      such part. */
  lemma CassandraUriWithoutValue(uri: string, options: Options, j: nat)
    requires UrlSplit(uri).scheme == "cassandra"
    requires var parts := Split(UrlSplit(uri).query, '&');
             j < |parts| && '=' !in parts[j] && forall i :: 0 <= i < j ==> '=' in parts[i]
    ensures ResolveAddress(uri, options) == Err(ParameterWithoutValue(Split(UrlSplit(uri).query, '&')[j]))
  {
    var p := UrlSplit(uri);
    ResolveParsed(uri, p, options);
    CassandraDispatch(p, uri, options);
    CollectParamsFirstError(Split(p.query, '&'), j);
  }

  /** A Cassandra URI lacking a required parameter fails on the first one
      missing. */
  lemma CassandraUriMissingKey(uri: string, options: Options, key: string)
    requires UrlSplit(uri).scheme == "cassandra"
    requires var params := CollectParams(Split(UrlSplit(uri).query, '&'));
             params.Ok? && FirstMissing(params.value, CassandraKeys) == Some(key)
    ensures ResolveAddress(uri, options) == Err(MissingParameter(key))
  {
    var p := UrlSplit(uri);
    ResolveParsed(uri, p, options);
    CassandraDispatch(p, uri, options);
  }

  lemma CassandraDispatch(p: SplitResult, uri: string, options: Options)
    requires p.scheme == "cassandra"
    ensures Dispatch(p, uri, options) == CassandraAddress(p.query, options)
  {
  }

  /** `ResolveAddress` is `Dispatch` on the parsed URI. */
  lemma ResolveParsed(uri: string, p: SplitResult, options: Options)
    requires UrlSplit(uri) == p
    ensures ResolveAddress(uri, options) == Dispatch(p, uri, options)
  {
  }

  /** `a:b` is a network location that splits back into `a` and `b` on `:`. */
  lemma PairNetloc(a: string, b: string) returns (netloc: string)
    requires ':' !in a && ':' !in b
    requires forall k :: 0 <= k < |a| ==> a[k] !in NetlocEnd
    requires forall k :: 0 <= k < |b| ==> b[k] !in NetlocEnd
    ensures netloc == a + ":" + b
    ensures forall k :: 0 <= k < |netloc| ==> netloc[k] !in NetlocEnd
    ensures Split(netloc, ':') == [a, b]
  {
    netloc := a + ":" + b;
    forall k | 0 <= k < |netloc| ensures netloc[k] !in NetlocEnd {
      if k < |a| { assert netloc[k] == a[k]; }
      else if k > |a| { assert netloc[k] == b[k - |a| - 1]; }
    }
    assert netloc == Join([a, b], ':') by {
      assert Join([a, b], ':') == a + [':'] + Join([b], ':');
    }
    SplitJoin([a, b], ':');
  }

  /** `/<zookeepers>/<instance>/<table>` splits on `/` into an empty first
      segment and the three fields. */
  lemma AccumuloPath(zookeepers: string, instance: string, table: string) returns (path: string)
    requires '/' !in zookeepers && '/' !in instance && '/' !in table
    ensures path == "/" + zookeepers + "/" + instance + "/" + table
    ensures Split(path, '/') == ["", zookeepers, instance, table]
  {
    path := "/" + zookeepers + "/" + instance + "/" + table;
    var parts := ["", zookeepers, instance, table];
    assert Join(parts[3..], '/') == table;
    assert Join(parts[2..], '/') == instance + "/" + table by {
      assert parts[2..][1..] == parts[3..];
    }
    assert Join(parts[1..], '/') == zookeepers + "/" + instance + "/" + table by {
      assert parts[1..][1..] == parts[2..];
    }
    assert Join(parts, '/') == path;
    SplitJoin(parts, '/');
  }

  /** `accumulo://<user>:<password>/<zookeepers>/<instance>/<table>` builds
      the Accumulo store on those five fields. */
  lemma AccumuloUri(user: string, password: string, zookeepers: string, instance: string,
                    table: string, options: Options)
    requires ':' !in user && ':' !in password
    requires forall k :: 0 <= k < |user| ==> user[k] !in NetlocEnd
    requires forall k :: 0 <= k < |password| ==> password[k] !in NetlocEnd
    requires '/' !in zookeepers && '/' !in instance && '/' !in table
    requires '?' !in zookeepers + instance + table && '#' !in zookeepers + instance + table
    ensures ResolveAddress("accumulo://" + user + ":" + password + "/" + zookeepers + "/" + instance + "/" + table, options)
         == Ok(AccumuloAddr(zookeepers, instance, user, password, table))
  {
    var netloc := PairNetloc(user, password);
    var path := AccumuloPath(zookeepers, instance, table);
    AccumuloPathChars(zookeepers, instance, table, path);
    var p := SplitResult("accumulo", netloc, path, "", "");
    AccumuloWellFormed(netloc, path, p);
    AccumuloUnsplit(user, password, zookeepers, instance, table, netloc, path);
    SplitUnsplit(p);
    ResolveParsed("accumulo://" + user + ":" + password + "/" + zookeepers + "/" + instance + "/" + table, p, options);
    AccumuloDispatch(user, password, zookeepers, instance, table, options, netloc, path);
  }

  lemma AccumuloPathChars(zookeepers: string, instance: string, table: string, path: string)
    requires path == "/" + zookeepers + "/" + instance + "/" + table
    requires '?' !in zookeepers + instance + table && '#' !in zookeepers + instance + table
    ensures '?' !in path && '#' !in path
  {
    var zit := zookeepers + instance + table;
    forall k | 0 <= k < |path| ensures path[k] == '/' || path[k] in zit {
      var z, i := |zookeepers|, |instance|;
      if 1 <= k <= z { assert path[k] == zit[k - 1]; }
      else if z + 2 <= k <= z + i + 1 { assert path[k] == zit[k - 2]; }
      else if z + i + 3 <= k { assert path[k] == zit[k - 3]; }
    }
  }

  lemma AccumuloWellFormed(netloc: string, path: string, p: SplitResult)
    requires p == SplitResult("accumulo", netloc, path, "", "")
    requires forall k :: 0 <= k < |netloc| ==> netloc[k] !in NetlocEnd
    requires |path| > 0 && path[0] == '/' && '?' !in path && '#' !in path
    ensures WellFormed(p)
  {
    assert IsScheme("accumulo");
  }

  lemma AccumuloUnsplit(user: string, password: string, zookeepers: string, instance: string,
                        table: string, netloc: string, path: string)
    requires netloc == user + ":" + password
    requires path == "/" + zookeepers + "/" + instance + "/" + table
    ensures Unsplit(SplitResult("accumulo", netloc, path, "", ""))
         == "accumulo://" + user + ":" + password + "/" + zookeepers + "/" + instance + "/" + table
  {
  }

  lemma AccumuloDispatch(user: string, password: string, zookeepers: string, instance: string,
                         table: string, options: Options, netloc: string, path: string)
    requires Split(netloc, ':') == [user, password]
    requires Split(path, '/') == ["", zookeepers, instance, table]
    ensures Dispatch(SplitResult("accumulo", netloc, path, "", ""),
                     "accumulo://" + user + ":" + password + "/" + zookeepers + "/" + instance + "/" + table, options)
         == Ok(AccumuloAddr(zookeepers, instance, user, password, table))
  {
  }
}
