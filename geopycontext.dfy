/** `GeoPyContext`: the key-type mapping `map_key_input` and the choice of
    Spark context made by its constructor. */
module GeoPyContext {
  import opened Wrappers
  import opened Types

  /** `GeoPyContext.map_key_input(key_type, is_boundable)`: the name of the
      Scala key class for a key type, the tiled one when `is_boundable`. */
  function MapKeyInput(keyType: string, isBoundable: bool): (r: Result<string, Error>)
    ensures r.Ok? <==> keyType == "spatial" || keyType == "spacetime"
    ensures r.Err? ==> r.error == UnknownKeyType(keyType)
    ensures r.Ok? ==> (r.value == "SpatialKey" || r.value == "SpaceTimeKey") == isBoundable
  {
    if isBoundable then
      if keyType == "spatial" then Ok("SpatialKey")
      else if keyType == "spacetime" then Ok("SpaceTimeKey")
      else Err(UnknownKeyType(keyType))
    else
      if keyType == "spatial" then Ok("ProjectedExtent")
      else if keyType == "spacetime" then Ok("TemporalProjectedExtent")
      else Err(UnknownKeyType(keyType))
  }

  /** The four valid inputs and their key classes. */
  lemma KeyClasses()
    ensures MapKeyInput("spatial", true) == Ok("SpatialKey")
    ensures MapKeyInput("spacetime", true) == Ok("SpaceTimeKey")
    ensures MapKeyInput("spatial", false) == Ok("ProjectedExtent")
    ensures MapKeyInput("spacetime", false) == Ok("TemporalProjectedExtent")
  {
  }

  /** Distinct valid inputs map to distinct key classes. */
  lemma MapKeyInputInjective(k1: string, b1: bool, k2: string, b2: bool)
    requires MapKeyInput(k1, b1).Ok? && MapKeyInput(k2, b2).Ok?
    requires MapKeyInput(k1, b1) == MapKeyInput(k2, b2)
    ensures k1 == k2 && b1 == b2
  {
  }

  /** Where a `GeoPyContext` gets its Spark context from. */
  datatype ContextSource =
    | GivenContext(pysc: SparkContext)   // the `pysc` argument
    | BuiltFromKwargs(conf: Options)     // `SparkContext(**kwargs)`

  /** The branch of `GeoPyContext.__init__(pysc=None, **kwargs)` that sets
      `self.pysc`: the given context wins, then the keyword arguments build
      one, and with neither it raises `TypeError`. */
  function NewContext(pysc: Option<SparkContext>, kwargs: Options): (r: Result<ContextSource, Error>)
    ensures r.Err? <==> pysc.None? && |kwargs| == 0
    ensures r.Err? ==> r.error == NoSparkContext
    ensures pysc.Some? ==> r == Ok(GivenContext(pysc.value))
    ensures pysc.None? && |kwargs| > 0 ==> r == Ok(BuiltFromKwargs(kwargs))
  {
    if pysc.Some? then Ok(GivenContext(pysc.value))
    else if |kwargs| > 0 then Ok(BuiltFromKwargs(kwargs))
    else Err(NoSparkContext)
  }

  /** A given context makes the keyword arguments irrelevant. */
  lemma GivenContextIgnoresKwargs(pysc: SparkContext, k1: Options, k2: Options)
    ensures NewContext(Some(pysc), k1) == NewContext(Some(pysc), k2)
  {
  }
}
