/**
 * The search-index documents the scripts read: a hit with an `_id` and a
 * `_source` whose `metadata` holds the scene lists, the cached
 * `full_id_hash` and the other fields the core looks at. An absent key is
 * `None`; a present key holds its value.
 */
module Documents {
  import opened Wrappers

  /** A JSON value as Python sees it after `json.loads`. */
  datatype Value = Null | Bool(b: bool) | Int(n: int) | Str(s: string) | List(items: seq<Value>)

  /** Python truthiness of a JSON value. */
  predicate Truthy(v: Value) {
    match v
    case Null => false
    case Bool(b) => b
    case Int(n) => n != 0
    case Str(s) => s != ""
    case List(xs) => xs != []
  }

  /** `d.get(key, False)` for a key whose slot is `f`. */
  function GetOrFalse(f: Option<Value>): Value {
    f.GetOr(Bool(false))
  }

  /**
   * One entry of a scene list: a plain scene identifier, or a tuple/list
   * whose first element is the identifier.
   */
  datatype Scene = Plain(id: string) | Pair(id: string, extra: string)

  datatype Metadata = Metadata(
    masterScenes: Option<seq<Scene>>,
    referenceScenes: Option<seq<Scene>>,
    slaveScenes: Option<seq<Scene>>,
    secondaryScenes: Option<seq<Scene>>,
    masterIds: Option<string>,
    slaveIds: Option<string>,
    fullIdHash: Option<string>,
    trackNumber: Option<Value>,
    track: Option<Value>,
    masterOrbitFile: Option<Value>,
    slaveOrbitFile: Option<Value>,
    starttime: Option<Value>,
    endtime: Option<Value>,
    unionGeojson: Option<Value>,
    aoi: Option<Value>)

  /** `{}`: a metadata object without any key. */
  const EmptyMetadata := Metadata(None, None, None, None, None, None, None, None,
                                  None, None, None, None, None, None, None)

  datatype Source = Source(starttime: Option<string>, endtime: Option<string>, metadata: Option<Metadata>)

  datatype EsObject = EsObject(id: string, source: Option<Source>)

  /** `obj.get('_source', {}).get('metadata', {})`. */
  function MetadataOrEmpty(obj: EsObject): Metadata {
    if obj.source.Some? && obj.source.value.metadata.Some? then obj.source.value.metadata.value
    else EmptyMetadata
  }

  /** `obj['_source']['metadata']`, raising KeyError when a level is missing. */
  function MetadataOrKeyError(obj: EsObject): (r: Result<Metadata, Exc>)
    ensures r.Success? <==> obj.source.Some? && obj.source.value.metadata.Some?
    ensures r.Success? ==> r.value == MetadataOrEmpty(obj)
  {
    if obj.source.None? then Failure(KeyError("_source"))
    else if obj.source.value.metadata.None? then Failure(KeyError("metadata"))
    else Success(obj.source.value.metadata.value)
  }

  /** The Python exceptions the core can raise, and the `raise Exception(...)` it does itself. */
  datatype Exc =
    | KeyError(key: string)
    | TypeError(what: string)
    | IndexError(what: string)
    | AttributeError(what: string)
    | ValueError(what: string)
    | RuntimeError(message: string)
    | Raised(message: string)
}
