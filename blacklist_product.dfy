/**
 * build_blacklist_product.py: the dataset and metadata records of an
 * S1-GUNW-BLACKLIST product drafted from an interferogram configuration.
 *
 * Date parsing and `strftime('%Y%m%d')` are one abstract `DateFormatter`
 * (`None` for a string the parser rejects); writing the product directory
 * and ingesting it are not part of this model.
 */
module BlacklistProduct {
  import opened Wrappers
  import opened Documents
  import opened Fingerprint

  const Version := "v1.0"
  const ProductPrefix := "S1-GUNW-BLACKLIST"

  /** `dateutil.parser.parse(s).strftime('%Y%m%d')`, or `None` when `s` does not parse. */
  type DateFormatter = string -> Option<string>

  // ---------------------------------------------------------------------------
  // The product label

  /** `'{}-{}_{}-{}-{}'.format(PRODUCT_PREFIX, master_date, slave_date, hsh, VERSION)`. */
  function Label(masterDate: string, slaveDate: string, hsh: string): (r: string)
    ensures |r| == |ProductPrefix| + |masterDate| + |slaveDate| + |hsh| + |Version| + 4
    ensures r[..DateStart] == ProductPrefix + "-"
    ensures r[|r| - |Version| - 1..] == "-" + Version
  {
    ProductPrefix + "-" + masterDate + "_" + slaveDate + "-" + hsh + "-" + Version
  }

  /** Offset of the master date inside a label. */
  const DateStart := |ProductPrefix| + 1

  /**
   * Reads the two eight-character dates and the hash back out of a label;
   * `None` when the string is not shaped like one.
   */
  function ParseLabel(s: string): (r: Option<(string, string, string)>)
    ensures r.Some? ==> |r.value.0| == 8 && |r.value.1| == 8
  {
    var n := |s|;
    var tail := "-" + Version;
    if n < DateStart + 18 + |tail| then None
    else if s[..DateStart] != ProductPrefix + "-" then None
    else if s[DateStart + 8] != '_' || s[DateStart + 17] != '-' then None
    else if s[n - |tail|..] != tail then None
    else Some((s[DateStart..DateStart + 8], s[DateStart + 9..DateStart + 17], s[DateStart + 18..n - |tail|]))
  }

  /** A label with eight-character dates gives its parts back. */
  lemma LabelRoundTrip(masterDate: string, slaveDate: string, hsh: string)
    requires |masterDate| == 8 && |slaveDate| == 8
    ensures ParseLabel(Label(masterDate, slaveDate, hsh)) == Some((masterDate, slaveDate, hsh))
  {
    var l := Label(masterDate, slaveDate, hsh);
    var n := |l|;
    assert l[..DateStart] == ProductPrefix + "-";
    assert l[DateStart..DateStart + 8] == masterDate;
    assert l[DateStart + 8] == '_';
    assert l[DateStart + 9..DateStart + 17] == slaveDate;
    assert l[DateStart + 17] == '-';
    assert l[DateStart + 18..n - 5] == hsh;
    assert l[n - 5..] == "-" + Version;
  }

  /** Every string `ParseLabel` accepts is the label of what it returns. */
  lemma ParseLabelInverse(s: string)
    requires ParseLabel(s).Some?
    ensures var p := ParseLabel(s).value; Label(p.0, p.1, p.2) == s
  {
    var p := ParseLabel(s).value;
    var n := |s|;
    assert s == s[..DateStart] + s[DateStart..DateStart + 8] + [s[DateStart + 8]]
                    + s[DateStart + 9..DateStart + 17] + [s[DateStart + 17]]
                    + s[DateStart + 18..n - 5] + s[n - 5..];
  }

  /** Labels with eight-character dates are distinct for distinct (dates, hash) triples. */
  lemma LabelInjective(m1: string, s1: string, h1: string, m2: string, s2: string, h2: string)
    requires |m1| == 8 && |s1| == 8 && |m2| == 8 && |s2| == 8
    requires Label(m1, s1, h1) == Label(m2, s2, h2)
    ensures m1 == m2 && s1 == s2 && h1 == h2
  {
    LabelRoundTrip(m1, s1, h1);
    LabelRoundTrip(m2, s2, h2);
  }

  /**
   * `get_master_date` / `get_slave_date` once `_source` is known: a missing
   * field reaches the parser as `None` (TypeError), an unparsable one
   * raises ValueError.
   */
  function FormattedDate(field: Option<string>, fmt: DateFormatter): (r: Result<string, Exc>)
    ensures r.Success? <==> field.Some? && fmt(field.value).Some?
    ensures r.Success? ==> r.value == fmt(field.value).value
  {
    match field
    case None => Failure(TypeError("Parser must be a string or character stream, not NoneType"))
    case Some(s) =>
      match fmt(s)
      case None => Failure(ValueError(s))
      case Some(d) => Success(d)
  }

  /**
   * `build_id`: the enumerator hash first, then the master date from
   * `_source.endtime`, then the slave date from `_source.starttime`.
   */
  function BuildId(h: Hashers, fmt: DateFormatter, cfg: EsObject): (r: Result<string, Exc>)
    ensures EnumeratorKey(h, cfg).Failure? ==> r == EnumeratorKey(h, cfg)
    ensures r.Success? ==>
              && EnumeratorKey(h, cfg).Success? && cfg.source.Some?
              && FormattedDate(cfg.source.value.endtime, fmt).Success?
              && FormattedDate(cfg.source.value.starttime, fmt).Success?
  {
    var hsh :- EnumeratorKey(h, cfg);
    if cfg.source.None? then Failure(AttributeError("'NoneType' object has no attribute 'get'"))
    else
      var masterDate :- FormattedDate(cfg.source.value.endtime, fmt);
      var slaveDate :- FormattedDate(cfg.source.value.starttime, fmt);
      Success(Label(masterDate, slaveDate, hsh))
  }

  /**
   * With eight-character dates the label carries, in order, the date of
   * `_source.endtime`, the date of `_source.starttime` and the enumerator
   * hash of the scene lists.
   */
  lemma BuildIdParts(h: Hashers, fmt: DateFormatter, cfg: EsObject)
    requires BuildId(h, fmt, cfg).Success?
    requires |fmt(cfg.source.value.endtime.value).value| == 8 && |fmt(cfg.source.value.starttime.value).value| == 8
    ensures ParseLabel(BuildId(h, fmt, cfg).value) ==
            Some((fmt(cfg.source.value.endtime.value).value, fmt(cfg.source.value.starttime.value).value, EnumeratorKey(h, cfg).value))
  {
    LabelRoundTrip(fmt(cfg.source.value.endtime.value).value, fmt(cfg.source.value.starttime.value).value, EnumeratorKey(h, cfg).value);
  }

  /**
   * The label does not depend on the order of the scene lists: two
   * configurations with the same dates whose scene lists hash alike get
   * the same label.
   */
  lemma BuildIdSceneOrder(h: Hashers, fmt: DateFormatter, a: EsObject, b: EsObject)
    requires a.source.Some? && b.source.Some?
    requires a.source.value.starttime == b.source.value.starttime && a.source.value.endtime == b.source.value.endtime
    requires EnumeratorKey(h, a) == EnumeratorKey(h, b)
    ensures BuildId(h, fmt, a) == BuildId(h, fmt, b)
  {
  }

  // ---------------------------------------------------------------------------
  // Dataset and metadata records

  /** The `.dataset.json` record. */
  datatype Dataset = Dataset(uid: string, starttime: Value, endtime: Value, location: Value, version: string)

  /** `build_dataset`: the label first, then the three metadata fields, each a KeyError when absent. */
  function BuildDataset(h: Hashers, fmt: DateFormatter, cfg: EsObject): (r: Result<Dataset, Exc>)
    ensures r.Success? <==> BuildId(h, fmt, cfg).Success? && var m := MetadataOrEmpty(cfg);
              m.starttime.Some? && m.endtime.Some? && m.unionGeojson.Some?
    ensures r.Success? ==>
              && r.value.uid == BuildId(h, fmt, cfg).value
              && r.value.starttime == MetadataOrEmpty(cfg).starttime.value
              && r.value.endtime == MetadataOrEmpty(cfg).endtime.value
              && r.value.location == MetadataOrEmpty(cfg).unionGeojson.value
              && r.value.version == Version
    ensures BuildId(h, fmt, cfg).Failure? ==> r == Failure(BuildId(h, fmt, cfg).error)
  {
    var uid :- BuildId(h, fmt, cfg);
    var met :- MetadataOrKeyError(cfg);
    if met.starttime.None? then Failure(KeyError("starttime"))
    else if met.endtime.None? then Failure(KeyError("endtime"))
    else if met.unionGeojson.None? then Failure(KeyError("union_geojson"))
    else Success(Dataset(uid, met.starttime.value, met.endtime.value, met.unionGeojson.value, Version))
  }

  /**
   * A configuration without `_source` or `metadata` has no scene lists, so
   * hashing fails before any lookup could raise KeyError or AttributeError.
   */
  lemma EnumeratorKeyNeedsMetadata(h: Hashers, cfg: EsObject)
    requires EnumeratorKey(h, cfg).Success?
    ensures cfg.source.Some? && cfg.source.value.metadata.Some?
  {
  }

  /**
   * Once the label is built, `build_dataset` can only fail on a missing
   * `starttime`, `endtime` or `union_geojson`: the `_source` and `metadata`
   * lookups cannot raise.
   */
  lemma BuildDatasetErrors(h: Hashers, fmt: DateFormatter, cfg: EsObject)
    requires BuildId(h, fmt, cfg).Success? && BuildDataset(h, fmt, cfg).Failure?
    ensures BuildDataset(h, fmt, cfg).error in {KeyError("starttime"), KeyError("endtime"), KeyError("union_geojson")}
  {
    EnumeratorKeyNeedsMetadata(h, cfg);
  }

  /** The `.met.json` record; an absent scene list is stored as `False`, i.e. `None` here. */
  datatype ProductMet = ProductMet(
    referenceScenes: Option<seq<Scene>>,
    secondaryScenes: Option<seq<Scene>>,
    masterOrbitFile: Value,
    slaveOrbitFile: Value,
    trackNumber: Value,
    fullIdHash: string)

  /**
   * `track_number`, falling back to `track` when it `is False` (absent or
   * stored as false); any other value, even a falsy one, is kept.
   */
  function Track(m: Metadata): (r: Value)
    ensures m.trackNumber.Some? && m.trackNumber.value != Bool(false) ==> r == m.trackNumber.value
    ensures (m.trackNumber.None? || m.trackNumber == Some(Bool(false))) ==> r == GetOrFalse(m.track)
    ensures r == Bool(false) <==>
            (m.trackNumber.None? || m.trackNumber == Some(Bool(false))) && (m.track.None? || m.track == Some(Bool(false)))
  {
    var t := GetOrFalse(m.trackNumber);
    if t == Bool(false) then GetOrFalse(m.track) else t
  }

  /** `build_met`. */
  function BuildMet(h: Hashers, cfg: EsObject): (r: Result<ProductMet, Exc>)
    ensures r.Success? <==> MetadataOrKeyError(cfg).Success? && GetHash(h, cfg).Success?
    ensures r.Success? ==>
              var m := MetadataOrEmpty(cfg);
              && r.value.referenceScenes == Aliased(m.masterScenes, m.referenceScenes)
              && r.value.secondaryScenes == Aliased(m.slaveScenes, m.secondaryScenes)
              && r.value.masterOrbitFile == GetOrFalse(m.masterOrbitFile)
              && r.value.slaveOrbitFile == GetOrFalse(m.slaveOrbitFile)
              && r.value.trackNumber == Track(m)
              && r.value.fullIdHash == GetHash(h, cfg).value
  {
    var met := MetadataOrEmpty(cfg);
    var masterScenes := Aliased(met.masterScenes, met.referenceScenes);
    var slaveScenes := Aliased(met.slaveScenes, met.secondaryScenes);
    var m :- MetadataOrKeyError(cfg);
    var track := Track(m);
    var hsh :- GetHash(h, cfg);
    Success(ProductMet(masterScenes, slaveScenes, GetOrFalse(m.masterOrbitFile), GetOrFalse(m.slaveOrbitFile), track, hsh))
  }

  /** The draft `build` writes and ingests. */
  datatype Product = Product(ds: Dataset, met: ProductMet)

  /** `build`: the dataset record, then the metadata record. */
  function Build(h: Hashers, fmt: DateFormatter, cfg: EsObject): (r: Result<Product, Exc>)
    ensures r.Success? <==> BuildDataset(h, fmt, cfg).Success? && BuildMet(h, cfg).Success?
    ensures r.Success? ==> r.value.ds == BuildDataset(h, fmt, cfg).value && r.value.met == BuildMet(h, cfg).value
    ensures BuildDataset(h, fmt, cfg).Failure? ==> r == Failure(BuildDataset(h, fmt, cfg).error)
  {
    var ds :- BuildDataset(h, fmt, cfg);
    var met :- BuildMet(h, cfg);
    Success(Product(ds, met))
  }

  /** Once the dataset record is built, the metadata record cannot fail. */
  lemma BuildFailsOnlyInDataset(h: Hashers, fmt: DateFormatter, cfg: EsObject)
    ensures Build(h, fmt, cfg).Failure? <==> BuildDataset(h, fmt, cfg).Failure?
    ensures Build(h, fmt, cfg).Failure? ==> Build(h, fmt, cfg).error == BuildDataset(h, fmt, cfg).error
  {
    if BuildDataset(h, fmt, cfg).Success? {
      EnumeratorKeyNeedsMetadata(h, cfg);
      assert GetHash(h, cfg).Success?;
    }
  }

  /**
   * The label's hash is always recomputed, the metadata's `full_id_hash`
   * is the cached one when truthy: without a truthy cache the two agree.
   */
  lemma LabelHashIsMetHash(h: Hashers, fmt: DateFormatter, cfg: EsObject)
    requires Build(h, fmt, cfg).Success?
    requires CachedHash(cfg).None?
    ensures var p := Build(h, fmt, cfg).value;
            p.ds.uid == Label(fmt(cfg.source.value.endtime.value).value, fmt(cfg.source.value.starttime.value).value, p.met.fullIdHash)
  {
    BuildFailsOnlyInDataset(h, fmt, cfg);
  }

  /** With a truthy cache the metadata keeps it, whatever the label's recomputed hash. */
  lemma MetKeepsCachedHash(h: Hashers, fmt: DateFormatter, cfg: EsObject)
    requires Build(h, fmt, cfg).Success?
    requires CachedHash(cfg).Some?
    ensures Build(h, fmt, cfg).value.met.fullIdHash == CachedHash(cfg).value
    ensures Build(h, fmt, cfg).value.ds.uid ==
            Label(fmt(cfg.source.value.endtime.value).value, fmt(cfg.source.value.starttime.value).value, EnumeratorKey(h, cfg).value)
  {
    BuildFailsOnlyInDataset(h, fmt, cfg);
  }
}
