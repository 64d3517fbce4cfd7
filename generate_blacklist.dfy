/**
 * `main` of generate_blacklist.py: index the interferogram configurations,
 * the interferograms and the blacklist products by their pickle key, find
 * the configurations with neither an interferogram nor a blacklist entry,
 * keep those `is_in` accepts and build a blacklist product for each.
 *
 * The three searches and the failed-job search are inputs; the context
 * values only shape those searches and are left out.
 */
module GenerateBlacklist {
  import opened Wrappers
  import opened Sequences
  import opened Documents
  import opened Fingerprint
  import opened HashIndex
  import opened BlacklistProduct

  /** Where `build` sends a finished product (its directory and the ingest call). */
  class ProductSink {
    var published: seq<Product>

    constructor ()
      ensures published == []
    {
      published := [];
    }

    method Publish(p: Product)
      modifies this
      ensures published == old(published) + [p]
    {
      published := published + [p];
    }
  }

  /** The fingerprint `generate_blacklist.py` indexes by. */
  function Key(h: Hashers): KeyFn {
    obj => BlacklistKey(h, obj)
  }

  /**
   * The configurations `main` hands to `build`, in order, or the exception
   * raised while indexing one of the three lists.
   */
  function Selected(key: KeyFn, cfgs: seq<EsObject>, ifgs: seq<EsObject>, blacklist: seq<EsObject>,
                    failedJobs: seq<EsObject>, matches: EsObject -> bool): (r: Result<seq<EsObject>, Exc>)
  {
    var c :- HashedDict(cfgs, key);
    var i :- HashedDict(ifgs, key);
    var b :- HashedDict(blacklist, key);
    HashedDictSpec(cfgs, key);
    Success(Failed(Missing(c, i, b), failedJobs, matches))
  }

  /**
   * A configuration is selected only when its pickle key is in neither the
   * interferogram nor the blacklist index, and none at all while the
   * failed-job list is empty.
   */
  lemma SelectedSpec(key: KeyFn, cfgs: seq<EsObject>, ifgs: seq<EsObject>, blacklist: seq<EsObject>,
                     failedJobs: seq<EsObject>, matches: EsObject -> bool)
    requires Selected(key, cfgs, ifgs, blacklist, failedJobs, matches).Success?
    ensures Keys(cfgs, key).Success? && Keys(ifgs, key).Success? && Keys(blacklist, key).Success?
    ensures var sel := Selected(key, cfgs, ifgs, blacklist, failedJobs, matches).value;
            && (forall j :: 0 <= j < |sel| ==>
                  sel[j] in cfgs && key(sel[j]).Success?
                  && key(sel[j]).value !in Keys(ifgs, key).value
                  && key(sel[j]).value !in Keys(blacklist, key).value)
            && (|failedJobs| == 0 ==> sel == [])
  {
    HashedDictSpec(cfgs, key);
    HashedDictSpec(ifgs, key);
    HashedDictSpec(blacklist, key);
    var c, i, b := HashedDict(cfgs, key).value, HashedDict(ifgs, key).value, HashedDict(blacklist, key).value;
    MissingSpec(c, i, b);
    FailedSpec(Missing(c, i, b), failedJobs, matches);
    var u := Unclaimed(c.keys, i.entries.Keys, b.entries.Keys);
    var missing := Missing(c, i, b);
    var sel := Failed(missing, failedJobs, matches);
    forall j | 0 <= j < |sel|
      ensures sel[j] in cfgs && key(sel[j]).Success?
              && key(sel[j]).value !in Keys(ifgs, key).value && key(sel[j]).value !in Keys(blacklist, key).value
    {
      var m :| 0 <= m < |missing| && missing[m] == sel[j];
      var k := u[m];
      HashedDictEntry(cfgs, key, k);
      assert missing[m] == c.entries[k];
      assert k !in i.entries && k !in b.entries;
      assert k !in Dedup(Keys(ifgs, key).value) && k !in Dedup(Keys(blacklist, key).value);
    }
  }

  /** `build_blacklist_product.build`, with the hash and date functions fixed. */
  type Builder = EsObject -> Result<Product, Exc>

  function Builds(h: Hashers, fmt: DateFormatter): Builder {
    cfg => Build(h, fmt, cfg)
  }

  /**
   * `build` applied to each item in turn until one raises: the products
   * published, and the exception that stopped the loop, if any.
   */
  function BuildAll(build: Builder, items: seq<EsObject>): (r: (seq<Product>, Option<Exc>))
    ensures |r.0| <= |items|
    ensures forall j :: 0 <= j < |r.0| ==> build(items[j]) == Success(r.0[j])
    ensures r.1.None? ==> |r.0| == |items|
    ensures r.1.Some? ==> |r.0| < |items| && build(items[|r.0|]) == Failure(r.1.value)
  {
    if items == [] then ([], None)
    else
      match build(items[0])
      case Failure(e) => ([], Some(e))
      case Success(p) =>
        var rest := BuildAll(build, items[1..]);
        ([p] + rest.0, rest.1)
  }

  /**
   * `main`: the products of the selected configurations are published in
   * order, one per configuration, up to the first one whose `build` raises;
   * an exception while indexing publishes nothing.
   */
  method GenerateBlacklistMain(h: Hashers, fmt: DateFormatter,
                               cfgs: seq<EsObject>, ifgs: seq<EsObject>, blacklist: seq<EsObject>,
                               failedJobs: seq<EsObject>, matches: EsObject -> bool, sink: ProductSink)
    returns (raised: Option<Exc>)
    modifies sink
    ensures var sel := Selected(Key(h), cfgs, ifgs, blacklist, failedJobs, matches);
            && (sel.Failure? ==> raised == Some(sel.error) && sink.published == old(sink.published))
            && (sel.Success? ==> raised == BuildAll(Builds(h, fmt), sel.value).1 &&
                                 sink.published == old(sink.published) + BuildAll(Builds(h, fmt), sel.value).0)
  {
    var key := Key(h);
    var ifgConfigs := BuildHashedDict(cfgs, key);
    if ifgConfigs.Failure? {
      return Some(ifgConfigs.error);
    }
    var ifgIndex := BuildHashedDict(ifgs, key);
    if ifgIndex.Failure? {
      return Some(ifgIndex.error);
    }
    var blacklistIndex := BuildHashedDict(blacklist, key);
    if blacklistIndex.Failure? {
      return Some(blacklistIndex.error);
    }
    HashedDictSpec(cfgs, key);
    var missing := DetermineMissing(ifgConfigs.value, ifgIndex.value, blacklistIndex.value);
    var addToBlacklist := DetermineFailed(missing, failedJobs, matches);
    assert Selected(key, cfgs, ifgs, blacklist, failedJobs, matches) == Success(addToBlacklist);
    raised := PublishAll(Builds(h, fmt), addToBlacklist, sink);
  }

  /** The loop over `add_to_blacklist`. */
  method PublishAll(build: Builder, items: seq<EsObject>, sink: ProductSink)
    returns (raised: Option<Exc>)
    modifies sink
    ensures raised == BuildAll(build, items).1
    ensures sink.published == old(sink.published) + BuildAll(build, items).0
  {
    ghost var all := BuildAll(build, items);
    var i := 0;
    while i < |items|
      invariant 0 <= i <= |items|
      invariant forall j :: 0 <= j < i ==> build(items[j]).Success?
      invariant i <= |all.0|
      invariant sink.published == old(sink.published) + all.0[..i]
    {
      var p := build(items[i]);
      if p.Failure? {
        assert |all.0| == i;
        return Some(p.error);
      }
      assert all.0[i] == p.value;
      assert all.0[..i + 1] == all.0[..i] + [p.value];
      sink.Publish(p.value);
      i := i + 1;
    }
    assert all.0[..i] == all.0;
    raised := None;
  }
}
