/**
 * Indexing product documents by their scene fingerprint, as tagger.py and
 * generate_blacklist.py do: `build_hashed_dict`, `return_matching`,
 * `determine_missing_ifgs` and `determine_failed`.
 *
 * The fingerprint is a parameter `key`; it may raise (a missing metadata
 * field), and the first document whose key raises aborts the whole call.
 */
module HashIndex {
  import opened Wrappers
  import opened Sequences
  import opened Documents

  type KeyFn = EsObject -> Result<string, Exc>

  /** A Python dict from fingerprints to documents; `keys` is its insertion order. */
  datatype OrderedDict = OrderedDict(keys: seq<string>, entries: map<string, EsObject>)

  ghost predicate WellFormed(d: OrderedDict) {
    Distinct(d.keys) && forall k :: k in d.entries <==> k in d.keys
  }

  const EmptyDict := OrderedDict([], map[])

  /**
   * `d.update({k: v})`: a new key goes to the end of the order, an existing
   * key keeps its place and takes the new value.
   */
  function Put(d: OrderedDict, k: string, v: EsObject): (r: OrderedDict)
    ensures WellFormed(d) ==> WellFormed(r)
    ensures r.entries == d.entries[k := v]
  {
    if k in d.entries then OrderedDict(d.keys, d.entries[k := v])
    else OrderedDict(d.keys + [k], d.entries[k := v])
  }

  /** The fingerprint of every document, or the error of the first one that raises. */
  function Keys(objs: seq<EsObject>, key: KeyFn): (r: Result<seq<string>, Exc>)
    ensures r.Success? ==> |r.value| == |objs| &&
                           forall i :: 0 <= i < |objs| ==> key(objs[i]) == Success(r.value[i])
    decreases |objs|
  {
    if objs == [] then Success([])
    else
      var ks :- Keys(objs[..|objs| - 1], key);
      var k :- key(objs[|objs| - 1]);
      Success(ks + [k])
  }

  /**
   * Hashing a list fails exactly when some document's fingerprint raises,
   * and then with the error of the first such document.
   */
  lemma {:induction false} KeysFailure(objs: seq<EsObject>, key: KeyFn)
    ensures Keys(objs, key).Success? <==> forall i :: 0 <= i < |objs| ==> key(objs[i]).Success?
    ensures Keys(objs, key).Failure? ==>
              exists j :: 0 <= j < |objs| && key(objs[j]) == Failure(Keys(objs, key).error) &&
                          forall i :: 0 <= i < j ==> key(objs[i]).Success?
    decreases |objs|
  {
    if objs != [] {
      var n := |objs| - 1;
      var prefix := objs[..n];
      KeysFailure(prefix, key);
      assert forall i :: 0 <= i < n ==> objs[i] == prefix[i];
      if Keys(prefix, key).Failure? {
        var j :| 0 <= j < n && key(prefix[j]) == Failure(Keys(prefix, key).error) &&
                 forall i :: 0 <= i < j ==> key(prefix[i]).Success?;
        assert key(objs[j]) == Failure(Keys(objs, key).error);
      } else if key(objs[n]).Failure? {
        assert key(objs[n]) == Failure(Keys(objs, key).error);
      }
    }
  }

  /**
   * `build_hashed_dict`: the dict the loop builds, defined over the list
   * read from the back so that the first failing document decides the error.
   */
  function HashedDict(objs: seq<EsObject>, key: KeyFn): Result<OrderedDict, Exc>
    decreases |objs|
  {
    if objs == [] then Success(EmptyDict)
    else
      var d :- HashedDict(objs[..|objs| - 1], key);
      var k :- key(objs[|objs| - 1]);
      Success(Put(d, k, objs[|objs| - 1]))
  }

  /**
   * The dict fails exactly when the fingerprints do, with the same error;
   * otherwise it is a well-formed dict whose keys are the fingerprints in
   * order of first appearance.
   */
  lemma {:induction false} HashedDictSpec(objs: seq<EsObject>, key: KeyFn)
    ensures HashedDict(objs, key).Failure? <==> Keys(objs, key).Failure?
    ensures HashedDict(objs, key).Failure? ==> HashedDict(objs, key).error == Keys(objs, key).error
    ensures HashedDict(objs, key).Success? ==>
              WellFormed(HashedDict(objs, key).value) &&
              HashedDict(objs, key).value.keys == Dedup(Keys(objs, key).value)
    decreases |objs|
  {
    if objs != [] {
      var n := |objs| - 1;
      HashedDictSpec(objs[..n], key);
      if HashedDict(objs[..n], key).Success? && key(objs[n]).Success? {
        HashedDictStep(objs, key);
      }
    }
  }

  /** One step of `HashedDictSpec`: appending a document whose fingerprint exists. */
  lemma HashedDictStep(objs: seq<EsObject>, key: KeyFn)
    requires objs != []
    requires var prefix := objs[..|objs| - 1];
             && HashedDict(prefix, key).Success? && Keys(prefix, key).Success?
             && WellFormed(HashedDict(prefix, key).value)
             && HashedDict(prefix, key).value.keys == Dedup(Keys(prefix, key).value)
    requires key(objs[|objs| - 1]).Success?
    ensures HashedDict(objs, key).Success? && Keys(objs, key).Success?
    ensures WellFormed(HashedDict(objs, key).value)
    ensures HashedDict(objs, key).value.keys == Dedup(Keys(objs, key).value)
  {
    var prefix, last := objs[..|objs| - 1], objs[|objs| - 1];
    var d, ks, k := HashedDict(prefix, key).value, Keys(prefix, key).value, key(last).value;
    assert Keys(objs, key).value == ks + [k];
    assert (ks + [k])[..|ks|] == ks;
    assert k in d.entries <==> k in Dedup(ks);
  }

  method BuildHashedDict(objs: seq<EsObject>, key: KeyFn) returns (r: Result<OrderedDict, Exc>)
    ensures r == HashedDict(objs, key)
  {
    var d := EmptyDict;
    var i := 0;
    while i < |objs|
      invariant 0 <= i <= |objs|
      invariant HashedDict(objs[..i], key) == Success(d)
    {
      assert objs[..i + 1][..i] == objs[..i];
      var k := key(objs[i]);
      if k.Failure? {
        assert HashedDict(objs[..i + 1], key) == Failure(k.error);
        PrefixFailure(objs, i + 1, key);
        return Failure(k.error);
      }
      d := Put(d, k.value, objs[i]);
      i := i + 1;
    }
    assert objs[..i] == objs;
    r := Success(d);
  }

  /** Once a prefix fails, the whole list fails with the same error. */
  lemma {:induction false} PrefixFailure(objs: seq<EsObject>, n: nat, key: KeyFn)
    requires n <= |objs| && HashedDict(objs[..n], key).Failure?
    ensures HashedDict(objs, key) == HashedDict(objs[..n], key)
    decreases |objs| - n
  {
    if n < |objs| {
      var m := |objs| - 1;
      assert objs[..m][..n] == objs[..n];
      PrefixFailure(objs[..m], n, key);
    } else {
      assert objs[..n] == objs;
    }
  }

  /**
   * The last write wins: the document stored under a fingerprint is the
   * last one in the list that has it.
   */
  lemma {:induction false} HashedDictLastWins(objs: seq<EsObject>, key: KeyFn, k: string)
    requires HashedDict(objs, key).Success?
    requires k in HashedDict(objs, key).value.entries
    ensures exists j :: 0 <= j < |objs| && key(objs[j]) == Success(k) &&
                        HashedDict(objs, key).value.entries[k] == objs[j] &&
                        forall j' :: j < j' < |objs| ==> key(objs[j']) != Success(k)
    decreases |objs|
  {
    var n := |objs| - 1;
    var prefix, last := objs[..n], objs[n];
    var k0 := key(last).value;
    if k != k0 {
      HashedDictLastWins(prefix, key, k);
      var j :| 0 <= j < |prefix| && key(prefix[j]) == Success(k) &&
               HashedDict(prefix, key).value.entries[k] == prefix[j] &&
               forall j' :: j < j' < |prefix| ==> key(prefix[j']) != Success(k);
      assert objs[j] == prefix[j];
      forall j' | j < j' < |objs| ensures key(objs[j']) != Success(k) {
        if j' < n {
          assert objs[j'] == prefix[j'];
        }
      }
    }
  }

  /** Every stored document has the fingerprint it is stored under and comes from the list. */
  lemma HashedDictEntry(objs: seq<EsObject>, key: KeyFn, k: string)
    requires HashedDict(objs, key).Success?
    requires k in HashedDict(objs, key).value.entries
    ensures key(HashedDict(objs, key).value.entries[k]) == Success(k)
    ensures HashedDict(objs, key).value.entries[k] in objs
  {
    HashedDictLastWins(objs, key, k);
  }

  // ---------------------------------------------------------------------------
  // return_matching

  /** The keys of `ks` that `m` also has, in the order of `ks`. */
  function Shared(ks: seq<string>, m: map<string, EsObject>): seq<string> {
    Filter(ks, k => k in m)
  }

  function Lookup(ks: seq<string>, m: map<string, EsObject>): (r: seq<EsObject>)
    requires forall k :: k in ks ==> k in m
    ensures |r| == |ks| && forall i :: 0 <= i < |ks| ==> r[i] == m[ks[i]]
  {
    seq(|ks|, i requires 0 <= i < |ks| => m[ks[i]])
  }

  /**
   * `return_matching(list1, list2)`: for each fingerprint of `list1` (first
   * appearance order) that `list2` also has, the last document of `list2`
   * with it. Hashing `list1` comes first, so its error wins.
   */
  function Matching(l1: seq<EsObject>, l2: seq<EsObject>, key: KeyFn): Result<seq<EsObject>, Exc> {
    var d1 :- HashedDict(l1, key);
    var d2 :- HashedDict(l2, key);
    Success(Lookup(Shared(d1.keys, d2.entries), d2.entries))
  }

  /** `return_matching` raises exactly when hashing a list does; `list1` is hashed first. */
  lemma MatchingFailure(l1: seq<EsObject>, l2: seq<EsObject>, key: KeyFn)
    ensures Matching(l1, l2, key).Failure? <==> Keys(l1, key).Failure? || Keys(l2, key).Failure?
    ensures Matching(l1, l2, key).Failure? ==>
              Matching(l1, l2, key).error == if Keys(l1, key).Failure? then Keys(l1, key).error else Keys(l2, key).error
  {
    HashedDictSpec(l1, key);
    HashedDictSpec(l2, key);
  }

  lemma SharedAppend(ks: seq<string>, k: string, m: map<string, EsObject>)
    ensures Shared(ks + [k], m) == Shared(ks, m) + if k in m then [k] else []
  {
    assert (ks + [k])[..|ks|] == ks;
  }

  lemma LookupAppend(ks: seq<string>, k: string, m: map<string, EsObject>)
    requires forall k' :: k' in ks ==> k' in m
    requires k in m
    ensures Lookup(ks + [k], m) == Lookup(ks, m) + [m[k]]
  {
  }

  method ReturnMatching(l1: seq<EsObject>, l2: seq<EsObject>, key: KeyFn) returns (r: Result<seq<EsObject>, Exc>)
    ensures r == Matching(l1, l2, key)
  {
    var hashed1 := BuildHashedDict(l1, key);
    if hashed1.Failure? {
      return Failure(hashed1.error);
    }
    var hashed2 := BuildHashedDict(l2, key);
    if hashed2.Failure? {
      return Failure(hashed2.error);
    }
    var matching := CollectShared(hashed1.value.keys, hashed2.value.entries);
    r := Success(matching);
  }

  /** `return_matching`'s loop over the keys of the first dict. */
  method CollectShared(ks: seq<string>, m: map<string, EsObject>) returns (matching: seq<EsObject>)
    ensures matching == Lookup(Shared(ks, m), m)
  {
    matching := [];
    var i := 0;
    while i < |ks|
      invariant 0 <= i <= |ks|
      invariant matching == Lookup(Shared(ks[..i], m), m)
    {
      assert ks[..i + 1] == ks[..i] + [ks[i]];
      SharedAppend(ks[..i], ks[i], m);
      if ks[i] in m {
        LookupAppend(Shared(ks[..i], m), ks[i], m);
        matching := matching + [m[ks[i]]];
      }
      i := i + 1;
    }
    assert ks[..i] == ks;
  }

  /**
   * What `return_matching` returns: documents of `list2`, one per
   * fingerprint the two lists share, so its length is the number of shared
   * fingerprints; their fingerprints are distinct and follow the first
   * appearance order of `list1`.
   */
  lemma MatchingSpec(l1: seq<EsObject>, l2: seq<EsObject>, key: KeyFn)
    requires Matching(l1, l2, key).Success?
    ensures Keys(l1, key).Success? && Keys(l2, key).Success?
    ensures var r := Matching(l1, l2, key).value;
            forall i :: 0 <= i < |r| ==> r[i] in l2
    ensures Keys(Matching(l1, l2, key).value, key).Success?
    ensures var rk, k1, k2 := Keys(Matching(l1, l2, key).value, key).value, Keys(l1, key).value, Keys(l2, key).value;
            && Distinct(rk)
            && IsSubsequence(rk, Dedup(k1))
            && (forall k :: k in rk <==> k in k1 && k in k2)
            && |Matching(l1, l2, key).value| == |Elems(k1) * Elems(k2)|
  {
    MatchingKeys(l1, l2, key);
    HashedDictSpec(l1, key);
    HashedDictSpec(l2, key);
    var d2 := HashedDict(l2, key).value;
    SharedSpec(Keys(l1, key).value, Keys(l2, key).value, d2.entries);
  }

  /** The documents `return_matching` returns come from `list2` and carry the shared fingerprints. */
  lemma MatchingKeys(l1: seq<EsObject>, l2: seq<EsObject>, key: KeyFn)
    requires Matching(l1, l2, key).Success?
    ensures Keys(l1, key).Success? && Keys(l2, key).Success?
    ensures HashedDict(l1, key).Success? && HashedDict(l2, key).Success?
    ensures var r := Matching(l1, l2, key).value;
            && (forall i :: 0 <= i < |r| ==> r[i] in l2)
            && Keys(r, key) == Success(Shared(HashedDict(l1, key).value.keys, HashedDict(l2, key).value.entries))
  {
    MatchingFailure(l1, l2, key);
    var d1, d2 := HashedDict(l1, key).value, HashedDict(l2, key).value;
    var ks := Shared(d1.keys, d2.entries);
    var r := Matching(l1, l2, key).value;
    assert r == Lookup(ks, d2.entries);
    forall i | 0 <= i < |r| ensures key(r[i]) == Success(ks[i]) && r[i] in l2 {
      HashedDictEntry(l2, key, ks[i]);
    }
    KeysFailure(r, key);
    assert Keys(r, key).value == ks;
  }

  /** The fingerprints both lists have, taken in the first list's order. */
  lemma SharedSpec(k1: seq<string>, k2: seq<string>, m: map<string, EsObject>)
    requires forall k :: k in m <==> k in Dedup(k2)
    ensures var ks := Shared(Dedup(k1), m);
            && Distinct(ks)
            && IsSubsequence(ks, Dedup(k1))
            && (forall k :: k in ks <==> k in k1 && k in k2)
            && |ks| == |Elems(k1) * Elems(k2)|
  {
    var ks := Shared(Dedup(k1), m);
    FilterDistinct(Dedup(k1), k => k in m);
    FilterIsSubsequence(Dedup(k1), k => k in m);
    forall k ensures k in ks <==> k in k1 && k in k2 {
      if k in k1 && k in k2 {
        var i :| 0 <= i < |k1| && k1[i] == k;
        var j :| 0 <= j < |k2| && k2[j] == k;
        assert k in Dedup(k1) && k in m;
        var i' :| 0 <= i' < |Dedup(k1)| && Dedup(k1)[i'] == k;
      }
    }
    assert Elems(ks) == Elems(k1) * Elems(k2);
    DistinctElemsCard(ks);
  }

  /** `return_matching` finds nothing exactly when the two lists share no fingerprint. */
  lemma MatchingEmptyIff(l1: seq<EsObject>, l2: seq<EsObject>, key: KeyFn)
    requires Matching(l1, l2, key).Success?
    ensures Keys(l1, key).Success? && Keys(l2, key).Success?
    ensures |Matching(l1, l2, key).value| == 0 <==>
            forall k :: k in Keys(l1, key).value ==> k !in Keys(l2, key).value
  {
    MatchingSpec(l1, l2, key);
    var k1, k2 := Keys(l1, key).value, Keys(l2, key).value;
    if exists k :: k in k1 && k in k2 {
      var k :| k in k1 && k in k2;
      assert k in Elems(k1) * Elems(k2);
    } else {
      assert Elems(k1) * Elems(k2) == {};
    }
  }

  /**
   * `return_matching` returns as many documents as the second list holds
   * exactly when the second list's fingerprints are pairwise distinct and
   * each of them is also a fingerprint of the first list.
   */
  lemma MatchingCoversIff(l1: seq<EsObject>, l2: seq<EsObject>, key: KeyFn)
    requires Matching(l1, l2, key).Success?
    ensures Keys(l1, key).Success? && Keys(l2, key).Success?
    ensures |Matching(l1, l2, key).value| == |l2| <==>
            Distinct(Keys(l2, key).value) && Elems(Keys(l2, key).value) <= Elems(Keys(l1, key).value)
  {
    MatchingSpec(l1, l2, key);
    var k1, k2 := Keys(l1, key).value, Keys(l2, key).value;
    ElemsCardLe(k2);
    SubsetCardLe(Elems(k1) * Elems(k2), Elems(k2));
    if |Matching(l1, l2, key).value| == |l2| {
      assert Elems(k1) * Elems(k2) == Elems(k2);
    }
    if Distinct(k2) && Elems(k2) <= Elems(k1) {
      assert Elems(k1) * Elems(k2) == Elems(k2);
    }
  }

  // ---------------------------------------------------------------------------
  // determine_missing_ifgs

  /** The configuration fingerprints neither produced nor blacklisted, in order. */
  function Unclaimed(ks: seq<string>, produced: set<string>, blacklisted: set<string>): seq<string> {
    Filter(ks, k => k !in produced && k !in blacklisted)
  }

  /** `determine_missing_ifgs`: the configurations whose product is neither present nor blacklisted. */
  function Missing(cfgs: OrderedDict, ifgs: OrderedDict, blacklist: OrderedDict): seq<EsObject>
    requires WellFormed(cfgs)
  {
    Lookup(Unclaimed(cfgs.keys, ifgs.entries.Keys, blacklist.entries.Keys), cfgs.entries)
  }

  method DetermineMissing(cfgs: OrderedDict, ifgs: OrderedDict, blacklist: OrderedDict) returns (missing: seq<EsObject>)
    requires WellFormed(cfgs)
    ensures missing == Missing(cfgs, ifgs, blacklist)
  {
    var produced, blacklisted := ifgs.entries.Keys, blacklist.entries.Keys;
    missing := [];
    var i := 0;
    while i < |cfgs.keys|
      invariant 0 <= i <= |cfgs.keys|
      invariant missing == Lookup(Unclaimed(cfgs.keys[..i], produced, blacklisted), cfgs.entries)
    {
      var k := cfgs.keys[i];
      assert cfgs.keys[..i + 1][..i] == cfgs.keys[..i];
      if !(k in produced) && !(k in blacklisted) {
        missing := missing + [cfgs.entries[k]];
      }
      i := i + 1;
    }
    assert cfgs.keys[..i] == cfgs.keys;
  }

  /**
   * The missing configurations are exactly those whose fingerprint is in
   * neither the product index nor the blacklist, one per fingerprint, in
   * the configurations' order.
   */
  lemma MissingSpec(cfgs: OrderedDict, ifgs: OrderedDict, blacklist: OrderedDict)
    requires WellFormed(cfgs)
    ensures var u := Unclaimed(cfgs.keys, ifgs.entries.Keys, blacklist.entries.Keys);
            && Distinct(u)
            && IsSubsequence(u, cfgs.keys)
            && (forall k :: k in u <==> k in cfgs.entries && k !in ifgs.entries && k !in blacklist.entries)
            && Missing(cfgs, ifgs, blacklist) == Lookup(u, cfgs.entries)
  {
    var produced, blacklisted := ifgs.entries.Keys, blacklist.entries.Keys;
    FilterDistinct(cfgs.keys, k => k !in produced && k !in blacklisted);
    FilterIsSubsequence(cfgs.keys, k => k !in produced && k !in blacklisted);
  }

  /**
   * Growing the product index or the blacklist only removes configurations
   * from the missing list: re-filtering the old list gives the new one.
   */
  lemma {:induction false} UnclaimedMonotone(ks: seq<string>, produced: set<string>, blacklisted: set<string>,
                                             produced': set<string>, blacklisted': set<string>)
    requires produced <= produced' && blacklisted <= blacklisted'
    ensures Unclaimed(Unclaimed(ks, produced, blacklisted), produced', blacklisted') ==
            Unclaimed(ks, produced', blacklisted')
    decreases |ks|
  {
    if ks != [] {
      var p, x := ks[..|ks| - 1], ks[|ks| - 1];
      UnclaimedMonotone(p, produced, blacklisted, produced', blacklisted');
      var u := Unclaimed(p, produced, blacklisted);
      if x !in produced && x !in blacklisted {
        assert (u + [x])[..|u|] == u;
      }
    }
  }

  // ---------------------------------------------------------------------------
  // determine_failed

  /**
   * `is_in(ifg_cfg, failed_job_list)`: false for an empty failed-job list;
   * otherwise the source returns a random placeholder, modelled as an
   * arbitrary predicate `matches`.
   */
  predicate IsIn(cfg: EsObject, failedJobs: seq<EsObject>, matches: EsObject -> bool)
    ensures IsIn(cfg, failedJobs, matches) ==> failedJobs != []
  {
    |failedJobs| != 0 && matches(cfg)
  }

  /** `determine_failed`: the missing configurations `is_in` accepts, in order. */
  function Failed(missing: seq<EsObject>, failedJobs: seq<EsObject>, matches: EsObject -> bool): seq<EsObject> {
    Filter(missing, cfg => IsIn(cfg, failedJobs, matches))
  }

  method DetermineFailed(missing: seq<EsObject>, failedJobs: seq<EsObject>, matches: EsObject -> bool)
    returns (toBlacklist: seq<EsObject>)
    ensures toBlacklist == Failed(missing, failedJobs, matches)
  {
    toBlacklist := [];
    var i := 0;
    while i < |missing|
      invariant 0 <= i <= |missing|
      invariant toBlacklist == Failed(missing[..i], failedJobs, matches)
    {
      assert missing[..i + 1][..i] == missing[..i];
      if IsIn(missing[i], failedJobs, matches) {
        toBlacklist := toBlacklist + [missing[i]];
      }
      i := i + 1;
    }
    assert missing[..i] == missing;
  }

  /**
   * Only missing configurations are blacklisted, in their order, exactly
   * those `is_in` accepts; with no failed jobs, none.
   */
  lemma FailedSpec(missing: seq<EsObject>, failedJobs: seq<EsObject>, matches: EsObject -> bool)
    ensures IsSubsequence(Failed(missing, failedJobs, matches), missing)
    ensures forall i :: 0 <= i < |missing| ==>
              (missing[i] in Failed(missing, failedJobs, matches) <==> IsIn(missing[i], failedJobs, matches))
    ensures |failedJobs| == 0 ==> Failed(missing, failedJobs, matches) == []
  {
    FilterIsSubsequence(missing, cfg => IsIn(cfg, failedJobs, matches));
  }
}
