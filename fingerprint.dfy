/**
 * Scene fingerprints: the content identity of a product, computed from its
 * reference (master) and secondary (slave) scene lists.
 *
 * Two schemes are in use.
 *  - The pickle key of tagger.py and generate_blacklist.py:
 *    md5(pickle(sorted(master))) + "_" + md5(pickle(sorted(slave))).
 *  - The enumerator hash (`full_id_hash`) of the two *_from_job scripts and
 *    of build_blacklist_product.py: the sorted scene ids, reduced to their
 *    first element and joined by spaces, then one md5 of the JSON pair.
 *
 * md5, pickle and json.dumps are parameters (`Hashers`): every property here
 * holds whatever they compute. What is proved is that each scheme feeds them
 * a canonical input, so a key does not depend on the order of the scene lists
 * (nor, for the enumerator hash, on how an entry is represented).
 */
module Fingerprint {
  import opened Wrappers
  import opened Documents
  import opened Sequences
  import opened Sorting
  import opened Strings

  type Bytes = seq<bv8>

  /** The library functions a fingerprint is made of, left uninterpreted. */
  datatype Hashers = Hashers(
    md5Hex: Bytes -> string,        // hashlib.md5(data).hexdigest()
    pickle: seq<Scene> -> Bytes,    // pickle.dumps(scene_list)
    jsonUtf8: seq<string> -> Bytes) // json.dumps(str_list).encode("utf8")

  // ---------------------------------------------------------------------------
  // Sorting scene lists

  /**
   * The order `sorted` puts scene entries in: by identifier, then (for
   * tuples with the same identifier) by the remaining field.
   */
  predicate SceneLe(a: Scene, b: Scene) {
    if a.id != b.id then StrLe(a.id, b.id)
    else match (a, b)
      case (Plain(_), _) => true
      case (Pair(_, _), Plain(_)) => false
      case (Pair(_, x), Pair(_, y)) => StrLe(x, y)
  }

  lemma SceneLeIsTotalOrder()
    ensures TotalOrder(SceneLe)
  {
    forall a, b ensures SceneLe(a, b) || SceneLe(b, a) {
      StrLeTotal(a.id, b.id);
      if a.Pair? && b.Pair? {
        StrLeTotal(a.extra, b.extra);
      }
    }
    forall a, b | SceneLe(a, b) && SceneLe(b, a) ensures a == b {
      if a.id != b.id {
        StrLeAntisymmetric(a.id, b.id);
      } else if a.Pair? && b.Pair? {
        StrLeAntisymmetric(a.extra, b.extra);
      }
    }
    forall a, b, c | SceneLe(a, b) && SceneLe(b, c) ensures SceneLe(a, c) {
      SceneLeTransitive(a, b, c);
    }
  }

  lemma SceneLeTransitive(a: Scene, b: Scene, c: Scene)
    requires SceneLe(a, b) && SceneLe(b, c)
    ensures SceneLe(a, c)
  {
    StrLeIsTotalOrder();
    if a.id == b.id && b.id == c.id && a.Pair? && b.Pair? && c.Pair? {
      StrLeTransitive(a.extra, b.extra, c.extra);
    } else if a.id != c.id {
      assert StrLe(a.id, b.id) && StrLe(b.id, c.id);
    }
  }

  /** `sorted(scene_list)`. */
  function SortScenes(s: seq<Scene>): seq<Scene> {
    Sort(s, SceneLe)
  }

  /** Reordering a scene list does not change its sorted form. */
  lemma SortScenesCanonical(a: seq<Scene>, b: seq<Scene>)
    requires multiset(a) == multiset(b)
    ensures SortScenes(a) == SortScenes(b)
  {
    SceneLeIsTotalOrder();
    SortIsCanonical(a, b, SceneLe);
  }

  // ---------------------------------------------------------------------------
  // The pickle key (tagger.py gen_hash; generate_blacklist.py gen_hash)

  function PickleDigest(h: Hashers, scenes: seq<Scene>): string {
    h.md5Hex(h.pickle(SortScenes(scenes)))
  }

  /** tagger.py `gen_hash`: every key on the path is required. */
  function PickleKey(h: Hashers, obj: EsObject): (r: Result<string, Exc>)
    ensures r.Success? <==> MetadataOrKeyError(obj).Success?
                            && MetadataOrEmpty(obj).masterScenes.Some?
                            && MetadataOrEmpty(obj).slaveScenes.Some?
  {
    var met :- MetadataOrKeyError(obj);
    if met.masterScenes.None? then Failure(KeyError("master_scenes"))
    else if met.slaveScenes.None? then Failure(KeyError("slave_scenes"))
    else Success(PickleDigest(h, met.masterScenes.value) + "_" + PickleDigest(h, met.slaveScenes.value))
  }

  /**
   * The pickle key of a product does not depend on the order of its master
   * list nor of its slave list.
   */
  lemma PickleKeyOrderIndependent(h: Hashers, a: EsObject, b: EsObject)
    requires PickleKey(h, a).Success? && PickleKey(h, b).Success?
    requires multiset(MetadataOrEmpty(a).masterScenes.value) == multiset(MetadataOrEmpty(b).masterScenes.value)
    requires multiset(MetadataOrEmpty(a).slaveScenes.value) == multiset(MetadataOrEmpty(b).slaveScenes.value)
    ensures PickleKey(h, a) == PickleKey(h, b)
  {
    var ma, mb := MetadataOrEmpty(a), MetadataOrEmpty(b);
    SortScenesCanonical(ma.masterScenes.value, mb.masterScenes.value);
    SortScenesCanonical(ma.slaveScenes.value, mb.slaveScenes.value);
  }

  /** tagger.py `are_match`: both keys are computed (first one first) and compared. */
  function AreMatch(h: Hashers, a: EsObject, b: EsObject): (r: Result<bool, Exc>)
    ensures r.Failure? <==> PickleKey(h, a).Failure? || PickleKey(h, b).Failure?
    ensures r.Failure? ==> r.error == if PickleKey(h, a).Failure? then PickleKey(h, a).error else PickleKey(h, b).error
  {
    var ka :- PickleKey(h, a);
    var kb :- PickleKey(h, b);
    Success(ka == kb)
  }

  /**
   * `are_match` holds exactly when the two keys are equal; it raises exactly
   * when a key does; it is reflexive, symmetric and transitive on products
   * whose keys exist.
   */
  lemma AreMatchIsKeyEquality(h: Hashers, a: EsObject, b: EsObject, c: EsObject)
    ensures AreMatch(h, a, b).Success? <==> PickleKey(h, a).Success? && PickleKey(h, b).Success?
    ensures AreMatch(h, a, b).Success? ==> (AreMatch(h, a, b).value <==> PickleKey(h, a) == PickleKey(h, b))
    ensures PickleKey(h, a).Success? ==> AreMatch(h, a, a) == Success(true)
    ensures AreMatch(h, a, b).Success? ==> AreMatch(h, b, a) == AreMatch(h, a, b)
    ensures AreMatch(h, a, b) == Success(true) && AreMatch(h, b, c) == Success(true) ==> AreMatch(h, a, c) == Success(true)
  {
  }

  /** `ids.split(',')` as a list of plain scene ids. */
  function IdsAsScenes(ids: string): (r: seq<Scene>)
    ensures |r| == |Split(ids, ',')|
    ensures forall i :: 0 <= i < |r| ==> r[i] == Plain(Split(ids, ',')[i])
  {
    var parts := Split(ids, ',');
    seq(|parts|, i requires 0 <= i < |parts| => Plain(parts[i]))
  }

  /**
   * generate_blacklist.py `gen_hash`: the scene lists when `master_scenes`
   * is present, otherwise the comma-separated `master_ids`/`slave_ids`.
   */
  function BlacklistKey(h: Hashers, obj: EsObject): (r: Result<string, Exc>)
    ensures var m := MetadataOrEmpty(obj);
            r.Success? <==> MetadataOrKeyError(obj).Success? &&
                            if m.masterScenes.Some? then m.slaveScenes.Some? else m.masterIds.Some? && m.slaveIds.Some?
    ensures var m := MetadataOrEmpty(obj);
            r.Success? && m.masterScenes.None? ==>
              r.value == PickleDigest(h, IdsAsScenes(m.masterIds.value)) + "_" + PickleDigest(h, IdsAsScenes(m.slaveIds.value))
  {
    var met :- MetadataOrKeyError(obj);
    if met.masterScenes.Some? then
      if met.slaveScenes.None? then Failure(KeyError("slave_scenes"))
      else Success(PickleDigest(h, met.masterScenes.value) + "_" + PickleDigest(h, met.slaveScenes.value))
    else if met.masterIds.None? then Failure(KeyError("master_ids"))
    else if met.slaveIds.None? then Failure(KeyError("slave_ids"))
    else Success(PickleDigest(h, IdsAsScenes(met.masterIds.value)) + "_" +
                 PickleDigest(h, IdsAsScenes(met.slaveIds.value)))
  }

  /**
   * On a product that carries `master_scenes`, generate_blacklist.py and
   * tagger.py compute the same key (including the same KeyError).
   */
  lemma BlacklistKeyAgreesWithPickleKey(h: Hashers, obj: EsObject)
    requires MetadataOrEmpty(obj).masterScenes.Some?
    ensures BlacklistKey(h, obj) == PickleKey(h, obj)
  {
  }

  /**
   * Schema independence: a product described by comma-separated id strings
   * gets the same key as one carrying scene lists with the same ids, in any
   * order (so `master_ids "b,a"` matches `master_scenes ["a", "b"]`).
   */
  lemma BlacklistKeyIdsMatchScenes(h: Hashers, byIds: EsObject, byScenes: EsObject)
    requires MetadataOrKeyError(byIds).Success? && MetadataOrKeyError(byScenes).Success?
    requires var m := MetadataOrEmpty(byIds);
             m.masterScenes.None? && m.masterIds.Some? && m.slaveIds.Some?
    requires var m := MetadataOrEmpty(byScenes);
             m.masterScenes.Some? && m.slaveScenes.Some?
    requires multiset(MetadataOrEmpty(byScenes).masterScenes.value) ==
             multiset(IdsAsScenes(MetadataOrEmpty(byIds).masterIds.value))
    requires multiset(MetadataOrEmpty(byScenes).slaveScenes.value) ==
             multiset(IdsAsScenes(MetadataOrEmpty(byIds).slaveIds.value))
    ensures BlacklistKey(h, byIds).Success?
    ensures BlacklistKey(h, byIds) == BlacklistKey(h, byScenes)
  {
    var mi, ms := MetadataOrEmpty(byIds), MetadataOrEmpty(byScenes);
    SortScenesCanonical(ms.masterScenes.value, IdsAsScenes(mi.masterIds.value));
    SortScenesCanonical(ms.slaveScenes.value, IdsAsScenes(mi.slaveIds.value));
  }

  /**
   * Writing a non-empty list of plain ids (none containing a comma) as a
   * comma-separated string loses nothing: splitting it gives the list back.
   */
  lemma IdsStringRoundTrip(ids: seq<string>)
    requires |ids| > 0
    requires forall i :: 0 <= i < |ids| ==> ',' !in ids[i]
    ensures IdsAsScenes(Join(ids, ',')) == seq(|ids|, i requires 0 <= i < |ids| => Plain(ids[i]))
  {
    SplitJoin(ids, ',');
  }

  // ---------------------------------------------------------------------------
  // The enumerator hash (gen_direct_hash / gen_hash / get_hash)

  /** The identifier of each entry: a tuple or list contributes its first element. */
  function Ids(items: seq<Scene>): (r: seq<string>)
    ensures |r| == |items|
    ensures forall i :: 0 <= i < |items| ==> r[i] == items[i].id
  {
    seq(|items|, i requires 0 <= i < |items| => items[i].id)
  }

  /** The ids after the leading empty ones, which the accumulating loop swallows. */
  function DropLeadingEmpty(ids: seq<string>): seq<string> {
    if ids != [] && ids[0] == "" then DropLeadingEmpty(ids[1..]) else ids
  }

  function NonEmpty(ids: seq<string>): (r: seq<string>)
    ensures forall i :: 0 <= i < |r| ==> r[i] != "" && r[i] in ids
    ensures forall i :: 0 <= i < |ids| && ids[i] != "" ==> ids[i] in r
  {
    if ids == [] then []
    else if ids[0] == "" then NonEmpty(ids[1..])
    else [ids[0]] + NonEmpty(ids[1..])
  }

  /** The string the loop over `sorted(scenes)` builds. */
  function Canonical(items: seq<Scene>): string {
    Join(DropLeadingEmpty(Ids(SortScenes(items))), ' ')
  }

  /**
   * `gen_direct_hash(master_slcs, slave_slcs)`: a missing list (`False`)
   * makes `sorted` raise TypeError.
   */
  function DirectHash(h: Hashers, master: Option<seq<Scene>>, slave: Option<seq<Scene>>): (r: Result<string, Exc>)
    ensures r.Failure? <==> master.None? || slave.None?
  {
    if master.None? || slave.None? then Failure(TypeError("'bool' object is not iterable"))
    else Success(h.md5Hex(h.jsonUtf8([Canonical(master.value), Canonical(slave.value)])))
  }

  lemma DropLeadingEmptyAppend(xs: seq<string>, y: string)
    ensures DropLeadingEmpty(xs + [y]) ==
            if DropLeadingEmpty(xs) == [] then (if y == "" then [] else [y])
            else DropLeadingEmpty(xs) + [y]
  {
    if xs != [] {
      assert (xs + [y])[1..] == xs[1..] + [y];
      if xs[0] == "" {
        DropLeadingEmptyAppend(xs[1..], y);
      }
    }
  }

  lemma DropLeadingEmptyHead(xs: seq<string>)
    ensures DropLeadingEmpty(xs) != [] ==> DropLeadingEmpty(xs)[0] != ""
  {
  }

  /** One pass of the source's accumulating loop over already-sorted entries. */
  method AccumulateIds(sorted: seq<Scene>) returns (acc: string)
    ensures acc == Join(DropLeadingEmpty(Ids(sorted)), ' ')
  {
    acc := "";
    var i := 0;
    while i < |sorted|
      invariant 0 <= i <= |sorted|
      invariant acc == Join(DropLeadingEmpty(Ids(sorted[..i])), ' ')
    {
      var slc := sorted[i].id;
      assert Ids(sorted[..i + 1]) == Ids(sorted[..i]) + [slc];
      DropLeadingEmptyAppend(Ids(sorted[..i]), slc);
      DropLeadingEmptyHead(Ids(sorted[..i]));
      if acc == "" {
        acc := slc;
      } else {
        JoinAppend(DropLeadingEmpty(Ids(sorted[..i])), slc, ' ');
        acc := acc + " " + slc;
      }
      i := i + 1;
    }
    assert sorted[..i] == sorted;
  }

  /** `gen_direct_hash`, with its two loops. */
  method GenDirectHash(h: Hashers, master: Option<seq<Scene>>, slave: Option<seq<Scene>>)
    returns (r: Result<string, Exc>)
    ensures r == DirectHash(h, master, slave)
  {
    if master.None? || slave.None? {
      return Failure(TypeError("'bool' object is not iterable"));
    }
    var masterStr := AccumulateIds(SortScenes(master.value));
    var slaveStr := AccumulateIds(SortScenes(slave.value));
    r := Success(h.md5Hex(h.jsonUtf8([masterStr, slaveStr])));
  }

  lemma IdsConcat(a: seq<Scene>, b: seq<Scene>)
    ensures Ids(a + b) == Ids(a) + Ids(b)
  {
  }

  lemma {:induction false} IdsOfInsert(x: Scene, s: seq<Scene>)
    ensures multiset(Ids(Insert(x, s, SceneLe))) == multiset(Ids(s)) + multiset{x.id}
  {
    var t := Insert(x, s, SceneLe);
    if s != [] && !SceneLe(x, s[0]) {
      var rest := Insert(x, s[1..], SceneLe);
      assert t == [s[0]] + rest;
      IdsOfInsert(x, s[1..]);
      IdsConcat([s[0]], rest);
      assert s == [s[0]] + s[1..];
      IdsConcat([s[0]], s[1..]);
    } else {
      assert t == [x] + s;
      IdsConcat([x], s);
    }
  }

  lemma IdsCons(s: seq<Scene>)
    requires s != []
    ensures multiset(Ids(s)) == multiset(Ids(s[1..])) + multiset{s[0].id}
  {
    assert s == [s[0]] + s[1..];
    IdsConcat([s[0]], s[1..]);
    assert Ids([s[0]]) == [s[0].id];
  }

  lemma SortScenesCons(s: seq<Scene>)
    requires s != []
    ensures SortScenes(s) == Insert(s[0], SortScenes(s[1..]), SceneLe)
  {
  }

  lemma {:induction false} IdsOfSortPermute(s: seq<Scene>)
    ensures multiset(Ids(SortScenes(s))) == multiset(Ids(s))
  {
    if s != [] {
      SortScenesCons(s);
      IdsOfSortPermute(s[1..]);
      IdsOfInsert(s[0], SortScenes(s[1..]));
      IdsCons(s);
    }
  }

  /** After sorting the entries, their ids are sorted too. */
  lemma SortedIds(s: seq<Scene>)
    ensures SortedBy(Ids(SortScenes(s)), StrLe)
    ensures multiset(Ids(SortScenes(s))) == multiset(Ids(s))
  {
    SceneLeIsTotalOrder();
    SortSorted(s, SceneLe);
    IdsOfSortPermute(s);
    var t := SortScenes(s);
    forall i, j | 0 <= i < j < |t| ensures StrLe(Ids(t)[i], Ids(t)[j]) {
      assert SceneLe(t[i], t[j]);
      if t[i].id == t[j].id {
        StrLeIsTotalOrder();
      }
    }
  }

  /**
   * Only the ids matter: two scene lists with the same ids (in any order,
   * as plain strings or as the first element of tuples) give the same
   * canonical string.
   */
  lemma CanonicalDependsOnlyOnIds(a: seq<Scene>, b: seq<Scene>)
    requires multiset(Ids(a)) == multiset(Ids(b))
    ensures Canonical(a) == Canonical(b)
  {
    SortedIds(a);
    SortedIds(b);
    StrLeIsTotalOrder();
    SortedUnique(Ids(SortScenes(a)), Ids(SortScenes(b)), StrLe);
  }

  lemma {:induction false} DropLeadingEmptyOfSorted(xs: seq<string>)
    requires SortedBy(xs, StrLe)
    ensures DropLeadingEmpty(xs) == NonEmpty(xs)
  {
    if xs != [] {
      if xs[0] == "" {
        SortedTail(xs, StrLe);
        DropLeadingEmptyOfSorted(xs[1..]);
      } else {
        forall j | 0 <= j < |xs| ensures xs[j] != "" {
          if j > 0 {
            assert StrLe(xs[0], xs[j]);
          }
        }
        NonEmptyOfAllNonEmpty(xs);
      }
    }
  }

  lemma {:induction false} NonEmptyOfAllNonEmpty(xs: seq<string>)
    requires forall j :: 0 <= j < |xs| ==> xs[j] != ""
    ensures NonEmpty(xs) == xs
  {
    if xs != [] {
      NonEmptyOfAllNonEmpty(xs[1..]);
    }
  }

  /**
   * The canonical string is the sorted ids with the empty ones left out,
   * joined by single spaces: an empty id sorts first and the loop drops it
   * together with its separator.
   */
  lemma CanonicalIsSortedNonEmptyIds(items: seq<Scene>)
    ensures Canonical(items) == Join(NonEmpty(Ids(SortScenes(items))), ' ')
    ensures SortedBy(Ids(SortScenes(items)), StrLe)
    ensures multiset(Ids(SortScenes(items))) == multiset(Ids(items))
  {
    SortedIds(items);
    DropLeadingEmptyOfSorted(Ids(SortScenes(items)));
  }

  /**
   * `gen_direct_hash` is invariant under reordering either list and under
   * replacing an entry by a tuple with the same first element.
   */
  lemma DirectHashDependsOnlyOnIds(h: Hashers, m1: seq<Scene>, s1: seq<Scene>, m2: seq<Scene>, s2: seq<Scene>)
    requires multiset(Ids(m1)) == multiset(Ids(m2))
    requires multiset(Ids(s1)) == multiset(Ids(s2))
    ensures DirectHash(h, Some(m1), Some(s1)) == DirectHash(h, Some(m2), Some(s2))
    ensures DirectHash(h, Some(m1), Some(s1)).Success?
  {
    CanonicalDependsOnlyOnIds(m1, m2);
    CanonicalDependsOnlyOnIds(s1, s2);
  }

  /** `met.get(primary, met.get(alias, False))`. */
  function Aliased(primary: Option<seq<Scene>>, alias: Option<seq<Scene>>): (r: Option<seq<Scene>>)
    ensures r.None? <==> primary.None? && alias.None?
    ensures primary.Some? ==> r == primary
  {
    if primary.Some? then primary else alias
  }

  /**
   * `gen_hash` of the *_from_job scripts and build_blacklist_product.py:
   * `master_scenes` falling back to `reference_scenes`, `slave_scenes`
   * falling back to `secondary_scenes`; missing `_source` or `metadata`
   * count as empty.
   */
  function EnumeratorKey(h: Hashers, obj: EsObject): (r: Result<string, Exc>)
    ensures var m := MetadataOrEmpty(obj);
            r.Failure? <==> (m.masterScenes.None? && m.referenceScenes.None?) ||
                            (m.slaveScenes.None? && m.secondaryScenes.None?)
  {
    var met := MetadataOrEmpty(obj);
    DirectHash(h, Aliased(met.masterScenes, met.referenceScenes), Aliased(met.slaveScenes, met.secondaryScenes))
  }

  /**
   * The new key names are honoured: a document that only has
   * `reference_scenes`/`secondary_scenes` hashes like one that has the same
   * lists under `master_scenes`/`slave_scenes`, and the old names win when
   * both are present.
   */
  lemma EnumeratorKeyAliasing(h: Hashers, a: EsObject, b: EsObject)
    requires var ma, mb := MetadataOrEmpty(a), MetadataOrEmpty(b);
             && ma.masterScenes.None? && ma.slaveScenes.None?
             && mb.masterScenes == ma.referenceScenes && mb.slaveScenes == ma.secondaryScenes
             && mb.referenceScenes.None? && mb.secondaryScenes.None?
    ensures EnumeratorKey(h, a) == EnumeratorKey(h, b)
  {
  }

  /** `master_scenes` takes precedence over `reference_scenes` (and likewise for slave). */
  lemma EnumeratorKeyPrefersOldNames(h: Hashers, obj: EsObject)
    requires MetadataOrEmpty(obj).masterScenes.Some? && MetadataOrEmpty(obj).slaveScenes.Some?
    ensures EnumeratorKey(h, obj) == DirectHash(h, MetadataOrEmpty(obj).masterScenes, MetadataOrEmpty(obj).slaveScenes)
  {
  }

  /** Truthiness of the cached `full_id_hash`. */
  function CachedHash(obj: EsObject): (r: Option<string>)
    ensures r.Some? <==> MetadataOrEmpty(obj).fullIdHash.Some? && MetadataOrEmpty(obj).fullIdHash.value != ""
    ensures r.Some? ==> MetadataOrEmpty(obj).fullIdHash == r
  {
    var cached := MetadataOrEmpty(obj).fullIdHash;
    if cached.Some? && cached.value != "" then cached else None
  }

  /** `get_hash`: a truthy cached `full_id_hash` is trusted, otherwise `gen_hash`. */
  function GetHash(h: Hashers, obj: EsObject): (r: Result<string, Exc>)
    ensures CachedHash(obj).Some? ==> r == Success(CachedHash(obj).value)
    ensures CachedHash(obj).None? ==> r == EnumeratorKey(h, obj)
  {
    match CachedHash(obj)
    case Some(cached) => Success(cached)
    case None => EnumeratorKey(h, obj)
  }

  /**
   * A trusted cache short-circuits hashing entirely: two documents with the
   * same truthy `full_id_hash` get the same hash whatever their scene lists,
   * even when those are missing.
   */
  lemma CachedHashIgnoresScenes(h: Hashers, a: EsObject, b: EsObject)
    requires CachedHash(a).Some? && CachedHash(a) == CachedHash(b)
    ensures GetHash(h, a) == GetHash(h, b)
    ensures GetHash(h, a).Success?
  {
  }
}
