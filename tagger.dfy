/**
 * The per-AOI tag decision of tagger.py and its application to the
 * interferogram products.
 *
 * The decision is modelled as the code makes it, which is not the rule the
 * comments describe: products are tagged invalid when NO blacklist product
 * matches the acquisition list, and the validated branch also writes the
 * unformatted literal "{0}_in-progress".
 */
module Tagger {
  import opened Wrappers
  import opened Sequences
  import opened Documents
  import opened Fingerprint
  import opened HashIndex

  const InProgressLiteral := "{0}_in-progress"

  /** `get_objects`' index: the given one, else the fixed table for the object type. */
  function IndexFor(objectType: string, index: Option<string>): (r: Option<string>)
    ensures index.Some? ==> r == index
    ensures index.None? && objectType == "ifg" ==> r == Some("grq_*_s1-ifg")
    ensures index.None? && objectType == "acq-list" ==> r == Some("grq_*_acq-list")
    ensures index.None? && objectType == "ifg-blacklist" ==> r == Some("grq_*_blacklist")
    ensures index.None? && objectType !in ["ifg", "acq-list", "ifg-blacklist"] ==> r.None?
  {
    if index.Some? then index
    else if objectType == "ifg" then Some("grq_*_s1-ifg")
    else if objectType == "acq-list" then Some("grq_*_acq-list")
    else if objectType == "ifg-blacklist" then Some("grq_*_blacklist")
    else None
  }

  /**
   * The tags `main` writes to every interferogram of one AOI, in the order
   * the `tag_all` calls happen; an exception from hashing aborts before any
   * write.
   */
  function Decide(aoiName: string, acq: seq<EsObject>, ifg: seq<EsObject>, blacklist: seq<EsObject>, key: KeyFn)
    : (r: Result<seq<string>, Exc>)
    ensures r.Success? ==>
              r.value == [aoiName + "_invalid"] || r.value == [aoiName + "_validated", InProgressLiteral] || r.value == []
    ensures Keys(blacklist, key).Failure? ==> r == Failure(Keys(blacklist, key).error)
  {
    MatchingFailure(blacklist, acq, key);
    var matchingBlacklist :- Matching(blacklist, acq, key);
    if |matchingBlacklist| == 0 then Success([aoiName + "_invalid"])
    else
      var matchingIfg :- Matching(ifg, acq, key);
      if |matchingIfg| == |acq| then Success([aoiName + "_validated", InProgressLiteral])
      else Success([])
  }

  /**
   * Every interferogram is tagged invalid exactly when no blacklist
   * fingerprint is also an acquisition-list fingerprint: a matching
   * blacklist product prevents the invalid tag.
   */
  lemma DecideInvalid(aoiName: string, acq: seq<EsObject>, ifg: seq<EsObject>, blacklist: seq<EsObject>, key: KeyFn)
    requires Keys(blacklist, key).Success? && Keys(acq, key).Success?
    ensures Decide(aoiName, acq, ifg, blacklist, key) == Success([aoiName + "_invalid"])
            <==>
            forall k :: k in Keys(blacklist, key).value ==> k !in Keys(acq, key).value
  {
    MatchingFailure(blacklist, acq, key);
    MatchingEmptyIff(blacklist, acq, key);
  }

  /** An empty acquisition list always yields the invalid tag. */
  lemma DecideEmptyAcqList(aoiName: string, ifg: seq<EsObject>, blacklist: seq<EsObject>, key: KeyFn)
    requires Keys(blacklist, key).Success?
    ensures Decide(aoiName, [], ifg, blacklist, key) == Success([aoiName + "_invalid"])
  {
    DecideInvalid(aoiName, [], ifg, blacklist, key);
  }

  /**
   * The case the comments call in-progress: some blacklist product matches
   * but the interferograms do not cover the acquisition list, and then no
   * tag at all is written.
   */
  lemma DecideNothing(aoiName: string, acq: seq<EsObject>, ifg: seq<EsObject>, blacklist: seq<EsObject>, key: KeyFn)
    requires Keys(blacklist, key).Success? && Keys(acq, key).Success? && Keys(ifg, key).Success?
    ensures var kb, ka, ki := Keys(blacklist, key).value, Keys(acq, key).value, Keys(ifg, key).value;
            Decide(aoiName, acq, ifg, blacklist, key) == Success([])
            <==>
            (exists k :: k in kb && k in ka) && !(Distinct(ka) && Elems(ka) <= Elems(ki))
  {
    MatchingFailure(blacklist, acq, key);
    MatchingFailure(ifg, acq, key);
    MatchingEmptyIff(blacklist, acq, key);
    MatchingCoversIff(ifg, acq, key);
  }

  /**
   * With every fingerprint computable, the interferograms are tagged
   * validated (followed by the in-progress literal) exactly when some
   * blacklist product matches the acquisition list, the acquisition
   * fingerprints are pairwise distinct and each of them has an
   * interferogram.
   */
  lemma DecideValidated(aoiName: string, acq: seq<EsObject>, ifg: seq<EsObject>, blacklist: seq<EsObject>, key: KeyFn)
    requires Keys(blacklist, key).Success? && Keys(acq, key).Success? && Keys(ifg, key).Success?
    ensures var kb, ka, ki := Keys(blacklist, key).value, Keys(acq, key).value, Keys(ifg, key).value;
            Decide(aoiName, acq, ifg, blacklist, key) == Success([aoiName + "_validated", InProgressLiteral])
            <==>
            (exists k :: k in kb && k in ka) && Distinct(ka) && Elems(ka) <= Elems(ki)
    ensures Decide(aoiName, acq, ifg, blacklist, key).Success?
  {
    MatchingFailure(blacklist, acq, key);
    MatchingFailure(ifg, acq, key);
    MatchingEmptyIff(blacklist, acq, key);
    MatchingCoversIff(ifg, acq, key);
  }

  /** Duplicate acquisition-list fingerprints make the validated branch unreachable. */
  lemma DuplicateAcqNeverValidated(aoiName: string, acq: seq<EsObject>, ifg: seq<EsObject>, blacklist: seq<EsObject>, key: KeyFn)
    requires Keys(blacklist, key).Success? && Keys(acq, key).Success? && Keys(ifg, key).Success?
    requires !Distinct(Keys(acq, key).value)
    ensures Decide(aoiName, acq, ifg, blacklist, key) != Success([aoiName + "_validated", InProgressLiteral])
  {
    DecideValidated(aoiName, acq, ifg, blacklist, key);
  }

  // ---------------------------------------------------------------------------
  // Tag application

  /** One `add_tags(index, uid, tags)` request: the full tag list replaces the stored one. */
  datatype TagWrite = TagWrite(index: string, uid: string, tags: seq<string>)

  /** The product store, seen only through the updates sent to it. */
  class TagStore {
    var writes: seq<TagWrite>

    constructor ()
      ensures writes == []
    {
      writes := [];
    }

    method AddTags(index: string, uid: string, tags: seq<string>)
      modifies this
      ensures writes == old(writes) + [TagWrite(index, uid, tags)]
    {
      writes := writes + [TagWrite(index, uid, tags)];
    }
  }

  /**
   * A search hit. `hasTagList` says whether its metadata holds a `tags`
   * list; only then does `tag_all` append to the hit's own list.
   */
  class Hit {
    const doc: EsObject
    const hasTagList: bool
    var tags: seq<string>

    constructor (doc: EsObject, hasTagList: bool, tags: seq<string>)
      ensures this.doc == doc && this.hasTagList == hasTagList && this.tags == tags
    {
      this.doc := doc;
      this.hasTagList := hasTagList;
      this.tags := tags;
    }
  }

  function Docs(hits: seq<Hit>): (r: seq<EsObject>)
    ensures |r| == |hits| && forall i :: 0 <= i < |hits| ==> r[i] == hits[i].doc
  {
    seq(|hits|, i requires 0 <= i < |hits| => hits[i].doc)
  }

  /** Each tag of `ts`, `n` times over, in order. */
  function Appended(ts: seq<string>, n: nat): (r: seq<string>)
    ensures |r| == |ts| * n
  {
    if ts == [] then [] else Repeat(ts[0], n) + Appended(ts[1..], n)
  }

  /** A hit's tag list after `tag_all` has appended `tag` to it `n` times. */
  function Tagged(o: Hit, before: seq<string>, tag: string, n: nat): seq<string> {
    before + if o.hasTagList then Repeat(tag, n) else []
  }

  /** The list sent for a hit whose list had `before` and had already received `tag` `n` times. */
  function Payload(o: Hit, before: seq<string>, tag: string, n: nat): seq<string> {
    if o.hasTagList then Tagged(o, before, tag, n + 1) else [tag]
  }

  /** The writes `tag_all` sends for the first `n` hits, given each hit's list before the call. */
  function Sent(hits: seq<Hit>, before: map<Hit, seq<string>>, tag: string, index: string, n: nat): (r: seq<TagWrite>)
    requires n <= |hits| && forall o :: o in hits ==> o in before
    ensures |r| == n
  {
    seq(n, j requires 0 <= j < n => TagWrite(index, hits[j].doc.id, Payload(hits[j], before[hits[j]], tag, Occurrences(hits, j, hits[j]))))
  }

  /** The `j`th write goes to the `j`th hit, in the given index, and its list ends with `tag`. */
  lemma SentWrites(hits: seq<Hit>, before: map<Hit, seq<string>>, tag: string, index: string, n: nat, j: nat)
    requires n <= |hits| && forall o :: o in hits ==> o in before
    requires j < n
    ensures var w := Sent(hits, before, tag, index, n)[j];
            w.index == index && w.uid == hits[j].doc.id && |w.tags| > 0 && w.tags[|w.tags| - 1] == tag
  {
    var o := hits[j];
    TaggedStep(o, before[o], tag, Occurrences(hits, j, o));
  }

  lemma SentStep(hits: seq<Hit>, before: map<Hit, seq<string>>, tag: string, index: string, n: nat)
    requires n < |hits| && forall o :: o in hits ==> o in before
    ensures Sent(hits, before, tag, index, n + 1) ==
            Sent(hits, before, tag, index, n) +
            [TagWrite(index, hits[n].doc.id, Payload(hits[n], before[hits[n]], tag, Occurrences(hits, n, hits[n])))]
  {
  }

  /** Each hit's current tag list. */
  function TagLists(hits: seq<Hit>): (r: map<Hit, seq<string>>)
    reads hits
    ensures forall o :: o in hits ==> o in r && r[o] == o.tags
  {
    map o: Hit | o in hits :: o.tags
  }

  lemma TaggedStep(o: Hit, before: seq<string>, tag: string, n: nat)
    ensures Tagged(o, before, tag, n + 1) == Tagged(o, before, tag, n) + if o.hasTagList then [tag] else []
    ensures Payload(o, before, tag, n) == if o.hasTagList then Tagged(o, before, tag, n) + [tag] else [tag]
  {
    assert Repeat(tag, n + 1) == Repeat(tag, n) + [tag];
  }

  /** How often `o` occurs among the first `n` hits. */
  function Occurrences(hits: seq<Hit>, n: nat, o: Hit): nat
    requires n <= |hits|
  {
    multiset(hits[..n])[o]
  }

  lemma OccurrencesStep(hits: seq<Hit>, n: nat, o: Hit)
    requires n < |hits|
    ensures Occurrences(hits, n + 1, o) == Occurrences(hits, n, o) + if o == hits[n] then 1 else 0
  {
    assert hits[..n + 1] == hits[..n] + [hits[n]];
  }

  /**
   * `tag_all`: one store write per hit, in order. The payload is the hit's
   * tag list with `tag` appended, where a hit that occurs several times in
   * the list has already received the tag once per earlier occurrence; a
   * hit without a tag list sends `[tag]` and keeps no state. Nothing is
   * removed from any tag list.
   */
  method TagAll(hits: seq<Hit>, tag: string, index: string, store: TagStore)
    modifies store, hits
    ensures store.writes == old(store.writes) + Sent(hits, old(TagLists(hits)), tag, index, |hits|)
    ensures forall o :: o in hits ==> o.tags == Tagged(o, old(o.tags), tag, multiset(hits)[o])
  {
    ghost var before := TagLists(hits);
    assert before == old(TagLists(hits));
    var i := 0;
    while i < |hits|
      invariant 0 <= i <= |hits|
      invariant store.writes == old(store.writes) + Sent(hits, before, tag, index, i)
      invariant forall o :: o in hits ==> o.tags == Tagged(o, before[o], tag, Occurrences(hits, i, o))
    {
      var obj := hits[i];
      ghost var n := Occurrences(hits, i, obj);
      ghost var p := Payload(obj, before[obj], tag, n);
      TaggedStep(obj, before[obj], tag, n);
      forall o | o in hits ensures Occurrences(hits, i + 1, o) == Occurrences(hits, i, o) + if o == obj then 1 else 0 {
        OccurrencesStep(hits, i, o);
      }
      SentStep(hits, before, tag, index, i);
      ghost var writesBefore := store.writes;
      TagOne(obj, tag, index, store);
      assert store.writes == writesBefore + [TagWrite(index, obj.doc.id, p)];
      i := i + 1;
    }
    forall o | o in hits ensures o.tags == Tagged(o, old(o.tags), tag, multiset(hits)[o]) {
      assert hits[..i] == hits;
    }
  }

  /** The body of `tag_all`'s loop for one hit. */
  method TagOne(obj: Hit, tag: string, index: string, store: TagStore)
    modifies obj, store
    ensures obj.tags == old(obj.tags) + if obj.hasTagList then [tag] else []
    ensures store.writes == old(store.writes) + [TagWrite(index, obj.doc.id, if obj.hasTagList then obj.tags else [tag])]
  {
    var payload;
    if obj.hasTagList {
      obj.tags := obj.tags + [tag];
      payload := obj.tags;
    } else {
      payload := [tag];
    }
    store.AddTags(index, obj.doc.id, payload);
  }

  /**
   * `main` for one AOI: decide, then apply each decided tag to every
   * interferogram with `tag_all`. On an exception nothing has been written.
   */
  method TagAoi(aoiName: string, acq: seq<EsObject>, ifgs: seq<Hit>, blacklist: seq<EsObject>,
                key: KeyFn, index: string, store: TagStore)
    returns (r: Result<seq<string>, Exc>)
    modifies store, ifgs
    ensures r == Decide(aoiName, acq, Docs(ifgs), blacklist, key)
    ensures r.Failure? ==> store.writes == old(store.writes) && forall o :: o in ifgs ==> o.tags == old(o.tags)
    ensures r.Success? ==> |store.writes| == |old(store.writes)| + |r.value| * |ifgs|
    ensures r.Success? ==> old(store.writes) <= store.writes
    ensures r.Success? ==> forall o :: o in ifgs ==>
              o.tags == old(o.tags) + if o.hasTagList then Appended(r.value, multiset(ifgs)[o]) else []
    ensures forall j :: |old(store.writes)| <= j < |store.writes| ==> Some(store.writes[j].index) == IndexFor("ifg", Some(index))
  {
    var matchingBlacklist := ReturnMatching(blacklist, acq, key);
    if matchingBlacklist.Failure? {
      return Failure(matchingBlacklist.error);
    }
    if |matchingBlacklist.value| == 0 {
      r := Success([aoiName + "_invalid"]);
      TagOnce(ifgs, aoiName + "_invalid", index, store);
    } else {
      var matchingIfg := ReturnMatching(Docs(ifgs), acq, key);
      if matchingIfg.Failure? {
        return Failure(matchingIfg.error);
      }
      if |matchingIfg.value| == |acq| {
        r := Success([aoiName + "_validated", InProgressLiteral]);
        TagTwice(ifgs, aoiName + "_validated", InProgressLiteral, index, store);
      } else {
        r := Success([]);
        assert |r.value| * |ifgs| == 0;
      }
    }
  }

  /** `tag_all` with one tag, summarised per hit. */
  method TagOnce(ifgs: seq<Hit>, tag: string, index: string, store: TagStore)
    modifies store, ifgs
    ensures |store.writes| == |old(store.writes)| + |ifgs|
    ensures old(store.writes) <= store.writes
    ensures forall o :: o in ifgs ==> o.tags == old(o.tags) + if o.hasTagList then Appended([tag], multiset(ifgs)[o]) else []
    ensures forall j :: |old(store.writes)| <= j < |store.writes| ==> store.writes[j].index == index
  {
    ghost var before := TagLists(ifgs);
    TagAll(ifgs, tag, index, store);
    forall j | |old(store.writes)| <= j < |store.writes|
      ensures store.writes[j].index == index
    {
      SentWrites(ifgs, before, tag, index, |ifgs|, j - |old(store.writes)|);
    }
    forall o | o in ifgs
      ensures o.tags == old(o.tags) + if o.hasTagList then Appended([tag], multiset(ifgs)[o]) else []
    {
      AppendedSingle(tag, multiset(ifgs)[o]);
    }
  }

  /** Two `tag_all` calls in a row, summarised per hit. */
  method TagTwice(ifgs: seq<Hit>, first: string, second: string, index: string, store: TagStore)
    modifies store, ifgs
    ensures |store.writes| == |old(store.writes)| + 2 * |ifgs|
    ensures old(store.writes) <= store.writes
    ensures forall o :: o in ifgs ==> o.tags == old(o.tags) + if o.hasTagList then Appended([first, second], multiset(ifgs)[o]) else []
    ensures forall j :: |old(store.writes)| <= j < |store.writes| ==> store.writes[j].index == index
  {
    TagOnce(ifgs, first, index, store);
    label mid:
    TagOnce(ifgs, second, index, store);
    forall o | o in ifgs
      ensures o.tags == old(o.tags) + if o.hasTagList then Appended([first, second], multiset(ifgs)[o]) else []
    {
      var n := multiset(ifgs)[o];
      AppendedSingle(first, n);
      AppendedSingle(second, n);
      AppendedPair(first, second, n);
    }
  }

  lemma AppendedSingle(t: string, n: nat)
    ensures Appended([t], n) == Repeat(t, n)
  {
    assert Appended([t], n) == Repeat(t, n) + Appended([], n);
  }

  lemma AppendedPair(t1: string, t2: string, n: nat)
    ensures Appended([t1, t2], n) == Repeat(t1, n) + Repeat(t2, n)
  {
    assert [t1, t2][1..] == [t2];
    AppendedSingle(t2, n);
  }
}
