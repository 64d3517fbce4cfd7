# Standard-product validator: blacklist, greylist and tagging logic in Dafny

This project models the decision logic of the standard-product validator,
a set of scripts that run on a science data system. They do four things:

- tag Sentinel-1 interferogram (IFG) products as `<aoi>_invalid` or
  `<aoi>_validated` for an area of interest (AOI);
- turn interferogram configurations (`ifg-cfg`) whose products never appeared,
  and whose jobs failed, into `S1-GUNW-BLACKLIST` products;
- build a blacklist product, or hand a configuration to the greylist builder,
  from a single failed job;
- submit one acquisition-enumeration job per AOI that a blacklist product
  covers.

All of this rests on scene-list fingerprints. Two products describe the same
interferogram when their master and slave scene lists hash alike. The model
has three fingerprints:

- the pickle key (`Fingerprint.PickleKey`, and `Fingerprint.BlacklistKey` with
  its `master_ids` fallback);
- the enumerator hash (`Fingerprint.DirectHash`, `Fingerprint.EnumeratorKey`);
- a cached `full_id_hash` (`Fingerprint.GetHash`).

They feed a fingerprint-indexed dictionary (`HashIndex`), whose iteration
order is taken to be insertion order.

Search results and the job context are parameters. MD5, `pickle.dumps` and
`json.dumps(...).encode("utf8")` are arbitrary functions inside a `Hashers`
value, so every property holds for every choice of them. Nothing assumes a
hash is collision-free. Date parsing and formatting is an arbitrary
`DateFormatter`. The random placeholder in `is_in` is an arbitrary predicate.

Python exceptions become `Result` failures (`Documents.Exc`). The way a job
script ends is a `JobContext.Outcome`: returned, `sys.exit`, built, handed off
or crashed. A `sorted(...)` call is an insertion sort (`Sorting.Sort`) under an
order proved total. Stateful parts are classes:

- the tag store of `add_tags` (`Tagger.TagStore`);
- search hits whose tag lists `tag_all` appends to in place (`Tagger.Hit`);
- the product sink of `build` (`GenerateBlacklist.ProductSink`);
- the job queue of `submit_enum_job` (`SubmitEnumeration.JobSubmitter`).

The source's loops are methods proved equal to a specification function:

| loop | method |
|---|---|
| `build_hashed_dict` | `HashIndex.BuildHashedDict` |
| `return_matching` | `HashIndex.ReturnMatching` |
| `determine_missing_ifgs` | `HashIndex.DetermineMissing` |
| `determine_failed` | `HashIndex.DetermineFailed` |
| the id-accumulating loops of `gen_direct_hash` | `Fingerprint.AccumulateIds`, `Fingerprint.GenDirectHash` |
| `tag_all` | `Tagger.TagAll` |
| `get_aois` | `SubmitEnumeration.GetAois` |
| `get_track` | `SubmitEnumeration.GetTrack` |
| the `main` loops | `GenerateBlacklist.PublishAll`, `SubmitEnumeration.SubmitPerAoi` |

The properties are proved about those functions.

The model follows the code where it departs from what the comments describe:

- **Tagger's blacklist test is inverted.** tagger.py tags every interferogram
  `<aoi>_invalid` when **no** blacklist product matches the acquisition list.
  The test is `if not matching_blacklist`, at tagger.py:43.
- **The validated branch writes a second tag.** The tag `<aoi>_validated` is
  followed, inside the same branch, by the unformatted literal
  `{0}_in-progress` (tagger.py:50-55). The "in-progress" case writes nothing
  (`Tagger.DecideNothing`), and a matching blacklist product always prevents
  the invalid tag (`Tagger.DecideInvalid`).
- **The track fallback uses `is False`.** `build_met` falls back from
  `track_number` to `track` only when `track_number` is absent or is the JSON
  value `false` (build_blacklist_product.py:95-97). Other falsy values such as
  `0` or `""` are kept.
- **The label hash and the metadata hash can differ.** The label of a
  blacklist product always uses the recomputed enumerator hash. Its
  `full_id_hash` metadata uses the cached hash when that is truthy. The two
  agree only without a cache (`BlacklistProduct.LabelHashIsMetHash`,
  `BlacklistProduct.MetKeepsCachedHash`).
- **The greylist script hashes before its guards.** generate_greylist_from_job.py
  computes the hash before its retry and scene-list guards. A missing scene
  list therefore raises TypeError, and the scene-list guard can never return
  (`GreylistFromJob.HashBeforeSceneGuard`). Its "greylist found" branch is dead,
  because `check_ifg_status_by_hash` either exits or returns False
  (`GreylistFromJob.CheckStatusNeverTrue`).

## Model

| member | source | states |
|---|---|---|
| Sorting.SortSorted | tagger.py:170-171 | `sorted` under a total order yields an ordered list |
| Sorting.SortIsCanonical | tagger.py:170-171 | `sorted` gives the same list for any two orderings of the same elements |
| Strings.StrLeIsTotalOrder | generate_blacklist_from_job.py:104 | Python string comparison, as used by `sorted`, is a total order |
| Strings.JoinSplit | generate_blacklist.py:101-102 | joining the pieces of `s.split(',')` with commas gives `s` back |
| Strings.SplitJoin | generate_blacklist.py:101-102 | splitting a comma-joined non-empty list of comma-free ids gives the list back |
| Sequences.DedupFirstAppearanceOrder | submit_enumeration_from_blacklist.py:54-57 | keeping each value once preserves the order of first appearance |
| Fingerprint.SceneLeIsTotalOrder | tagger.py:170-171 | the order `sorted` puts scene entries in (by id, then by the tuple's rest) is total |
| Fingerprint.SortScenesCanonical | tagger.py:170-171 | two scene lists with the same elements sort to the same list |
| Fingerprint.PickleKey | tagger.py:168-172 | tagger's `gen_hash` succeeds exactly when `_source.metadata.master_scenes` and `slave_scenes` exist |
| Fingerprint.PickleKeyOrderIndependent | tagger.py:168-172 | the pickle key ignores the order of each scene list |
| Fingerprint.AreMatch | tagger.py:141-145 | `are_match` raises exactly when a key does, the first object's error first |
| Fingerprint.AreMatchIsKeyEquality | tagger.py:141-145 | `are_match` raises exactly when a key does; otherwise it is key equality, so reflexive, symmetric and transitive |
| Fingerprint.IdsAsScenes | generate_blacklist.py:101-102 | `master_ids.split(',')` as a list of plain scene ids, one per piece |
| Fingerprint.BlacklistKey | generate_blacklist.py:93-103 | generate_blacklist's `gen_hash` succeeds iff `_source.metadata` exists and has both scene lists, or (without `master_scenes`) both id strings; in the id-string case it digests the split ids |
| Fingerprint.BlacklistKeyAgreesWithPickleKey | generate_blacklist.py:93-99 | with `master_scenes` present, generate_blacklist.py's key equals tagger's, errors included |
| Fingerprint.BlacklistKeyIdsMatchScenes | generate_blacklist.py:93-103 | a product described by `master_ids`/`slave_ids` gets the same key as one carrying scene lists with the same ids in any order |
| Fingerprint.IdsStringRoundTrip | generate_blacklist.py:101-102 | a comma-joined id list splits back into the same ids |
| Fingerprint.Ids | generate_blacklist_from_job.py:105-106 | each entry contributes its id; a tuple or list contributes its first element |
| Fingerprint.NonEmpty | generate_blacklist_from_job.py:107-110 | the ids the loop keeps are exactly the non-empty ones |
| Fingerprint.DirectHash | generate_blacklist_from_job.py:100-119 | `gen_direct_hash` raises exactly when a scene list is missing (`False`) |
| Fingerprint.AccumulateIds | generate_blacklist_from_job.py:104-110 | the accumulating loop builds the ids space-joined, with the leading empty ones swallowed |
| Fingerprint.GenDirectHash | generate_blacklist_from_job.py:100-119 | the two loops compute the enumerator hash `DirectHash` |
| Fingerprint.SortedIds | generate_blacklist_from_job.py:104-106 | the ids of the sorted entries are sorted and are a permutation of the entries' ids |
| Fingerprint.CanonicalIsSortedNonEmptyIds | generate_blacklist_from_job.py:104-117 | the accumulated string is the sorted non-empty ids joined by single spaces |
| Fingerprint.CanonicalDependsOnlyOnIds | generate_blacklist_from_job.py:104-117 | scene lists with the same ids, in any order and as strings or tuples, accumulate to the same string |
| Fingerprint.DirectHashDependsOnlyOnIds | generate_blacklist_from_job.py:100-119 | the enumerator hash of present lists exists and depends only on the multiset of ids of each list |
| Fingerprint.Aliased | generate_blacklist_from_job.py:96-97 | `met.get(new, met.get(old, False))`: the primary key wins, and the result is absent only when both are |
| Fingerprint.EnumeratorKey | generate_blacklist_from_job.py:93-98 | `gen_hash` fails exactly when neither name of a scene list is present |
| Fingerprint.EnumeratorKeyAliasing | generate_blacklist_from_job.py:95-97 | `reference_scenes`/`secondary_scenes` hash like the same lists under `master_scenes`/`slave_scenes` |
| Fingerprint.EnumeratorKeyPrefersOldNames | generate_blacklist_from_job.py:96-97 | with `master_scenes` and `slave_scenes` present, the aliases are ignored |
| Fingerprint.CachedHash | generate_blacklist_from_job.py:88-89 | a cached `full_id_hash` is used exactly when it is present and truthy (non-empty), and then it is the value used |
| Fingerprint.GetHash | generate_blacklist_from_job.py:85-91 | `get_hash` returns a truthy cached hash, else recomputes |
| Fingerprint.CachedHashIgnoresScenes | generate_blacklist_from_job.py:85-91 | documents with the same truthy cache get the same hash, even with scene lists missing |
| HashIndex.Put | generate_blacklist.py:90 | `dict.update` keeps a dict well formed and maps the key to the new value |
| HashIndex.Keys | generate_blacklist.py:89-90 | when hashing succeeds there is one fingerprint per document, in order |
| HashIndex.KeysFailure | generate_blacklist.py:89-90 | hashing a list fails exactly when some document's hash raises, with the first such error |
| HashIndex.HashedDictSpec | generate_blacklist.py:83-91 | `build_hashed_dict` fails as hashing does; otherwise its keys are the fingerprints, each once, in first-appearance order |
| HashIndex.BuildHashedDict | generate_blacklist.py:83-91 | the loop computes `HashedDict` |
| HashIndex.PrefixFailure | generate_blacklist.py:89-90 | an exception part-way through ends the whole build with that exception |
| HashIndex.HashedDictLastWins | generate_blacklist.py:83-91 | the document stored under a fingerprint is the last one in the list with it |
| HashIndex.HashedDictEntry | generate_blacklist.py:83-91 | every stored document comes from the list and has the fingerprint it is stored under |
| HashIndex.MatchingFailure | tagger.py:147-151 | `return_matching` raises exactly when hashing a list does, with list1's error first |
| HashIndex.ReturnMatching | tagger.py:147-156 | the loop computes `Matching` |
| HashIndex.CollectShared | tagger.py:152-155 | the loop collects, for each key of list1 in order that list2 has, list2's document |
| HashIndex.MatchingSpec | tagger.py:147-156 | the result comes from list2, one document per shared fingerprint, in list1's first-appearance order |
| HashIndex.MatchingKeys | tagger.py:152-155 | the result's fingerprints are the shared keys in list1's dict order |
| HashIndex.MatchingEmptyIff | tagger.py:147-156 | the result is empty iff the two lists share no fingerprint |
| HashIndex.MatchingCoversIff | tagger.py:147-156 | the result is as long as list2 iff list2's fingerprints are distinct and all appear in list1 |
| HashIndex.DetermineMissing | generate_blacklist.py:71-81 | the loop computes `Missing` |
| HashIndex.MissingSpec | generate_blacklist.py:71-81 | missing = configurations whose fingerprint is in neither the IFG nor the blacklist dict, one each, in configuration order |
| HashIndex.UnclaimedMonotone | generate_blacklist.py:78-80 | growing the IFG or blacklist index only removes configurations from the missing list |
| HashIndex.DetermineFailed | generate_blacklist.py:53-57 | the loop computes `Failed` |
| HashIndex.IsIn | generate_blacklist.py:59-69 | `is_in` never accepts against an empty failed-job list |
| HashIndex.FailedSpec | generate_blacklist.py:42-69 | exactly the missing configurations `is_in` accepts, in order; none when the failed-job list is empty |
| GenerateBlacklist.SelectedSpec | generate_blacklist.py:30-37 | each configuration handed to `build` is a configuration whose key is in neither the IFG nor the blacklist keys; none without failed jobs |
| GenerateBlacklist.BuildAll | generate_blacklist.py:39-40 | products are built in order up to the first `build` that raises, and that exception is reported |
| GenerateBlacklist.PublishAll | generate_blacklist.py:39-40 | the loop publishes exactly `BuildAll`'s products and stops with its exception |
| GenerateBlacklist.GenerateBlacklistMain | generate_blacklist.py:19-40 | an indexing error publishes nothing; otherwise the selected configurations' products are published in order, up to the first failure |
| GenerateBlacklist.ProductSink.Publish | build_blacklist_product.py:24-25 | a built product is appended to what has been published |
| BlacklistProduct.Label | build_blacklist_product.py:38 | a label starts with `S1-GUNW-BLACKLIST-`, ends with `-v1.0`, and is four separators longer than its parts |
| BlacklistProduct.ParseLabel | build_blacklist_product.py:38 | a parsed label yields two eight-character dates |
| BlacklistProduct.LabelRoundTrip | build_blacklist_product.py:38 | `S1-GUNW-BLACKLIST-<master>_<slave>-<hash>-v1.0` with eight-character dates parses back to its parts |
| BlacklistProduct.ParseLabelInverse | build_blacklist_product.py:38 | every string that parses is the label of its parts |
| BlacklistProduct.LabelInjective | build_blacklist_product.py:38 | distinct (dates, hash) triples give distinct labels |
| BlacklistProduct.FormattedDate | build_blacklist_product.py:73-79 | a date is produced exactly when the field is present and parses, and it is the formatted value |
| BlacklistProduct.BuildId | build_blacklist_product.py:32-39 | a hash failure comes first; a label needs the hash and both `_source` dates |
| BlacklistProduct.BuildIdParts | build_blacklist_product.py:32-39 | the label carries the date of `endtime`, the date of `starttime` and the enumerator hash, in that order |
| BlacklistProduct.BuildIdSceneOrder | build_blacklist_product.py:32-39 | configurations with the same dates whose scene lists hash alike get the same label |
| BlacklistProduct.BuildDataset | build_blacklist_product.py:81-88 | the dataset exists iff the label and `starttime`/`endtime`/`union_geojson` do, and holds exactly those and version v1.0 |
| BlacklistProduct.BuildDatasetErrors | build_blacklist_product.py:81-88 | after the label, the only errors are KeyErrors for those three fields |
| BlacklistProduct.EnumeratorKeyNeedsMetadata | build_blacklist_product.py:49-53 | a hash can only be computed from a document that has `_source.metadata` |
| BlacklistProduct.Track | build_blacklist_product.py:95-97 | `track_number`, falling back to `track` only when it `is False`; the result is `False` iff both are |
| BlacklistProduct.BuildMet | build_blacklist_product.py:90-104 | the metadata record exists iff `_source.metadata` and the hash do; its fields are the aliased scene lists, orbit files, track and `get_hash` |
| BlacklistProduct.Build | build_blacklist_product.py:20-23 | `build` succeeds iff both records do, holds exactly those records, and a dataset error is raised first |
| BlacklistProduct.BuildFailsOnlyInDataset | build_blacklist_product.py:20-23 | `build` fails exactly when `build_dataset` does, with its error |
| BlacklistProduct.LabelHashIsMetHash | build_blacklist_product.py:32-47 | without a truthy cache, the label's hash is the metadata's `full_id_hash` |
| BlacklistProduct.MetKeepsCachedHash | build_blacklist_product.py:41-47 | with a truthy cache, the metadata keeps it while the label uses the recomputed hash |
| JobContext.CurrentRetry | generate_blacklist_from_job.py:24-26 | the retry count defaults to 0; a number is taken as is; a list contributes its head; an empty list raises |
| BlacklistFromJob.FirstCfg | generate_blacklist_from_job.py:44-52 | the first search hit, and IndexError exactly when there is none |
| BlacklistFromJob.RunMain | generate_blacklist_from_job.py:16-42 | `main` ends as `Run` says: guards, then the hash lookup, then `build` |
| BlacklistFromJob.RetryGate | generate_blacklist_from_job.py:30-32 | a retry count below the required one returns before any query |
| BlacklistFromJob.RetryCountListHead | generate_blacklist_from_job.py:24-26 | a list-valued retry count behaves as its first element |
| BlacklistFromJob.QueryNeedsGates | generate_blacklist_from_job.py:29-42 | a product is built only past both guards, from the first hit for the enumerator hash; a missing scene list returns |
| BlacklistFromJob.FirstHitOnly | generate_blacklist_from_job.py:51-52 | searches that agree on the first hit give the same run |
| GreylistFromJob.CheckStatus | generate_greylist_from_job.py:59-70 | a positive total exits 0 (IndexError without hits); otherwise it returns False |
| GreylistFromJob.CheckStatusNeverTrue | generate_greylist_from_job.py:59-70 | the check never returns True |
| GreylistFromJob.GetIfgCfg | generate_greylist_from_job.py:106-116 | the first hit, or RuntimeError naming the hash exactly when there is none |
| GreylistFromJob.RunMain | generate_greylist_from_job.py:72-104 | `main` ends as `Run` says: hash, duplicate check, guards, hand-off |
| GreylistFromJob.DuplicateBeforeRetryGate | generate_greylist_from_job.py:85-94 | an existing greylist product exits 0 whatever the retry counts |
| GreylistFromJob.HashBeforeSceneGuard | generate_greylist_from_job.py:85-98 | a missing scene list crashes with TypeError instead of returning |
| GreylistFromJob.ReturnedOnlyByRetryGate | generate_greylist_from_job.py:85-98 | the run returns early iff the hash succeeds, no greylist exists and the retry count is too low |
| GreylistFromJob.HandoffFirstConfiguration | generate_greylist_from_job.py:99-116 | past the guards, the first configuration for the hash is handed over, or RuntimeError when none |
| Tagger.IndexFor | tagger.py:88-92 | a given index wins; otherwise the fixed index for the object type, `None` for an unknown type |
| Tagger.Decide | tagger.py:42-55 | the tags of one AOI are `[<aoi>_invalid]`, `[<aoi>_validated, {0}_in-progress]` or none, and a blacklist hashing error is raised |
| Tagger.DecideInvalid | tagger.py:42-46 | every IFG is tagged `<aoi>_invalid` iff no blacklist fingerprint is an acquisition-list fingerprint |
| Tagger.DecideEmptyAcqList | tagger.py:42-46 | an empty acquisition list always yields the invalid tag |
| Tagger.DecideValidated | tagger.py:42-55 | tags are `<aoi>_validated` then `{0}_in-progress` iff some blacklist fingerprint is an acquisition-list fingerprint, those are distinct, and each has an IFG |
| Tagger.DecideNothing | tagger.py:47-55 | no tag is written iff some blacklist fingerprint is an acquisition-list fingerprint but the acquisition fingerprints are not distinct or not all among the IFG fingerprints |
| Tagger.DuplicateAcqNeverValidated | tagger.py:48 | duplicate acquisition-list fingerprints make the validated branch unreachable |
| Tagger.TagStore.AddTags | tagger.py:182-189 | each update request is recorded with its index, id and full tag list |
| Tagger.TagOne | tagger.py:177-179 | a hit with a tag list has `tag` appended in place and sends that list; one without sends `[tag]` |
| Tagger.TagAll | tagger.py:174-180 | one write per hit in order, each with the hit's list plus `tag`; every hit's list grows by `tag` once per occurrence |
| Tagger.SentWrites | tagger.py:176-179 | the j-th write goes to the j-th hit, in the given index, and its list ends with `tag` |
| Tagger.TagOnce | tagger.py:45-46 | `tag_all` with one tag: one write per IFG, all to the given index, earlier writes kept, each tag list extended |
| Tagger.TagTwice | tagger.py:50-55 | two `tag_all` calls: two writes per IFG, all to the given index, each list extended by the first tag then the second |
| Tagger.TagAoi | tagger.py:42-55 | the tags applied are `Decide`'s; an exception writes nothing; otherwise one write per tag per IFG, each to the index `IndexFor` gives the IFGs' own `ifg_index`, and each IFG's list gains the tags |
| SubmitEnumeration.AoiValues | submit_enumeration_from_blacklist.py:54-55 | each audit trail's `aoi`, `False` when absent |
| SubmitEnumeration.GetAois | submit_enumeration_from_blacklist.py:46-58 | the loop computes `Aois` |
| SubmitEnumeration.AoisSpec | submit_enumeration_from_blacklist.py:46-58 | the AOIs are distinct, are exactly the truthy `aoi` values, and come in first-appearance order |
| SubmitEnumeration.FirstTrack | submit_enumeration_from_blacklist.py:67-70 | the first audit trail with a truthy `track_number`, or none |
| SubmitEnumeration.GetTrack | submit_enumeration_from_blacklist.py:60-71 | returns the first truthy track, and raises the "no audit trail" exception when there is none |
| SubmitEnumeration.GetPoeorb | submit_enumeration_from_blacklist.py:73-82 | the first orbit product, and raises exactly when there is none |
| SubmitEnumeration.JoinCheck | submit_enumeration_from_blacklist.py:36 | `', '.join(aois)` raises iff some AOI is not a string |
| SubmitEnumeration.Jobs | submit_enumeration_from_blacklist.py:42-44 | one job per AOI, in order |
| SubmitEnumeration.SubmitPerAoi | submit_enumeration_from_blacklist.py:42-44 | the loop submits exactly `Jobs` |
| SubmitEnumeration.JobSubmitter.SubmitEnumJob | submit_enumeration_from_blacklist.py:44 | each submission is appended to the queue |
| SubmitEnumeration.Planned | submit_enumeration_from_blacklist.py:18-44 | a product type other than S1-GUNW-BLACKLIST, no truthy track or no orbit product raises; otherwise one job per AOI |
| SubmitEnumeration.SubmitEnumerationMain | submit_enumeration_from_blacklist.py:18-44 | an exception submits nothing; otherwise the planned jobs are submitted in order |
| SubmitEnumeration.ProdTypeGate | submit_enumeration_from_blacklist.py:32-33 | a product type other than S1-GUNW-BLACKLIST raises before any search |
| SubmitEnumeration.PlannedJobs | submit_enumeration_from_blacklist.py:18-44 | one job per AOI, on the first truthy track and the first orbit product, with deduplication off and the context values or defaults 0 and 2 |
| SubmitEnumeration.OneJobPerAoi | submit_enumeration_from_blacklist.py:42-44 | no AOI gets two jobs, and every truthy AOI gets one |

## Left out

- **Elasticsearch queries.** `query_es`, `get_ifgs`, `get_ifg_configs`,
  `get_blacklist`, `get_objects`' query, tagger's `get_aois` and
  `get_dataset_by_hash` are left out. These are HTTP I/O; their answers are
  parameters of the model.
- **Paging defect in generate_blacklist.py's `query_es`.** Its paging loop
  (generate_blacklist.py:151-154) appends the first page again instead of the
  new response. This is I/O and is not modelled.
- **Context loading.** `load_context` reads `_context.json` and is file I/O.
  The context values are parameters. `int(...)` on `required_retry_count` is
  taken as already applied.
- **Tagger's outer `main`.** Tagger's AOI loop and its context parsing
  (tagger.py:15-28) are left out. The model covers one AOI (`Tagger.TagAoi`);
  its inputs are the three searches.
- **Outbound effects.** The HTTP request inside `add_tags`,
  `build_product_dir`, `submit_product` / `ingest`, the body of
  `submit_enum_job`, `build_greylist_product.build` and all `print` calls are
  left out. They are I/O, or code that is not part of this model. Their calls
  are recorded by `TagStore`, `ProductSink`, `JobSubmitter` and
  `Outcome.Handoff`.
- **`dateutil` and `strftime`.** These are an arbitrary `DateFormatter`. The
  model does not claim that formatted dates have eight characters; the lemmas
  that need it take it as a precondition.
- **`hashlib.md5`, `pickle.dumps` and `json.dumps`.** These are arbitrary
  functions. No collision-freedom is claimed.
- **Dict iteration order.** Python dict iteration order is taken to be
  insertion order, which holds on Python 3.7 and later. On Python 2 the order
  of what `return_matching` and `determine_missing_ifgs` return is arbitrary.
  The model's statements about that order do not cover Python 2; its
  statements about membership and counts do.
- **Repeated audit-trail queries.** `get_aois` and `get_track` send the same
  audit-trail query twice. The model answers both from one search result.
- **Sorting mixed entries.** Python 3 cannot `sorted` a list that mixes plain
  strings with tuples or lists. The model orders every plain id before a tuple
  with the same id.
- **Non-string AOI and track values.** Comparisons and `join` on these are
  modelled only as far as `JoinCheck` states.
- **JSON `null` scene lists.** A JSON `null` scene list is treated like an
  absent one.
- Fingerprint.PickleKey: pickles the sorted scene list as a value. It does not
  model the pickle protocol or the exact KeyError text.
- SubmitEnumeration.JoinCheck: the TypeError message is approximate. Python's
  message names the offending index and type.
- SubmitEnumeration.EnumCtx: a `prod_type` that is present but not a string
  is not modelled. Such a value can only fail the allow-list test, like the
  absent case.
- SubmitEnumeration.SubmitEnumerationMain: `submit_enum_job` is recorded as
  one queued job per call and cannot fail here. The source's body can raise
  before it submits anything. `poeorb.get('_source').get('metadata')` fails
  when the orbit product has no `_source` or no `metadata`. `.get('urls')[1]`
  fails when it has fewer than two URLs (submit_enumeration_from_blacklist.py:132-133).
  In those cases the source stops at that AOI with an exception, and "the
  planned jobs are submitted in order" does not hold.
- Tagger.TagAoi: states the writes by count, by index and by "earlier writes
  are kept".
  It does not state each write's payload; `Tagger.TagAll` and
  `Tagger.SentWrites` state those per write.
- Tagger.TagOnce: the same per-write summary as `Tagger.TagAoi`.
- Tagger.TagTwice: the same per-write summary as `Tagger.TagAoi`.
- Tagger.Hit: two distinct hits that share one Python tag list (aliasing) are
  not modelled.
- GreylistFromJob.CheckStatus: only `hits.total` and the presence of a first
  hit are read from the greylist search answer.
