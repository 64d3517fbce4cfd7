/**
 * submit_enumeration_from_blacklist.py: for a blacklist product, submit one
 * acquisition-enumeration job per area of interest its audit trails cover,
 * all on the track of the first audit trail that names one and the first
 * precise-orbit product found for its orbit file.
 *
 * The two searches are inputs: `audits` answers the audit-trail query for a
 * `full_id_hash`, `poeorbs` the orbit query for an orbit file name.
 * `get_aois` and `get_track` each send the same audit-trail query; the
 * model gives both the one answer `audits(full_id_hash)`, so it does not
 * capture the index changing between the two requests.
 */
module SubmitEnumeration {
  import opened Wrappers
  import opened Sequences
  import opened Documents

  const AllowedProdTypes: seq<string> := ["S1-GUNW-BLACKLIST"]

  const DefaultSkipDays := Int(0)
  const DefaultMinMatch := Int(2)
  const DefaultQueue := Str("standard_product-s1gunw-acq_enumerator")
  const DefaultVersion := Str("master")

  /**
   * The context keys `main` reads. `prod_type` is a string when present;
   * an absent one is `False`.
   */
  datatype EnumCtx = EnumCtx(
    prodType: Option<string>,
    masterOrbitFile: Option<Value>,
    fullIdHash: Option<Value>,
    skipDays: Option<Value>,
    minMatch: Option<Value>,
    enumeratorQueue: Option<Value>,
    enumerationJobVersion: Option<Value>,
    acquisitionVersion: Option<Value>)

  /** One `submit_enum_job(...)` call, with its arguments in order. */
  datatype EnumJob = EnumJob(
    poeorb: EsObject,
    aoi: Value,
    track: Value,
    queue: Value,
    version: Value,
    minMatch: Value,
    acquisitionVersion: Value,
    skipDays: Value,
    enableDedup: bool)

  /** The job queue, seen through the jobs submitted to it. */
  class JobSubmitter {
    var submitted: seq<EnumJob>

    constructor ()
      ensures submitted == []
    {
      submitted := [];
    }

    method SubmitEnumJob(job: EnumJob)
      modifies this
      ensures submitted == old(submitted) + [job]
    {
      submitted := submitted + [job];
    }
  }

  type AuditSearch = Value -> seq<EsObject>
  type PoeorbSearch = Value -> seq<EsObject>

  // ---------------------------------------------------------------------------
  // get_aois

  /** Each audit trail's `aoi`, `False` when absent. */
  function AoiValues(audits: seq<EsObject>): (r: seq<Value>)
    ensures |r| == |audits| && forall i :: 0 <= i < |audits| ==> r[i] == GetOrFalse(MetadataOrEmpty(audits[i]).aoi)
  {
    seq(|audits|, i requires 0 <= i < |audits| => GetOrFalse(MetadataOrEmpty(audits[i]).aoi))
  }

  /** The truthy AOIs of the audit trails, each once, in order of first appearance. */
  function Aois(audits: seq<EsObject>): seq<Value> {
    Dedup(Filter(AoiValues(audits), v => Truthy(v)))
  }

  /** `get_aois`' loop over the audit trails. */
  method GetAois(audits: seq<EsObject>) returns (aois: seq<Value>)
    ensures aois == Aois(audits)
  {
    aois := [];
    var i := 0;
    while i < |audits|
      invariant 0 <= i <= |audits|
      invariant aois == Aois(audits[..i])
    {
      var aoi := GetOrFalse(MetadataOrEmpty(audits[i]).aoi);
      assert AoiValues(audits[..i + 1]) == AoiValues(audits[..i]) + [aoi];
      if Truthy(aoi) && aoi !in aois {
        aois := aois + [aoi];
      }
      i := i + 1;
    }
    assert audits[..i] == audits;
  }

  /**
   * No AOI twice; every truthy `aoi` of an audit trail is there and nothing
   * else is; and the AOIs come in the order they first appear.
   */
  lemma AoisSpec(audits: seq<EsObject>)
    ensures Distinct(Aois(audits))
    ensures forall v :: v in Aois(audits) <==> Truthy(v) && v in AoiValues(audits)
    ensures forall i, j :: 0 <= i < j < |Aois(audits)| ==>
              FirstIndex(Filter(AoiValues(audits), v => Truthy(v)), Aois(audits)[i]) <
              FirstIndex(Filter(AoiValues(audits), v => Truthy(v)), Aois(audits)[j])
  {
    var f := Filter(AoiValues(audits), v => Truthy(v));
    DedupFirstAppearanceOrder(f);
    forall v | Truthy(v) && v in AoiValues(audits) ensures v in Aois(audits) {
      var i :| 0 <= i < |AoiValues(audits)| && AoiValues(audits)[i] == v;
      assert v in f;
      var j :| 0 <= j < |f| && f[j] == v;
    }
    forall v | v in Aois(audits) ensures Truthy(v) && v in AoiValues(audits) {
      var i :| 0 <= i < |Aois(audits)| && Aois(audits)[i] == v;
      var j :| 0 <= j < |f| && f[j] == v;
    }
  }

  // ---------------------------------------------------------------------------
  // get_track and get_poeorb

  /** Each audit trail's `track_number`, `False` when absent. */
  function TrackOf(audit: EsObject): Value {
    GetOrFalse(MetadataOrEmpty(audit).trackNumber)
  }

  /** The first truthy `track_number` in audit order, if any. */
  function FirstTrack(audits: seq<EsObject>): (r: Option<nat>)
    ensures r.Some? ==> r.value < |audits| && Truthy(TrackOf(audits[r.value]))
    ensures r.Some? ==> forall j :: 0 <= j < r.value ==> !Truthy(TrackOf(audits[j]))
    ensures r.None? ==> forall j :: 0 <= j < |audits| ==> !Truthy(TrackOf(audits[j]))
  {
    if audits == [] then None
    else if Truthy(TrackOf(audits[0])) then Some(0)
    else
      match FirstTrack(audits[1..])
      case None => None
      case Some(i) => Some(i + 1)
  }

  const NoTrackMessage := "no audit trail product found. Unable to determine appropriate track."

  /** `get_track`'s loop: return the first truthy track, raise when there is none. */
  method GetTrack(audits: seq<EsObject>) returns (r: Result<Value, Exc>)
    ensures FirstTrack(audits).Some? ==> r == Success(TrackOf(audits[FirstTrack(audits).value]))
    ensures FirstTrack(audits).None? ==> r == Failure(Raised(NoTrackMessage))
  {
    var i := 0;
    while i < |audits|
      invariant 0 <= i <= |audits|
      invariant forall j :: 0 <= j < i ==> !Truthy(TrackOf(audits[j]))
    {
      var track := TrackOf(audits[i]);
      if Truthy(track) {
        return Success(track);
      }
      i := i + 1;
    }
    r := Failure(Raised(NoTrackMessage));
  }

  const NoPoeorbMessage := "no audit poeorbn product found. Unable to submit enumeration job."

  /** `get_poeorb`: the first orbit product found; none raises. */
  function GetPoeorb(poeorbs: seq<EsObject>): (r: Result<EsObject, Exc>)
    ensures r.Failure? <==> poeorbs == []
    ensures r.Success? ==> r.value == poeorbs[0]
    ensures r.Failure? ==> r.error == Raised(NoPoeorbMessage)
  {
    if poeorbs == [] then Failure(Raised(NoPoeorbMessage)) else Success(poeorbs[0])
  }

  // ---------------------------------------------------------------------------
  // main

  /** `ctx.get('prod_type', False)` as the error message prints it. */
  function ProdTypeText(prodType: Option<string>): string {
    match prodType
    case Some(s) => s
    case None => "False"
  }

  /** `', '.join(aois)` in the progress message raises unless every AOI is a string. */
  function JoinCheck(aois: seq<Value>): (r: Option<Exc>)
    ensures r.None? <==> forall i :: 0 <= i < |aois| ==> aois[i].Str?
  {
    if forall i :: 0 <= i < |aois| ==> aois[i].Str? then None
    else Some(TypeError("sequence item: expected str instance"))
  }

  /** The job `main` submits for one AOI. */
  function JobFor(ctx: EnumCtx, poeorb: EsObject, aoi: Value, track: Value): EnumJob {
    EnumJob(poeorb, aoi, track,
            ctx.enumeratorQueue.GetOr(DefaultQueue),
            ctx.enumerationJobVersion.GetOr(DefaultVersion),
            ctx.minMatch.GetOr(DefaultMinMatch),
            ctx.acquisitionVersion.GetOr(Null),
            ctx.skipDays.GetOr(DefaultSkipDays),
            false)
  }

  /**
   * The jobs `main` submits, in order, or the exception that stops it
   * before the first submission.
   */
  function Planned(ctx: EnumCtx, audits: AuditSearch, poeorbs: PoeorbSearch): (r: Result<seq<EnumJob>, Exc>)
    ensures ctx.prodType != Some("S1-GUNW-BLACKLIST") ==> r.Failure? && r.error.Raised?
    ensures FirstTrack(audits(GetOrFalse(ctx.fullIdHash))).None? ==> r.Failure?
    ensures poeorbs(GetOrFalse(ctx.masterOrbitFile)) == [] ==> r.Failure?
    ensures r.Success? ==> |r.value| == |Aois(audits(GetOrFalse(ctx.fullIdHash)))|
  {
    if ctx.prodType.None? || ctx.prodType.value !in AllowedProdTypes then
      Failure(Raised("Product type of " + ProdTypeText(ctx.prodType) + " not allowed as input."))
    else
      var fullIdHash := GetOrFalse(ctx.fullIdHash);
      var aois := Aois(audits(fullIdHash));
      match JoinCheck(aois)
      case Some(e) => Failure(e)
      case None =>
        match FirstTrack(audits(fullIdHash))
        case None => Failure(Raised(NoTrackMessage))
        case Some(t) =>
          var track := TrackOf(audits(fullIdHash)[t]);
          var poeorb :- GetPoeorb(poeorbs(GetOrFalse(ctx.masterOrbitFile)));
          Success(Jobs(ctx, poeorb, aois, track))
  }

  /** `main`: submit the planned jobs one by one; an exception submits nothing. */
  method SubmitEnumerationMain(ctx: EnumCtx, audits: AuditSearch, poeorbs: PoeorbSearch, submitter: JobSubmitter)
    returns (raised: Option<Exc>)
    modifies submitter
    ensures Planned(ctx, audits, poeorbs).Failure? ==>
              raised == Some(Planned(ctx, audits, poeorbs).error) && submitter.submitted == old(submitter.submitted)
    ensures Planned(ctx, audits, poeorbs).Success? ==>
              raised.None? && submitter.submitted == old(submitter.submitted) + Planned(ctx, audits, poeorbs).value
  {
    var prodType := ctx.prodType;
    var poeorbId := GetOrFalse(ctx.masterOrbitFile);
    var fullIdHash := GetOrFalse(ctx.fullIdHash);
    if prodType.None? || prodType.value !in AllowedProdTypes {
      return Some(Raised("Product type of " + ProdTypeText(prodType) + " not allowed as input."));
    }
    var aois := GetAois(audits(fullIdHash));
    var joined := JoinCheck(aois);
    if joined.Some? {
      return joined;
    }
    var track := GetTrack(audits(fullIdHash));
    if track.Failure? {
      return Some(track.error);
    }
    var poeorb := GetPoeorb(poeorbs(poeorbId));
    if poeorb.Failure? {
      return Some(poeorb.error);
    }
    assert Planned(ctx, audits, poeorbs) == Success(Jobs(ctx, poeorb.value, aois, track.value));
    SubmitPerAoi(ctx, poeorb.value, aois, track.value, submitter);
    raised := None;
  }

  /** One job per AOI, in order. */
  function Jobs(ctx: EnumCtx, poeorb: EsObject, aois: seq<Value>, track: Value): (r: seq<EnumJob>)
    ensures |r| == |aois| && forall i :: 0 <= i < |aois| ==> r[i] == JobFor(ctx, poeorb, aois[i], track)
  {
    seq(|aois|, i requires 0 <= i < |aois| => JobFor(ctx, poeorb, aois[i], track))
  }

  /** `main`'s loop over the AOIs. */
  method SubmitPerAoi(ctx: EnumCtx, poeorb: EsObject, aois: seq<Value>, track: Value, submitter: JobSubmitter)
    modifies submitter
    ensures submitter.submitted == old(submitter.submitted) + Jobs(ctx, poeorb, aois, track)
  {
    ghost var jobs := Jobs(ctx, poeorb, aois, track);
    var i := 0;
    while i < |aois|
      invariant 0 <= i <= |aois|
      invariant submitter.submitted == old(submitter.submitted) + jobs[..i]
    {
      assert jobs[..i + 1] == jobs[..i] + [jobs[i]];
      submitter.SubmitEnumJob(JobFor(ctx, poeorb, aois[i], track));
      i := i + 1;
    }
    assert jobs[..i] == jobs;
  }

  /** A product type outside the allow-list raises before either search is consulted. */
  lemma ProdTypeGate(ctx: EnumCtx, a1: AuditSearch, p1: PoeorbSearch, a2: AuditSearch, p2: PoeorbSearch)
    requires ctx.prodType.None? || ctx.prodType.value != "S1-GUNW-BLACKLIST"
    ensures Planned(ctx, a1, p1).Failure? && Planned(ctx, a1, p1) == Planned(ctx, a2, p2)
  {
  }

  /**
   * One job per AOI, in `get_aois` order, each on the first truthy track
   * and the first orbit product, with deduplication off and the context's
   * settings or their defaults.
   */
  lemma PlannedJobs(ctx: EnumCtx, audits: AuditSearch, poeorbs: PoeorbSearch)
    requires Planned(ctx, audits, poeorbs).Success?
    ensures var jobs, found := Planned(ctx, audits, poeorbs).value, audits(GetOrFalse(ctx.fullIdHash));
            && FirstTrack(found).Some?
            && poeorbs(GetOrFalse(ctx.masterOrbitFile)) != []
            && |jobs| == |Aois(found)|
            && forall i :: 0 <= i < |jobs| ==>
                 && jobs[i].aoi == Aois(found)[i]
                 && jobs[i].track == TrackOf(found[FirstTrack(found).value])
                 && jobs[i].poeorb == poeorbs(GetOrFalse(ctx.masterOrbitFile))[0]
                 && !jobs[i].enableDedup
                 && jobs[i].skipDays == ctx.skipDays.GetOr(Int(0))
                 && jobs[i].minMatch == ctx.minMatch.GetOr(Int(2))
  {
  }

  /** Each covered AOI gets exactly one job. */
  lemma OneJobPerAoi(ctx: EnumCtx, audits: AuditSearch, poeorbs: PoeorbSearch)
    requires Planned(ctx, audits, poeorbs).Success?
    ensures var jobs, found := Planned(ctx, audits, poeorbs).value, audits(GetOrFalse(ctx.fullIdHash));
            forall i, j :: 0 <= i < j < |jobs| ==> jobs[i].aoi != jobs[j].aoi
    ensures var jobs, found := Planned(ctx, audits, poeorbs).value, audits(GetOrFalse(ctx.fullIdHash));
            forall v :: Truthy(v) && v in AoiValues(found) ==> exists i :: 0 <= i < |jobs| && jobs[i].aoi == v
  {
    var found := audits(GetOrFalse(ctx.fullIdHash));
    AoisSpec(found);
    var jobs := Planned(ctx, audits, poeorbs).value;
    forall v | Truthy(v) && v in AoiValues(found) ensures exists i :: 0 <= i < |jobs| && jobs[i].aoi == v {
      var i :| 0 <= i < |Aois(found)| && Aois(found)[i] == v;
      assert jobs[i].aoi == v;
    }
  }
}
