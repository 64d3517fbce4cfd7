/**
 * `main` of generate_greylist_from_job.py: hash the job's scenes, stop if a
 * greylist product with that hash already exists, then apply the
 * retry-count and scene-list guards and hand the first matching
 * interferogram configuration to the greylist builder (which is not part
 * of this model).
 */
module GreylistFromJob {
  import opened Wrappers
  import opened Documents
  import opened Fingerprint
  import opened JobContext

  /** The part of the greylist search answer `check_ifg_status_by_hash` reads. */
  datatype GreylistHits = GreylistHits(total: int, hits: seq<EsObject>)

  /** The greylist search for a given `full_id_hash`. */
  type GreylistSearch = string -> GreylistHits

  /** How `check_ifg_status_by_hash` ends: `sys.exit(code)`, a returned value, or an exception. */
  datatype StatusCheck = Exit(code: int) | Value(b: bool) | Raise(error: Exc)

  /**
   * `check_ifg_status_by_hash`: a positive total exits with status 0 after
   * reading the first hit's `_id` (IndexError when the hit list is empty);
   * otherwise it returns False.
   */
  function CheckStatus(answer: GreylistHits): (r: StatusCheck)
    ensures answer.total > 0 && answer.hits != [] ==> r == Exit(0)
    ensures answer.total > 0 && answer.hits == [] ==> r.Raise? && r.error.IndexError?
    ensures answer.total <= 0 ==> r == Value(false)
  {
    if answer.total > 0 then
      if answer.hits == [] then Raise(IndexError("list index out of range"))
      else
        var foundId := answer.hits[0].id;
        Exit(0)
    else Value(false)
  }

  /** The check never returns True, so the branch that would report a found greylist is dead. */
  lemma CheckStatusNeverTrue(answer: GreylistHits)
    ensures CheckStatus(answer) != Value(true)
  {
  }

  /** `get_ifg_cfg`: no hit raises RuntimeError naming the hash; otherwise the first hit. */
  function GetIfgCfg(hsh: string, results: seq<EsObject>): (r: Result<EsObject, Exc>)
    ensures r.Success? <==> results != []
    ensures r.Success? ==> r.value == results[0]
    ensures r.Failure? ==> r.error == RuntimeError("Failed to get ifg_cfg with full_id_hash : " + hsh)
  {
    if |results| < 1 then Failure(RuntimeError("Failed to get ifg_cfg with full_id_hash : " + hsh))
    else Success(results[0])
  }

  /** The run of `main`, in the order the source evaluates it. */
  function Run(h: Hashers, ctx: Ctx, greylist: GreylistSearch, search: CfgSearch): Outcome {
    var required := RequiredRetry(ctx);
    match CurrentRetry(ctx)
    case Failure(e) => Crashed(e)
    case Success(current) =>
      match DirectHash(h, ctx.masterSlcs, ctx.slaveSlcs)
      case Failure(e) => Crashed(e)
      case Success(hsh) =>
        match CheckStatus(greylist(hsh))
        case Exit(code) => Exited(code)
        case Raise(e) => Crashed(e)
        case Value(found) =>
          if found then Exited(0)
          else if current < required then Returned
          else if ctx.masterSlcs.None? || ctx.slaveSlcs.None? then Returned
          else
            match GetIfgCfg(hsh, search(hsh))
            case Failure(e) => Crashed(e)
            case Success(cfg) => Handoff(cfg)
  }

  /** `main`, hashing with the accumulating loops of `gen_direct_hash`. */
  method RunMain(h: Hashers, ctx: Ctx, greylist: GreylistSearch, search: CfgSearch) returns (r: Outcome)
    ensures r == Run(h, ctx, greylist, search)
  {
    var required := RequiredRetry(ctx);
    var current := CurrentRetry(ctx);
    if current.Failure? {
      return Crashed(current.error);
    }
    var hsh := GenDirectHash(h, ctx.masterSlcs, ctx.slaveSlcs);
    if hsh.Failure? {
      return Crashed(hsh.error);
    }
    var status := CheckStatus(greylist(hsh.value));
    if status.Exit? {
      return Exited(status.code);
    }
    if status.Raise? {
      return Crashed(status.error);
    }
    if status.b {
      return Exited(0);
    }
    if current.value < required {
      return Returned;
    }
    if ctx.masterSlcs.None? || ctx.slaveSlcs.None? {
      return Returned;
    }
    var cfg := GetIfgCfg(hsh.value, search(hsh.value));
    if cfg.Failure? {
      return Crashed(cfg.error);
    }
    r := Handoff(cfg.value);
  }

  /**
   * The duplicate check runs before the retry gate: once a greylist with
   * the hash exists, the run exits with status 0 whatever the retry
   * counts.
   */
  lemma DuplicateBeforeRetryGate(h: Hashers, ctx: Ctx, greylist: GreylistSearch, search: CfgSearch)
    requires CurrentRetry(ctx).Success? && DirectHash(h, ctx.masterSlcs, ctx.slaveSlcs).Success?
    requires var answer := greylist(DirectHash(h, ctx.masterSlcs, ctx.slaveSlcs).value);
             answer.total > 0 && answer.hits != []
    ensures Run(h, ctx, greylist, search) == Exited(0)
  {
  }

  /**
   * Hashing comes before the scene-list guard: a missing scene list makes
   * the run fail with TypeError, never return through that guard.
   */
  lemma HashBeforeSceneGuard(h: Hashers, ctx: Ctx, greylist: GreylistSearch, search: CfgSearch)
    requires CurrentRetry(ctx).Success?
    requires ctx.masterSlcs.None? || ctx.slaveSlcs.None?
    ensures Run(h, ctx, greylist, search).Crashed? && Run(h, ctx, greylist, search).error.TypeError?
  {
  }

  /**
   * The run returns early exactly when the retry count is below the
   * required one, with the hash computed and no greylist found: the
   * scene-list guard never fires.
   */
  lemma ReturnedOnlyByRetryGate(h: Hashers, ctx: Ctx, greylist: GreylistSearch, search: CfgSearch)
    ensures Run(h, ctx, greylist, search) == Returned <==>
            && CurrentRetry(ctx).Success?
            && DirectHash(h, ctx.masterSlcs, ctx.slaveSlcs).Success?
            && greylist(DirectHash(h, ctx.masterSlcs, ctx.slaveSlcs).value).total <= 0
            && CurrentRetry(ctx).value < RequiredRetry(ctx)
  {
    if DirectHash(h, ctx.masterSlcs, ctx.slaveSlcs).Success? {
      CheckStatusNeverTrue(greylist(DirectHash(h, ctx.masterSlcs, ctx.slaveSlcs).value));
    }
  }

  /**
   * Past every guard, an empty configuration search raises RuntimeError
   * naming the hash, and otherwise the first hit is handed over.
   */
  lemma HandoffFirstConfiguration(h: Hashers, ctx: Ctx, greylist: GreylistSearch, search: CfgSearch)
    requires CurrentRetry(ctx).Success? && CurrentRetry(ctx).value >= RequiredRetry(ctx)
    requires DirectHash(h, ctx.masterSlcs, ctx.slaveSlcs).Success?
    requires greylist(DirectHash(h, ctx.masterSlcs, ctx.slaveSlcs).value).total <= 0
    ensures var hsh := DirectHash(h, ctx.masterSlcs, ctx.slaveSlcs).value;
            && (search(hsh) == [] ==>
                  Run(h, ctx, greylist, search) == Crashed(RuntimeError("Failed to get ifg_cfg with full_id_hash : " + hsh)))
            && (search(hsh) != [] ==> Run(h, ctx, greylist, search) == Handoff(search(hsh)[0]))
  {
  }
}
