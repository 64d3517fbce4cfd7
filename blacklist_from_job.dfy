/**
 * `main` of generate_blacklist_from_job.py: after the retry-count and
 * scene-list guards, look up the interferogram configuration whose
 * `full_id_hash` is the enumerator hash of the job's scenes and build a
 * blacklist product from the first hit.
 */
module BlacklistFromJob {
  import opened Wrappers
  import opened Documents
  import opened Fingerprint
  import opened BlacklistProduct
  import opened JobContext

  /** `get_ifg_cfg`: the first search hit; no hit raises IndexError. */
  function FirstCfg(results: seq<EsObject>): (r: Result<EsObject, Exc>)
    ensures r.Success? <==> results != []
    ensures r.Success? ==> r.value == results[0]
  {
    if results == [] then Failure(IndexError("list index out of range")) else Success(results[0])
  }

  /** The run of `main`, guard by guard. */
  function Run(h: Hashers, fmt: DateFormatter, ctx: Ctx, search: CfgSearch): Outcome {
    var required := RequiredRetry(ctx);
    match CurrentRetry(ctx)
    case Failure(e) => Crashed(e)
    case Success(current) =>
      if current < required then Returned
      else if ctx.masterSlcs.None? || ctx.slaveSlcs.None? then Returned
      else
        match DirectHash(h, ctx.masterSlcs, ctx.slaveSlcs)
        case Failure(e) => Crashed(e)
        case Success(hsh) =>
          match FirstCfg(search(hsh))
          case Failure(e) => Crashed(e)
          case Success(cfg) =>
            match Build(h, fmt, cfg)
            case Failure(e) => Crashed(e)
            case Success(p) => Built(p)
  }

  /** `main`, hashing the job's scenes with the accumulating loops of `gen_direct_hash`. */
  method RunMain(h: Hashers, fmt: DateFormatter, ctx: Ctx, search: CfgSearch) returns (r: Outcome)
    ensures r == Run(h, fmt, ctx, search)
  {
    var required := RequiredRetry(ctx);
    var current := CurrentRetry(ctx);
    if current.Failure? {
      return Crashed(current.error);
    }
    if current.value < required {
      return Returned;
    }
    if ctx.masterSlcs.None? || ctx.slaveSlcs.None? {
      return Returned;
    }
    var hsh := GenDirectHash(h, ctx.masterSlcs, ctx.slaveSlcs);
    var cfg := FirstCfg(search(hsh.value));
    if cfg.Failure? {
      return Crashed(cfg.error);
    }
    var product := Build(h, fmt, cfg.value);
    if product.Failure? {
      return Crashed(product.error);
    }
    r := Built(product.value);
  }

  /**
   * A retry count below the required one ends the run before any query:
   * the outcome is `Returned` whatever the search would answer.
   */
  lemma RetryGate(h: Hashers, fmt: DateFormatter, ctx: Ctx, search: CfgSearch)
    requires CurrentRetry(ctx).Success? && CurrentRetry(ctx).value < RequiredRetry(ctx)
    ensures Run(h, fmt, ctx, search) == Returned
  {
  }

  /** A list-valued retry count is judged by its first element. */
  lemma RetryCountListHead(h: Hashers, fmt: DateFormatter, ctx: Ctx, search: CfgSearch, rest: seq<int>)
    requires ctx.currentRetryCount.Some? && ctx.currentRetryCount.value.Count?
    ensures var listed := ctx.(currentRetryCount := Some(CountList([ctx.currentRetryCount.value.n] + rest)));
            Run(h, fmt, listed, search) == Run(h, fmt, ctx, search)
  {
  }

  /**
   * The run only reaches the search when the retry gate passes and both
   * scene lists are present; it then depends on the search only through
   * the first hit for the enumerator hash of the job's scenes.
   */
  lemma QueryNeedsGates(h: Hashers, fmt: DateFormatter, ctx: Ctx, search: CfgSearch)
    ensures Run(h, fmt, ctx, search).Built? ==>
              && CurrentRetry(ctx).Success? && CurrentRetry(ctx).value >= RequiredRetry(ctx)
              && ctx.masterSlcs.Some? && ctx.slaveSlcs.Some?
              && search(DirectHash(h, ctx.masterSlcs, ctx.slaveSlcs).value) != []
              && Build(h, fmt, search(DirectHash(h, ctx.masterSlcs, ctx.slaveSlcs).value)[0]) ==
                 Success(Run(h, fmt, ctx, search).product)
    ensures (CurrentRetry(ctx).Success? && CurrentRetry(ctx).value >= RequiredRetry(ctx) &&
             (ctx.masterSlcs.None? || ctx.slaveSlcs.None?)) ==>
              Run(h, fmt, ctx, search) == Returned
  {
  }

  /**
   * Only the first hit matters: two searches that agree on it give the
   * same run.
   */
  lemma FirstHitOnly(h: Hashers, fmt: DateFormatter, ctx: Ctx, s1: CfgSearch, s2: CfgSearch)
    requires forall hsh :: (s1(hsh) == []) == (s2(hsh) == [])
    requires forall hsh :: s1(hsh) != [] ==> s1(hsh)[0] == s2(hsh)[0]
    ensures Run(h, fmt, ctx, s1) == Run(h, fmt, ctx, s2)
  {
  }
}
