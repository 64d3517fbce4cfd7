/**
 * What the two job-triggered scripts (generate_blacklist_from_job.py and
 * generate_greylist_from_job.py) read from the job context, and how a run
 * ends.
 */
module JobContext {
  import opened Wrappers
  import opened Documents
  import opened BlacklistProduct

  /** `current_retry_count` as the job context holds it: a number, or a list whose head is the count. */
  datatype RetryCount = Count(n: int) | CountList(items: seq<int>)

  /**
   * The context keys the scripts read. An absent scene list is `False`
   * (`None` here); `required_retry_count` is taken after `int(...)`.
   */
  datatype Ctx = Ctx(
    requiredRetryCount: Option<int>,
    currentRetryCount: Option<RetryCount>,
    masterSlcs: Option<seq<Scene>>,
    slaveSlcs: Option<seq<Scene>>)

  /** `int(ctx.get('required_retry_count', 0))`. */
  function RequiredRetry(ctx: Ctx): int {
    ctx.requiredRetryCount.GetOr(0)
  }

  /**
   * `ctx.get('current_retry_count', 0)`, reduced to its first element when
   * it is a list; an empty list raises IndexError.
   */
  function CurrentRetry(ctx: Ctx): (r: Result<int, Exc>)
    ensures r.Failure? <==> ctx.currentRetryCount == Some(CountList([]))
    ensures ctx.currentRetryCount.None? ==> r == Success(0)
    ensures ctx.currentRetryCount.Some? && ctx.currentRetryCount.value.Count? ==>
              r == Success(ctx.currentRetryCount.value.n)
    ensures ctx.currentRetryCount.Some? && ctx.currentRetryCount.value.CountList? && ctx.currentRetryCount.value.items != [] ==>
              r == Success(ctx.currentRetryCount.value.items[0])
  {
    match ctx.currentRetryCount
    case None => Success(0)
    case Some(Count(n)) => Success(n)
    case Some(CountList(items)) =>
      if items == [] then Failure(IndexError("list index out of range")) else Success(items[0])
  }

  /**
   * How a run of `main` ends: an early `return`, `sys.exit(code)`, a
   * blacklist product built, an interferogram configuration handed to the
   * greylist builder, or an uncaught exception.
   */
  datatype Outcome =
    | Returned
    | Exited(code: int)
    | Built(product: Product)
    | Handoff(cfg: EsObject)
    | Crashed(error: Exc)

  /** The search for interferogram configurations with a given `full_id_hash`. */
  type CfgSearch = string -> seq<EsObject>
}
