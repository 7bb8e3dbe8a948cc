/** A task that polls a future and completes once. */
module FutureResolver {
  import opened Wrappers
  import opened IcmpScanner
  import opened DeviceDiscoveryTask
  import opened R = TaskRunner

  /** The delay a resolver starts with, in milliseconds. */
  const RETRY_DELAY: nat := 1000

  /** `FutureResolver::run` of a ping resolver: a settled promise makes its future
      ready, and the report ends the task. */
  function ResolverBody(results: Results, settled: Option<Outcome>, retryDelay: nat, now: int)
    : (Results, Option<Report>, Continuation)
  {
    match settled
    case None => (results, None, RunAgainDelayed(retryDelay))
    case Some(outcome) =>
      var report := ReportOf(outcome, now);
      (File(results, report), Some(report), End)
  }

  class IcmpPingResolver {
    const discoveryTask: DeviceDiscoveryTask
    var future: Option<nat>  // the promise it waits for; None once consumed
    var retryDelay: nat

    constructor (discoveryTask: DeviceDiscoveryTask)
      ensures this.discoveryTask == discoveryTask && future == None && retryDelay == RETRY_DELAY
    {
      this.discoveryTask := discoveryTask;
      future, retryDelay := None, RETRY_DELAY;
    }

    method SetFuture(promise: nat)
      modifies this`future
      ensures future == Some(promise)
    {
      future := Some(promise);
    }

    method SetRetryDelay(delay: nat)
      modifies this`retryDelay
      ensures retryDelay == delay
    {
      retryDelay := delay;
    }

    /** Waiting on a consumed future is undefined, so the task may not run again
        after it ended. */
    method Run(settled: Option<Outcome>, now: int) returns (next: Continuation)
      requires future.Some?
      modifies this`future, discoveryTask`results, discoveryTask`notified
      ensures future == if settled.Some? then None else old(future)
      ensures next == if settled.Some? then End else RunAgainDelayed(retryDelay)
      ensures settled == None ==>
                discoveryTask.results == old(discoveryTask.results) && discoveryTask.notified == old(discoveryTask.notified)
      ensures var (results, report, continuation) := ResolverBody(old(discoveryTask.results), settled, retryDelay, now);
              && discoveryTask.results == results && next == continuation
              && discoveryTask.notified == old(discoveryTask.notified)
                 + if report.Some? then Told(report.value, discoveryTask.onDevicePinged, discoveryTask.onPingFailed) else []
    {
      if settled.Some? {
        future := None;
        discoveryTask.Complete(settled.value, now);
        return End;
      }
      return RunAgainDelayed(retryDelay);
    }
  }
}
