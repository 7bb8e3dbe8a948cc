/** Recorded discovery results, keyed by the printed address, and the resolver
    that turns a settled ping into one of them. */
module DeviceDiscoveryTask {
  import opened Wrappers
  import opened Bytes
  import opened IPv4Address
  import opened IPv4Text
  import opened MacAddress
  import opened IcmpScanner

  datatype TaskSuccess = TaskSuccess(
    srcIp: IPv4,
    srcMac: Option<Mac>,
    dstIp: IPv4,
    dstMac: Option<Mac>,
    ttl: byte,
    responseTime: int,
    completedAt: int)

  datatype TaskError = TaskError(dstIp: IPv4, completedAt: int)

  type TaskResult = Result<TaskSuccess, TaskError>

  type Results = map<string, TaskResult>

  /** What a resolver reports: a result filed under an address, or an exception
      that is only logged. */
  datatype Report = Filed(under: IPv4, result: TaskResult) | Raised

  /** `onCompletion` and `onException`. Source and destination are reversed into
      request order, and a success is filed under the reply's destination. */
  function ReportOf(o: Outcome, now: int): Report {
    match o
    case Answered(response) =>
      var h := response.headers;
      Filed(h.dstIp, Success(TaskSuccess(h.dstIp, Some(h.dstMac), h.srcIp, Some(h.srcMac), h.ttl, response.responseTime, now)))
    case Expired(error) => Filed(error.dstIp, Failure(TaskError(error.dstIp, now)))
    case Broken(_) => Raised
  }

  function File(results: Results, report: Report): Results {
    match report
    case Filed(under, result) => results[ToString(under) := result]
    case Raised => results
  }

  /** The results handed to the installed callbacks. */
  function Told(report: Report, onDevicePinged: bool, onPingFailed: bool): seq<TaskResult> {
    match report
    case Filed(_, result) => if (if result.Success? then onDevicePinged else onPingFailed) then [result] else []
    case Raised => []
  }

  /** After its resolver completed, the pinged host reads a fresh result exactly
      when the ping timed out or the reply was addressed to the pinged host
      itself; otherwise it reads what it read before. */
  lemma PingedHostReads(results: Results, host: IPv4, o: Outcome, now: int)
    requires o.Answered? ==> o.response.headers.srcIp == host
    requires o.Expired? ==> o.error.dstIp == host
    ensures var report := ReportOf(o, now);
            var isNew := o.Expired? || (o.Answered? && o.response.headers.dstIp == host);
            Lookup(File(results, report), host) == if isNew then Some(report.result) else Lookup(results, host)
  {
    var report := ReportOf(o, now);
    if report.Filed? {
      KeyedByAddress(results, report.under, report.result, host);
    }
  }

  class DeviceDiscoveryTask {
    var results: Results
    var onDevicePinged: bool  // whether a callback is installed
    var onPingFailed: bool
    ghost var notified: seq<TaskResult>

    constructor (onDevicePinged: bool, onPingFailed: bool)
      ensures results == map[] && notified == []
      ensures this.onDevicePinged == onDevicePinged && this.onPingFailed == onPingFailed
    {
      results, notified := map[], [];
      this.onDevicePinged, this.onPingFailed := onDevicePinged, onPingFailed;
    }

    method AddSuccess(host: IPv4, result: TaskSuccess)
      modifies this`results, this`notified
      ensures forall a: IPv4 :: Lookup(results, a) == if a == host then Some(Success(result)) else Lookup(old(results), a)
      ensures results == File(old(results), Filed(host, Success(result)))
      ensures notified == old(notified) + if onDevicePinged then [Success(result)] else []
    {
      if onDevicePinged {
        notified := notified + [Success(result)];
      }
      forall a: IPv4 {
        KeyedByAddress(results, host, Success(result), a);
      }
      results := results[ToString(host) := Success(result)];
    }

    method AddError(host: IPv4, error: TaskError)
      modifies this`results, this`notified
      ensures forall a: IPv4 :: Lookup(results, a) == if a == host then Some(Failure(error)) else Lookup(old(results), a)
      ensures results == File(old(results), Filed(host, Failure(error)))
      ensures notified == old(notified) + if onPingFailed then [Failure(error)] else []
    {
      if onPingFailed {
        notified := notified + [Failure(error)];
      }
      forall a: IPv4 {
        KeyedByAddress(results, host, Failure(error), a);
      }
      results := results[ToString(host) := Failure(error)];
    }

    predicate HasResult(host: IPv4)
      reads this
    {
      ToString(host) in results
    }

    function GetResult(host: IPv4): (r: Option<TaskResult>)
      reads this
      ensures r == Lookup(results, host)
    {
      if HasResult(host) then Some(results[ToString(host)]) else None
    }

    method ClearResult(host: IPv4)
      modifies this`results
      ensures forall a: IPv4 :: Lookup(results, a) == if a == host then None else Lookup(old(results), a)
    {
      forall a: IPv4 {
        KeyedByAddress(results, host, Success(TaskSuccess(a, None, a, None, 0, 0, 0)), a);
      }
      results := results - {ToString(host)};
    }

    method ConsumeResult(host: IPv4) returns (r: Option<TaskResult>)
      modifies this`results
      ensures r == Lookup(old(results), host)
      ensures forall a: IPv4 :: Lookup(results, a) == if a == host then None else Lookup(old(results), a)
    {
      r := GetResult(host);
      if r.Some? {
        ClearResult(host);
      } else {
        forall a: IPv4 {
          ToStringInjective(a, host);
        }
      }
    }

    method ClearResults()
      modifies this`results
      ensures forall a: IPv4 :: Lookup(results, a) == None
    {
      results := map[];
    }

    /** `IcmpPingResolver`'s callbacks on a settled future. */
    method Complete(o: Outcome, now: int)
      modifies this`results, this`notified
      ensures results == File(old(results), ReportOf(o, now))
      ensures notified == old(notified) + Told(ReportOf(o, now), onDevicePinged, onPingFailed)
      ensures o.Answered? ==>
                var h := o.response.headers;
                var success := Success(TaskSuccess(
                  h.dstIp, Some(h.dstMac), h.srcIp, Some(h.srcMac), h.ttl, o.response.responseTime, now));
                && (forall a: IPv4 :: Lookup(results, a) == if a == h.dstIp then Some(success) else Lookup(old(results), a))
                && notified == old(notified) + if onDevicePinged then [success] else []
      ensures o.Expired? ==>
                var failure := Failure(TaskError(o.error.dstIp, now));
                && (forall a: IPv4 ::
                      Lookup(results, a) == if a == o.error.dstIp then Some(failure) else Lookup(old(results), a))
                && notified == old(notified) + if onPingFailed then [failure] else []
      ensures o.Broken? ==> results == old(results) && notified == old(notified)
    {
      match o
      case Answered(response) =>
        var h := response.headers;
        AddSuccess(h.dstIp, TaskSuccess(h.dstIp, Some(h.dstMac), h.srcIp, Some(h.srcMac), h.ttl, response.responseTime, now));
      case Expired(error) => AddError(error.dstIp, TaskError(error.dstIp, now));
      case Broken(_) =>
    }
  }
}
