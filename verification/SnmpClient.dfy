/** The asynchronous SNMP client: gets, bulk gets and subtree walks, the requests
    they leave pending and the promises they settle. A request's uuid stands for
    its promise. */
module SnmpClient {
  import opened Wrappers
  import opened LexOrder
  import opened IPv4Address
  import opened SnmpAgent

  type Uuid = nat

  /** `IPv4Address`'s default value. */
  const NO_HOST: IPv4 := [0, 0, 0, 0]

  const MAX_REPETITIONS: nat := 10

  datatype Response = Response(host: IPv4, variables: seq<Vb>)

  type Reply = Result<Response, ErrorType>

  datatype Request = Request(host: IPv4, response: Response, isWalk: bool, walkOid: Oid)

  datatype Pdu = Get(oids: seq<Oid>) | Bulk(oids: seq<Oid>, nonRepeaters: int, maxRepetitions: int)

  datatype Reason = Answered | TimedOutReason | OtherReason

  /** What was asked for: histories keep it for every request ever made. */
  datatype Asked = Plain(host: IPv4) | Subtree(root: Oid)

  /** Pending requests, PDUs on the wire, promises set, requests ever made. */
  datatype Client = Client(
    pending: map<Uuid, Request>,
    inFlight: map<Uuid, Pdu>,
    settled: map<Uuid, Reply>,
    asked: map<Uuid, Asked>)

  const EMPTY := Client(map[], map[], map[], map[])

  /** Comparison of the first n sub-identifiers: negative, zero or positive. */
  function NCompare(n: nat, a: Oid, b: Oid): int {
    var p, q := if n < |a| then a[..n] else a, if n < |b| then b[..n] else b;
    if Less(p, q) then -1 else if Less(q, p) then 1 else 0
  }

  lemma NCompareIsPrefix(root: Oid, oid: Oid)
    ensures NCompare(|root|, root, oid) == 0 <==> root <= oid
  {
    var q := if |root| < |oid| then oid[..|root|] else oid;
    Trichotomy(root, q);
    Irreflexive(root);
    assert root <= oid <==> |root| <= |oid| && root == oid[..|root|];
    assert |root| == |oid| ==> oid[..|root|] == oid;
  }

  /** The binding belongs to the subtree and carries a value. */
  predicate Kept(root: Oid, vb: Vb) {
    root <= vb.oid && vb.value != EndOfMibView
  }

  /** Where a walk reply stops being collected. */
  function StopAt(root: Oid, vbs: seq<Vb>): (n: nat)
    ensures n <= |vbs|
    ensures forall i :: 0 <= i < n ==> Kept(root, vbs[i])
    ensures n < |vbs| ==> !Kept(root, vbs[n])
  {
    if vbs == [] || !Kept(root, vbs[0]) then 0 else 1 + StopAt(root, vbs[1..])
  }

  function ValidOnes(vbs: seq<Vb>): seq<Vb> {
    if vbs == [] then []
    else ValidOnes(vbs[..|vbs| - 1]) + if vbs[|vbs| - 1].valid then [vbs[|vbs| - 1]] else []
  }

  /** `createRequest` and the send that follows. */
  function Asks(c: Client, uuid: Uuid, request: Request, pdu: Pdu): Client {
    Client(c.pending[uuid := request], c.inFlight[uuid := pdu], c.settled,
           c.asked[uuid := if request.isWalk then Subtree(request.walkOid) else Plain(request.host)])
  }

  function NewRequest(host: IPv4): Request {
    Request(host, Response(NO_HOST, []), false, [])
  }

  function NewWalk(host: IPv4, root: Oid): Request {
    NewRequest(host).(isWalk := true, walkOid := root)
  }

  /** The reply a get settles with. The host is filled in per binding. */
  function GetReply(r: Request, reason: Reason, vbs: seq<Vb>): Reply {
    match reason
    case Answered => Success(Response(if vbs == [] then r.response.host else r.host, r.response.variables + ValidOnes(vbs)))
    case TimedOutReason => Failure(TimedOut)
    case OtherReason => Failure(Unknown)
  }

  /** `handleGet` settles and erases. */
  function AfterGet(c: Client, uuid: Uuid, reason: Reason, vbs: seq<Vb>): Client
    requires uuid in c.pending
  {
    c.(pending := c.pending - {uuid}, settled := c.settled[uuid := GetReply(c.pending[uuid], reason, vbs)])
  }

  /** The PDU of the next round: it starts from the last binding seen; an empty
      reply leaves the library's default binding, with the empty OID. */
  function NextPdu(vbs: seq<Vb>): Pdu {
    Bulk([if vbs == [] then [] else vbs[|vbs| - 1].oid], 0, MAX_REPETITIONS)
  }

  function Collected(r: Request, vbs: seq<Vb>): Request {
    r.(response := r.response.(variables := r.response.variables + vbs))
  }

  lemma CollectedNothing(r: Request)
    ensures Collected(r, []) == r
  {
    assert r.response.variables + [] == r.response.variables;
  }

  lemma CollectedMore(r: Request, vbs: seq<Vb>, i: nat)
    requires i < |vbs|
    ensures Collected(Collected(r, vbs[..i]), [vbs[i]]) == Collected(r, vbs[..i + 1])
  {
    assert vbs[..i + 1] == vbs[..i] + [vbs[i]];
  }

  /** `handleWalk` settles without erasing, or collects and asks for more. */
  function AfterWalk(c: Client, uuid: Uuid, reason: Reason, vbs: seq<Vb>): Client
    requires uuid in c.pending
  {
    var r := c.pending[uuid];
    if reason == TimedOutReason then c.(settled := c.settled[uuid := Failure(TimedOut)])
    else
      var n := StopAt(r.walkOid, vbs);
      var collected := Collected(r, vbs[..n]);
      var kept := c.(pending := c.pending[uuid := collected]);
      if n == |vbs| then kept.(inFlight := c.inFlight[uuid := NextPdu(vbs)])
      else if r.walkOid <= vbs[n].oid then kept.(settled := c.settled[uuid := Failure(TimedOut)])
      else kept.(settled := c.settled[uuid := Success(collected.response)])
  }

  /** The session calls back once for a PDU on the wire. */
  function AfterCallback(c: Client, uuid: Uuid, reason: Reason, vbs: seq<Vb>): Client
    requires uuid in c.pending
  {
    var delivered := c.(inFlight := c.inFlight - {uuid});
    if c.pending[uuid].isWalk then AfterWalk(delivered, uuid, reason, vbs) else AfterGet(delivered, uuid, reason, vbs)
  }

  /** A successful get names its host unless the reply was empty; a successful
      walk never does, and holds bindings of its subtree only. */
  ghost predicate Proper(response: Response, a: Asked) {
    match a
    case Plain(host) => response.host == host || response == Response(NO_HOST, [])
    case Subtree(root) => response.host == NO_HOST
                          && (forall i :: 0 <= i < |response.variables| ==> Kept(root, response.variables[i]))
  }

  /** A request remembers what was asked; a get has collected nothing, a walk only
      bindings of its subtree. */
  ghost predicate Matches(r: Request, a: Asked) {
    match a
    case Plain(host) => !r.isWalk && r.host == host && r.response == Response(NO_HOST, [])
    case Subtree(root) => r.isWalk && r.walkOid == root && Proper(r.response, a)
  }

  /** Exactly the unresolved requests have a PDU on the wire; the pending map is
      the unresolved requests and the walks that are done. */
  ghost predicate Lifecycle(c: Client) {
    && c.inFlight.Keys == c.asked.Keys - c.settled.Keys
    && c.settled.Keys <= c.asked.Keys
    && c.pending.Keys <= c.asked.Keys
    && (forall u | u in c.asked :: u in c.pending <==> u !in c.settled || c.asked[u].Subtree?)
    && (forall u | u in c.pending :: Matches(c.pending[u], c.asked[u]))
    && (forall u | u in c.settled && c.settled[u].Success? :: Proper(c.settled[u].value, c.asked[u]))
  }

  class SnmpClient {
    var pendingRequests: map<Uuid, Request>
    var inFlight: map<Uuid, Pdu>
    var settled: map<Uuid, Reply>  // the shared states the callers' futures read
    ghost var asked: map<Uuid, Asked>

    ghost function Model(): Client
      reads this
    {
      Client(pendingRequests, inFlight, settled, asked)
    }

    constructor ()
      ensures Model() == EMPTY
    {
      pendingRequests, inFlight, settled, asked := map[], map[], map[], map[];
    }

    /** `promise::set_value`, which throws on a satisfied promise. */
    method SetValue(uuid: Uuid, reply: Reply)
      requires uuid !in settled
      modifies this`settled
      ensures settled == old(settled)[uuid := reply]
    {
      settled := settled[uuid := reply];
    }

    /** Hands a PDU to the session, which will call back once for it. */
    method Send(uuid: Uuid, pdu: Pdu)
      requires uuid !in inFlight
      modifies this`inFlight
      ensures inFlight == old(inFlight)[uuid := pdu]
    {
      inFlight := inFlight[uuid := pdu];
    }

    method GetAsync(uuid: Uuid, host: IPv4, oids: seq<Oid>)
      requires Lifecycle(Model()) && uuid !in asked
      modifies this
      ensures Model() == Asks(old(Model()), uuid, NewRequest(host), Get(oids))
    {
      pendingRequests := pendingRequests[uuid := NewRequest(host)];
      Send(uuid, Get(oids));
      asked := asked[uuid := Plain(host)];
    }

    method GetBulkAsync(uuid: Uuid, host: IPv4, oids: seq<Oid>, nonRepeaters: int, maxRepetitions: int)
      requires Lifecycle(Model()) && uuid !in asked
      modifies this
      ensures Model() == Asks(old(Model()), uuid, NewRequest(host), Bulk(oids, nonRepeaters, maxRepetitions))
    {
      pendingRequests := pendingRequests[uuid := NewRequest(host)];
      Send(uuid, Bulk(oids, nonRepeaters, maxRepetitions));
      asked := asked[uuid := Plain(host)];
    }

    method WalkAsync(uuid: Uuid, host: IPv4, root: Oid)
      requires Lifecycle(Model()) && uuid !in asked
      modifies this
      ensures Model() == Asks(old(Model()), uuid, NewWalk(host, root), Bulk([root], 0, MAX_REPETITIONS))
    {
      var request := NewRequest(host);
      request := request.(isWalk := true);
      request := request.(walkOid := root);
      pendingRequests := pendingRequests[uuid := request];
      Send(uuid, Bulk([root], 0, MAX_REPETITIONS));
      asked := asked[uuid := Subtree(root)];
    }

    method HandleGet(uuid: Uuid, reason: Reason, vbs: seq<Vb>)
      requires uuid in pendingRequests && uuid !in settled && uuid !in inFlight
      modifies this`pendingRequests, this`settled
      ensures Model() == AfterGet(old(Model()), uuid, reason, vbs)
    {
      ghost var before := pendingRequests[uuid];
      match reason
      case Answered =>
        var request := pendingRequests[uuid];
        var i := 0;
        CollectedNothing(before);
        while i < |vbs|
          invariant 0 <= i <= |vbs|
          invariant request.host == before.host
          invariant request.response.host == if i == 0 then before.response.host else before.host
          invariant request.response.variables == before.response.variables + ValidOnes(vbs[..i])
        {
          request := request.(response := request.response.(host := request.host));
          if vbs[i].valid {
            request := Collected(request, [vbs[i]]);
          }
          assert vbs[..i + 1][..i] == vbs[..i];
          i := i + 1;
        }
        assert vbs[..|vbs|] == vbs;
        SetValue(uuid, Success(request.response));
        pendingRequests := pendingRequests - {uuid};
      case TimedOutReason =>
        SetValue(uuid, Failure(TimedOut));
        pendingRequests := pendingRequests - {uuid};
      case OtherReason =>
        SetValue(uuid, Failure(Unknown));
        pendingRequests := pendingRequests - {uuid};
    }

    method HandleWalk(uuid: Uuid, reason: Reason, vbs: seq<Vb>)
      requires uuid in pendingRequests && uuid !in settled && uuid !in inFlight
      modifies this
      ensures Model() == AfterWalk(old(Model()), uuid, reason, vbs)
    {
      if reason == TimedOutReason {
        SetValue(uuid, Failure(TimedOut));
        return;
      }
      ghost var before := pendingRequests[uuid];
      var root := pendingRequests[uuid].walkOid;
      var nextOid: Oid := [];
      var i := 0;
      ghost var n := StopAt(root, vbs);
      CollectedNothing(before);
      while i < |vbs|
        invariant 0 <= i <= n
        invariant nextOid == if i == 0 then [] else vbs[i - 1].oid
        invariant pendingRequests == old(pendingRequests)[uuid := Collected(before, vbs[..i])]
        invariant inFlight == old(inFlight) && settled == old(settled) && asked == old(asked)
      {
        nextOid := vbs[i].oid;
        NCompareIsPrefix(root, nextOid);
        if NCompare(|root|, root, nextOid) != 0 {
          SetValue(uuid, Success(pendingRequests[uuid].response));
          return;
        }
        if vbs[i].value != EndOfMibView {
          CollectedMore(before, vbs, i);
          pendingRequests := pendingRequests[uuid := Collected(pendingRequests[uuid], [vbs[i]])];
        } else {
          SetValue(uuid, Failure(TimedOut));
          return;
        }
        i := i + 1;
      }
      Send(uuid, Bulk([nextOid], 0, MAX_REPETITIONS));
    }

    /** The session calls back for a PDU that is on the wire. */
    method Callback(uuid: Uuid, reason: Reason, vbs: seq<Vb>)
      requires Lifecycle(Model()) && uuid in inFlight
      modifies this
      ensures Model() == AfterCallback(old(Model()), uuid, reason, vbs)
    {
      inFlight := inFlight - {uuid};
      if pendingRequests[uuid].isWalk {
        HandleWalk(uuid, reason, vbs);
      } else {
        HandleGet(uuid, reason, vbs);
      }
    }
  }

  datatype Event =
    | AskGet(uuid: Uuid, host: IPv4, oids: seq<Oid>)
    | AskBulk(uuid: Uuid, host: IPv4, oids: seq<Oid>, nonRepeaters: int, maxRepetitions: int)
    | AskWalk(uuid: Uuid, host: IPv4, root: Oid)
    | CallBack(uuid: Uuid, reason: Reason, vbs: seq<Vb>)

  /** Fresh uuids for requests; callbacks only for PDUs on the wire. */
  predicate Possible(c: Client, e: Event) {
    if e.CallBack? then e.uuid in c.inFlight else e.uuid !in c.asked
  }

  /** One step; an event that cannot happen leaves the client as it is. */
  function Next(c: Client, e: Event): Client
    requires Lifecycle(c)
  {
    if !Possible(c, e) then c
    else
      match e
      case AskGet(uuid, host, oids) => Asks(c, uuid, NewRequest(host), Get(oids))
      case AskBulk(uuid, host, oids, n, m) => Asks(c, uuid, NewRequest(host), Bulk(oids, n, m))
      case AskWalk(uuid, host, root) => Asks(c, uuid, NewWalk(host, root), Bulk([root], 0, MAX_REPETITIONS))
      case CallBack(uuid, reason, vbs) => AfterCallback(c, uuid, reason, vbs)
  }

  lemma AsksKeepsLifecycle(c: Client, uuid: Uuid, request: Request, pdu: Pdu)
    requires Lifecycle(c) && uuid !in c.asked
    requires request.response == Response(NO_HOST, [])
    ensures Lifecycle(Asks(c, uuid, request, pdu))
  {
  }

  lemma GetReplyIsProper(r: Request, a: Asked, reason: Reason, vbs: seq<Vb>)
    requires Matches(r, a) && !r.isWalk
    ensures GetReply(r, reason, vbs).Success? ==> Proper(GetReply(r, reason, vbs).value, a)
  {
  }

  lemma GetKeepsLifecycle(c: Client, uuid: Uuid, reason: Reason, vbs: seq<Vb>)
    requires Lifecycle(c) && uuid in c.inFlight && !c.pending[uuid].isWalk
    ensures Lifecycle(AfterCallback(c, uuid, reason, vbs))
  {
    hide GetReply, Kept;
    assert Matches(c.pending[uuid], c.asked[uuid]);
    GetReplyIsProper(c.pending[uuid], c.asked[uuid], reason, vbs);
  }

  lemma CollectedIsProper(r: Request, a: Asked, vbs: seq<Vb>, n: nat)
    requires Matches(r, a) && r.isWalk && n <= StopAt(r.walkOid, vbs)
    ensures Matches(Collected(r, vbs[..n]), a)
  {
    hide StopAt;
    var all := r.response.variables + vbs[..n];
    forall i | 0 <= i < |all| ensures Kept(r.walkOid, all[i]) {
      if i >= |r.response.variables| {
        assert all[i] == vbs[i - |r.response.variables|];
      }
    }
  }

  lemma WalkKeepsLifecycle(c: Client, uuid: Uuid, reason: Reason, vbs: seq<Vb>)
    requires Lifecycle(c) && uuid in c.inFlight && c.pending[uuid].isWalk
    ensures Lifecycle(AfterCallback(c, uuid, reason, vbs))
  {
    hide StopAt, Kept, Collected;
    var r := c.pending[uuid];
    assert Matches(r, c.asked[uuid]);
    CollectedIsProper(r, c.asked[uuid], vbs, StopAt(r.walkOid, vbs));
  }

  lemma InFlightIsPending(c: Client, uuid: Uuid)
    requires Lifecycle(c) && uuid in c.inFlight
    ensures uuid in c.pending && uuid !in c.settled
  {
  }

  lemma NextKeepsLifecycle(c: Client, e: Event)
    requires Lifecycle(c)
    ensures Lifecycle(Next(c, e))
  {
    hide Lifecycle, Asks, AfterCallback;
    if Possible(c, e) {
      match e
      case AskGet(uuid, host, oids) => AsksKeepsLifecycle(c, uuid, NewRequest(host), Get(oids));
      case AskBulk(uuid, host, oids, n, m) => AsksKeepsLifecycle(c, uuid, NewRequest(host), Bulk(oids, n, m));
      case AskWalk(uuid, host, root) =>
        AsksKeepsLifecycle(c, uuid, NewWalk(host, root), Bulk([root], 0, MAX_REPETITIONS));
      case CallBack(uuid, reason, vbs) =>
        InFlightIsPending(c, uuid);
        if c.pending[uuid].isWalk {
          WalkKeepsLifecycle(c, uuid, reason, vbs);
        } else {
          GetKeepsLifecycle(c, uuid, reason, vbs);
        }
    }
  }

  /** A promise that was set stays as it was set: none is set twice. */
  lemma NextKeepsSettled(c: Client, e: Event, u: Uuid)
    requires Lifecycle(c) && u in c.settled
    ensures u in Next(c, e).settled && Next(c, e).settled[u] == c.settled[u]
  {
  }

  /** A step about one request leaves every other one alone. */
  lemma OthersUntouched(c: Client, e: Event, u: Uuid)
    requires Lifecycle(c) && u != e.uuid
    ensures var d := Next(c, e);
            && (u in c.pending <==> u in d.pending) && (u in c.pending ==> d.pending[u] == c.pending[u])
            && (u in c.inFlight <==> u in d.inFlight) && (u in c.inFlight ==> d.inFlight[u] == c.inFlight[u])
            && (u in c.settled <==> u in d.settled) && (u in c.settled ==> d.settled[u] == c.settled[u])
  {
    hide StopAt, ValidOnes, Collected, GetReply, Lifecycle, NextPdu;
    if e.CallBack? && Possible(c, e) {
      InFlightIsPending(c, e.uuid);
    }
  }

  lemma StopAtIs(root: Oid, vbs: seq<Vb>, n: nat)
    requires n <= |vbs|
    requires forall i :: 0 <= i < n ==> Kept(root, vbs[i])
    requires n < |vbs| ==> !Kept(root, vbs[n])
    ensures StopAt(root, vbs) == n
  {
  }

  /** What each request puts on the wire and remembers. */
  lemma AskStarts(c: Client, uuid: Uuid, host: IPv4, oids: seq<Oid>, n: int, m: int, root: Oid)
    requires Lifecycle(c) && uuid !in c.asked
    ensures var blank := Response([0, 0, 0, 0], []);
            var plain, walk := Request(host, blank, false, []), Request(host, blank, true, root);
            && Next(c, AskGet(uuid, host, oids)) ==
                 Client(c.pending[uuid := plain], c.inFlight[uuid := Get(oids)], c.settled, c.asked[uuid := Plain(host)])
            && Next(c, AskBulk(uuid, host, oids, n, m)) ==
                 Client(c.pending[uuid := plain], c.inFlight[uuid := Bulk(oids, n, m)], c.settled, c.asked[uuid := Plain(host)])
            && Next(c, AskWalk(uuid, host, root)) ==
                 Client(c.pending[uuid := walk], c.inFlight[uuid := Bulk([root], 0, 10)], c.settled, c.asked[uuid := Subtree(root)])
  {
  }

  /** `out` is the valid ones among `vbs`, which stand at `places` there. */
  ghost predicate PicksValid(out: seq<Vb>, vbs: seq<Vb>, places: seq<nat>) {
    && |places| == |out|
    && (forall j :: 0 <= j < |places| ==> places[j] < |vbs| && out[j] == vbs[places[j]] && vbs[places[j]].valid)
    && (forall j, k :: 0 <= j < k < |places| ==> places[j] < places[k])
    && (forall i :: 0 <= i < |vbs| && vbs[i].valid ==> i in places)
  }

  lemma PicksNothing()
    ensures PicksValid([], [], [])
  {
  }

  lemma PickLast(out: seq<Vb>, vbs: seq<Vb>, places: seq<nat>)
    requires vbs != [] && PicksValid(out, vbs[..|vbs| - 1], places)
    ensures var vb := vbs[|vbs| - 1];
            if vb.valid then PicksValid(out + [vb], vbs, places + [|vbs| - 1]) else PicksValid(out, vbs, places)
  {
    var n := |vbs| - 1;
    var next := if vbs[n].valid then places + [n] else places;
    forall i | 0 <= i < |vbs| && vbs[i].valid ensures i in next {
      if i < n {
        assert vbs[..n][i].valid;
        var j :| 0 <= j < |places| && places[j] == i;
        assert next[j] == i;
      } else {
        assert next[|places|] == n;
      }
    }
  }

  lemma {:induction false} ValidOnesPicks(vbs: seq<Vb>) returns (places: seq<nat>)
    ensures PicksValid(ValidOnes(vbs), vbs, places)
  {
    hide PicksValid;
    if vbs == [] {
      places := [];
      assert PicksValid([], [], []) by {
        PicksNothing();
      }
    } else {
      var n := |vbs| - 1;
      places := ValidOnesPicks(vbs[..n]);
      PickLast(ValidOnes(vbs[..n]), vbs, places);
      places := if vbs[n].valid then places + [n] else places;
      assert ValidOnes(vbs[..n]) + [] == ValidOnes(vbs[..n]);
    }
  }

  lemma {:induction false} AllValid(vbs: seq<Vb>)
    requires forall i :: 0 <= i < |vbs| ==> vbs[i].valid
    ensures ValidOnes(vbs) == vbs
  {
    if vbs == [] {
    } else {
      AllValid(vbs[..|vbs| - 1]);
      assert vbs == vbs[..|vbs| - 1] + [vbs[|vbs| - 1]];
    }
  }

  /** An answered get holds the valid bindings in order, all of them and no other,
      and names its host exactly when the reply had a binding. */
  lemma AnsweredGet(c: Client, uuid: Uuid, vbs: seq<Vb>)
    requires Lifecycle(c) && uuid in c.inFlight && c.asked[uuid].Plain?
    ensures var d := Next(c, CallBack(uuid, Answered, vbs));
            && d.pending == c.pending - {uuid} && d.inFlight == c.inFlight - {uuid}
            && uuid in d.settled && d.settled[uuid].Success?
            && (exists places :: PicksValid(d.settled[uuid].value.variables, vbs, places))
            && ((forall i :: 0 <= i < |vbs| ==> vbs[i].valid) ==> d.settled[uuid].value.variables == vbs)
            && d.settled[uuid].value.host == (if vbs == [] then [0, 0, 0, 0] else c.asked[uuid].host)
  {
    hide PicksValid, ValidOnes;
    InFlightIsPending(c, uuid);
    assert Matches(c.pending[uuid], c.asked[uuid]);
    assert [] + ValidOnes(vbs) == ValidOnes(vbs);
    var places := ValidOnesPicks(vbs);
    if forall i :: 0 <= i < |vbs| ==> vbs[i].valid {
      AllValid(vbs);
    }
  }

  /** Any other get fails, with TimedOut or Unknown. */
  lemma FailedGet(c: Client, uuid: Uuid, reason: Reason, vbs: seq<Vb>)
    requires Lifecycle(c) && uuid in c.inFlight && c.asked[uuid].Plain? && reason != Answered
    ensures var d := Next(c, CallBack(uuid, reason, vbs));
            && d.pending == c.pending - {uuid} && d.inFlight == c.inFlight - {uuid}
            && d.settled == c.settled[uuid := Failure(if reason == TimedOutReason then TimedOut else Unknown)]
  {
    InFlightIsPending(c, uuid);
    assert Matches(c.pending[uuid], c.asked[uuid]);
  }

  /** A walk whose PDU got no answer fails, whatever it had collected. */
  lemma TimedOutWalk(c: Client, uuid: Uuid, vbs: seq<Vb>)
    requires Lifecycle(c) && uuid in c.inFlight && c.asked[uuid].Subtree?
    ensures var d := Next(c, CallBack(uuid, TimedOutReason, vbs));
            && d.settled == c.settled[uuid := Failure(TimedOut)]
            && d.pending == c.pending && d.inFlight == c.inFlight - {uuid}
  {
    InFlightIsPending(c, uuid);
    assert Matches(c.pending[uuid], c.asked[uuid]);
  }

  /** Any other reply is collected up to its first binding, number n, that lies
      outside the subtree (success) or is endOfMibView (TimedOut); without one the
      walk goes on from the last binding. */
  lemma WalkAnswer(c: Client, uuid: Uuid, root: Oid, reason: Reason, vbs: seq<Vb>, n: nat)
    requires Lifecycle(c) && uuid in c.inFlight && c.asked[uuid] == Subtree(root)
    requires reason != TimedOutReason && n <= |vbs|
    requires forall i :: 0 <= i < n ==> root <= vbs[i].oid && vbs[i].value != EndOfMibView
    requires n < |vbs| ==> !(root <= vbs[n].oid && vbs[n].value != EndOfMibView)
    ensures uuid in c.pending
    ensures var d := Next(c, CallBack(uuid, reason, vbs));
            var r := c.pending[uuid];
            var response := Response([0, 0, 0, 0], r.response.variables + vbs[..n]);
            && d.pending == c.pending[uuid := r.(response := response)]
            && (n == |vbs| ==>
                  && d.settled == c.settled
                  && d.inFlight == c.inFlight[uuid := Bulk([if n == 0 then [] else vbs[n - 1].oid], 0, 10)])
            && (n < |vbs| ==>
                  && d.settled == c.settled[uuid := if root <= vbs[n].oid then Failure(TimedOut) else Success(response)]
                  && d.inFlight == c.inFlight - {uuid})
  {
    hide StopAt;
    InFlightIsPending(c, uuid);
    assert Matches(c.pending[uuid], c.asked[uuid]);
    StopAtIs(root, vbs, n);
    assert (c.inFlight - {uuid})[uuid := NextPdu(vbs)] == c.inFlight[uuid := NextPdu(vbs)];
  }

  function Run(c: Client, events: seq<Event>): (d: Client)
    requires Lifecycle(c)
    ensures Lifecycle(d)
    decreases |events|
  {
    if events == [] then c
    else
      NextKeepsLifecycle(c, events[0]);
      Run(Next(c, events[0]), events[1..])
  }

  lemma {:induction false} SettledOnce(c: Client, events: seq<Event>, u: Uuid)
    requires Lifecycle(c) && u in c.settled
    ensures u in Run(c, events).settled && Run(c, events).settled[u] == c.settled[u]
    decreases |events|
  {
    if events == [] {
    } else {
      NextKeepsLifecycle(c, events[0]);
      NextKeepsSettled(c, events[0], u);
      SettledOnce(Next(c, events[0]), events[1..], u);
    }
  }

  lemma StaysAsked(c: Client, e: Event, u: Uuid)
    requires Lifecycle(c) && u in c.asked
    ensures u in Next(c, e).asked && Next(c, e).asked[u] == c.asked[u]
  {
  }

  /** A reply to request `uuid` that holds a binding outside the subtree. */
  ghost predicate LeavesSubtree(e: Event, uuid: Uuid, root: Oid) {
    && e.CallBack? && e.uuid == uuid && e.reason != TimedOutReason
    && exists i :: 0 <= i < |e.vbs| && !(root <= e.vbs[i].oid)
  }

  lemma StepSuccess(c: Client, e: Event, uuid: Uuid, root: Oid)
    requires Lifecycle(c) && uuid in c.asked && c.asked[uuid] == Subtree(root) && uuid !in c.settled
    requires uuid in Next(c, e).settled && Next(c, e).settled[uuid].Success?
    ensures uuid in c.inFlight && LeavesSubtree(e, uuid, root)
  {
    hide StopAt;
    InFlightIsPending(c, uuid);
    if e.uuid != uuid {
      OthersUntouched(c, e, uuid);
    } else if e.reason == TimedOutReason {
      TimedOutWalk(c, uuid, e.vbs);
    } else {
      WalkAnswer(c, uuid, root, e.reason, e.vbs, StopAt(root, e.vbs));
    }
  }

  /** Over every run, and for any replies at all, a walk is settled with success
      only by a reply that shows a binding outside the subtree. */
  lemma {:induction false} SuccessNeedsEnd(c: Client, events: seq<Event>, uuid: Uuid, root: Oid) returns (k: nat)
    requires Lifecycle(c) && uuid in c.asked && c.asked[uuid] == Subtree(root) && uuid !in c.settled
    requires uuid in Run(c, events).settled && Run(c, events).settled[uuid].Success?
    ensures k < |events| && uuid in Run(c, events[..k]).inFlight && LeavesSubtree(events[k], uuid, root)
    decreases |events|
  {
    hide Lifecycle, Next, LeavesSubtree;
    var d := Next(c, events[0]);
    NextKeepsLifecycle(c, events[0]);
    if uuid in d.settled {
      SettledOnce(d, events[1..], uuid);
      StepSuccess(c, events[0], uuid, root);
      k := 0;
      assert events[..0] == [];
    } else {
      StaysAsked(c, events[0], uuid);
      var j := SuccessNeedsEnd(d, events[1..], uuid, root);
      k := j + 1;
      assert events[..k][1..] == events[1..][..j];
    }
  }

  /** The agent's instances as the client collects them. */
  function Bindings(xs: Mib): (r: seq<Vb>)
    ensures |r| == |xs|
  {
    seq(|xs|, i requires 0 <= i < |xs| => Vb(xs[i].oid, Data(xs[i].v), true))
  }

  /** The walk stands before instance n of the subtree mib[lo..hi]: `cursor` is
      the name it sends next. */
  ghost predicate At(mib: Mib, root: Oid, n: nat, cursor: Oid) {
    && NextIndex(mib, root) <= n <= SubtreeEnd(mib, root, NextIndex(mib, root))
    && NextIndex(mib, cursor) == n && root <= cursor
    && (n > NextIndex(mib, root) ==> cursor == mib[n - 1].oid)
  }

  /** Reply binding i is the next instance, or endOfMibView under the last name. */
  lemma ReplyBinding(mib: Mib, root: Oid, n: nat, cursor: Oid, batch: nat, i: nat)
    requires Sorted(mib) && At(mib, root, n, cursor) && i < batch
    ensures var vb := GetBulk(mib, cursor, batch)[i];
            var hi := SubtreeEnd(mib, root, NextIndex(mib, root));
            && (n + i < hi ==> Kept(root, vb) && vb == Vb(mib[n + i].oid, Data(mib[n + i].v), true))
            && (n + i == hi ==> !Kept(root, vb) && (root <= vb.oid <==> hi == |mib|))
  {
    hide NextIndex, SubtreeEnd, GetBulk;
    GetBulkReply(mib, cursor, n, batch);
  }

  lemma KeptIsBelow(root: Oid, vb: Vb)
    requires Kept(root, vb)
    ensures root <= vb.oid
  {
  }

  /** One round: a reply inside the subtree is collected whole and moves the walk
      on; any other stops it at the end of the subtree, on the binding of an
      instance after it or on endOfMibView. */
  lemma Round(mib: Mib, root: Oid, n: nat, cursor: Oid, batch: nat)
    requires Sorted(mib) && At(mib, root, n, cursor) && batch > 0
    ensures var vbs := GetBulk(mib, cursor, batch);
            var hi := SubtreeEnd(mib, root, NextIndex(mib, root));
            var stop := StopAt(root, vbs);
            && stop == (if n + batch <= hi then batch else hi - n)
            && vbs[..stop] == Bindings(mib[n..n + stop])
            && (stop == batch ==> At(mib, root, n + batch, vbs[batch - 1].oid))
            && (stop < batch ==> (root <= vbs[stop].oid <==> hi == |mib|))
  {
    hide StopAt, GetBulk, NextIndex, SubtreeEnd, Kept;
    var vbs := GetBulk(mib, cursor, batch);
    var hi := SubtreeEnd(mib, root, NextIndex(mib, root));
    var stop := if n + batch <= hi then batch else hi - n;
    forall i | 0 <= i < stop ensures Kept(root, vbs[i]) && vbs[i] == Bindings(mib[n..n + stop])[i] {
      ReplyBinding(mib, root, n, cursor, batch, i);
    }
    if stop < batch {
      ReplyBinding(mib, root, n, cursor, batch, stop);
    } else {
      ReplyBinding(mib, root, n, cursor, batch, batch - 1);
      NextIndexOfInstance(mib, n + batch - 1);
      KeptIsBelow(root, vbs[batch - 1]);
    }
    StopAtIs(root, vbs, stop);
  }

  /** What a walk of `root` should come to: the instances strictly below the root,
      in order, if some instance sorts after the subtree; otherwise TimedOut,
      although nothing timed out. */
  ghost function WalkResult(mib: Mib, root: Oid): Reply {
    if SomethingAfter(mib, root) then Success(Response(NO_HOST, Bindings(SnmpAgent.Subtree(mib, root))))
    else Failure(TimedOut)
  }

  /** How many instances of the subtree the walk has collected. */
  function Progress(c: Client, uuid: Uuid): nat
    requires uuid in c.pending
  {
    |c.pending[uuid].response.variables|
  }

  /** The walk is under way and has collected the first instances, in order. */
  ghost predicate Walking(c: Client, mib: Mib, uuid: Uuid, root: Oid) {
    && uuid in c.inFlight && uuid in c.pending && c.pending[uuid].isWalk && c.pending[uuid].walkOid == root
    && c.inFlight[uuid].Bulk? && |c.inFlight[uuid].oids| == 1
    && var lo := NextIndex(mib, root);
       var n := lo + Progress(c, uuid);
       && At(mib, root, n, c.inFlight[uuid].oids[0])
       && c.pending[uuid].response == Response(NO_HOST, Bindings(mib[lo..n]))
  }

  ghost predicate Walked(c: Client, mib: Mib, uuid: Uuid, root: Oid) {
    uuid !in c.inFlight && uuid in c.settled && c.settled[uuid] == WalkResult(mib, root)
  }

  lemma WalkStarts(c: Client, mib: Mib, uuid: Uuid, host: IPv4, root: Oid)
    ensures Walking(Asks(c, uuid, NewWalk(host, root), Bulk([root], 0, MAX_REPETITIONS)), mib, uuid, root)
  {
    hide SubtreeEnd;
    assert Bindings(mib[NextIndex(mib, root)..NextIndex(mib, root)]) == [];
  }

  lemma BindingsAppend(mib: Mib, lo: nat, n: nat, m: nat)
    requires lo <= n <= m <= |mib|
    ensures Bindings(mib[lo..n]) + Bindings(mib[n..m]) == Bindings(mib[lo..m])
  {
  }

  lemma AtBounds(mib: Mib, root: Oid, n: nat, cursor: Oid)
    requires At(mib, root, n, cursor)
    ensures NextIndex(mib, root) <= n <= SubtreeEnd(mib, root, NextIndex(mib, root)) <= |mib|
  {
  }

  /** A reply of at least one repetition moves the walk on or ends it. */
  lemma WalkRound(c: Client, mib: Mib, uuid: Uuid, root: Oid, batch: nat)
    requires Sorted(mib) && Walking(c, mib, uuid, root) && batch > 0
    ensures var d := AfterCallback(c, uuid, Answered, GetBulk(mib, c.inFlight[uuid].oids[0], batch));
            || Walked(d, mib, uuid, root)
            || (Walking(d, mib, uuid, root) && Progress(d, uuid) > Progress(c, uuid))
  {
    hide NextIndex, SubtreeEnd, GetBulk, StopAt, At, Bindings, Sorted;
    var r, cursor := c.pending[uuid], c.inFlight[uuid].oids[0];
    var vbs := GetBulk(mib, cursor, batch);
    var lo := NextIndex(mib, root);
    var n := lo + Progress(c, uuid);
    var stop := StopAt(root, vbs);
    assert n <= SubtreeEnd(mib, root, lo) && lo <= |mib| by {
      AtBounds(mib, root, n, cursor);
    }
    Round(mib, root, n, cursor, batch);
    BindingsAppend(mib, lo, n, n + stop);
    SubtreeIsStretch(mib, root);
    assert Collected(r, vbs[..stop]).response == Response(NO_HOST, Bindings(mib[lo..n + stop]));
  }

  /** In this run every reply to request `uuid` is the agent's, with one to ten
      repetitions; everything else is free. */
  ghost predicate Conforms(c: Client, events: seq<Event>, mib: Mib, uuid: Uuid)
    requires Lifecycle(c)
    decreases |events|
  {
    events == [] ||
    (var e := events[0];
     NextKeepsLifecycle(c, e);
     && (e.CallBack? && e.uuid == uuid && uuid in c.inFlight ==>
           && e.reason == Answered
           && |c.inFlight[uuid].oids| == 1
           && exists k :: 1 <= k <= MAX_REPETITIONS && e.vbs == GetBulk(mib, c.inFlight[uuid].oids[0], k))
     && Conforms(Next(c, e), events[1..], mib, uuid))
  }

  lemma WalkingFacts(c: Client, mib: Mib, uuid: Uuid, root: Oid)
    requires Sorted(mib) && Walking(c, mib, uuid, root)
    ensures uuid in c.inFlight && uuid in c.pending && |c.inFlight[uuid].oids| == 1
    ensures Progress(c, uuid) <= |SnmpAgent.Subtree(mib, root)|
  {
    hide Sorted;
    SubtreeIsStretch(mib, root);
  }

  /** The agent's replies to request `uuid` in a run. */
  function Replies(c: Client, events: seq<Event>, uuid: Uuid): nat
    requires Lifecycle(c)
    decreases |events|
  {
    if events == [] then 0
    else
      NextKeepsLifecycle(c, events[0]);
      (if events[0].CallBack? && events[0].uuid == uuid && uuid in c.inFlight then 1 else 0)
      + Replies(Next(c, events[0]), events[1..], uuid)
  }

  /** One step of a run that conforms: a reply to the walk moves it on or ends
      it, and nothing else touches it. */
  lemma WalkStep(c: Client, e: Event, mib: Mib, uuid: Uuid, root: Oid)
    requires Sorted(mib) && Lifecycle(c) && Conforms(c, [e], mib, uuid) && uuid in c.asked
    requires Walking(c, mib, uuid, root) || Walked(c, mib, uuid, root)
    ensures var d := Next(c, e);
            var replies := if e.CallBack? && e.uuid == uuid && uuid in c.inFlight then 1 else 0;
            || Walked(d, mib, uuid, root)
            || (Walking(c, mib, uuid, root) && Walking(d, mib, uuid, root)
                && Progress(d, uuid) >= Progress(c, uuid) + replies)
  {
    hide Lifecycle, AfterCallback, GetBulk, WalkResult, At, Sorted;
    if e.uuid != uuid {
      OthersUntouched(c, e, uuid);
    } else if Possible(c, e) && Walking(c, mib, uuid, root) {
      var k :| 1 <= k <= MAX_REPETITIONS && e.vbs == GetBulk(mib, c.inFlight[uuid].oids[0], k);
      WalkRound(c, mib, uuid, root, k);
    }
  }

  lemma WalkedIsNotWalking(c: Client, mib: Mib, uuid: Uuid, root: Oid)
    ensures !(Walking(c, mib, uuid, root) && Walked(c, mib, uuid, root))
  {
  }

  /** Walk correctness over every interleaving: a walk that was started is still
      collecting in order, or was settled with the result it should come to,
      whatever batch sizes the agent chose and whatever other requests did. Every
      reply counts: a walk still collecting has got on by as many instances. */
  lemma {:induction false} WalkAmongOthers(c: Client, events: seq<Event>, mib: Mib, uuid: Uuid, root: Oid)
    requires Sorted(mib) && Lifecycle(c) && Conforms(c, events, mib, uuid)
    requires uuid in c.asked && (Walking(c, mib, uuid, root) || Walked(c, mib, uuid, root))
    ensures var d := Run(c, events);
            || Walked(d, mib, uuid, root)
            || (Walking(c, mib, uuid, root) && Walking(d, mib, uuid, root)
                && Progress(d, uuid) >= Progress(c, uuid) + Replies(c, events, uuid))
    decreases |events|
  {
    hide Lifecycle, Next, Walking, Walked, Sorted, Progress;
    if events == [] {
    } else {
      var e := events[0];
      NextKeepsLifecycle(c, e);
      StaysAsked(c, e, uuid);
      WalkStep(c, e, mib, uuid, root);
      WalkedIsNotWalking(Next(c, e), mib, uuid, root);
      WalkAmongOthers(Next(c, e), events[1..], mib, uuid, root);
    }
  }

  /** Termination over every interleaving: once the agent has replied to a walk
      more often than there are instances left to collect, it is settled. */
  lemma WalkEnds(c: Client, events: seq<Event>, mib: Mib, uuid: Uuid, root: Oid)
    requires Sorted(mib) && Lifecycle(c) && Conforms(c, events, mib, uuid)
    requires uuid in c.asked && Walking(c, mib, uuid, root)
    requires Progress(c, uuid) + Replies(c, events, uuid) > |SnmpAgent.Subtree(mib, root)|
    ensures Walked(Run(c, events), mib, uuid, root)
  {
    hide Lifecycle, Walking, Walked, Sorted, Progress;
    WalkAmongOthers(c, events, mib, uuid, root);
    if !Walked(Run(c, events), mib, uuid, root) {
      WalkingFacts(Run(c, events), mib, uuid, root);
    }
  }

  lemma EmptyLifecycle()
    ensures Lifecycle(EMPTY)
  {
  }

  /** A whole walk against the agent, which picks every batch size. It stops after
      at most one round more than there are instances to collect. */
  method Walk(mib: Mib, uuid: Uuid, host: IPv4, root: Oid, batch: nat -> nat) returns (reply: Reply, rounds: nat)
    requires Sorted(mib)
    requires forall i :: 1 <= batch(i) <= MAX_REPETITIONS
    ensures reply == WalkResult(mib, root)
    ensures 1 <= rounds <= |SnmpAgent.Subtree(mib, root)| + 1
  {
    hide Lifecycle, AfterCallback, GetBulk, WalkResult, Walking, Sorted;
    var client := new SnmpClient();
    EmptyLifecycle();
    WalkStarts(EMPTY, mib, uuid, host, root);
    NextKeepsLifecycle(EMPTY, AskWalk(uuid, host, root));
    client.WalkAsync(uuid, host, root);
    rounds := 0;
    WalkingFacts(client.Model(), mib, uuid, root);
    while uuid in client.inFlight
      invariant fresh(client) && Lifecycle(client.Model())
      invariant uuid in client.inFlight ==>
                  && Walking(client.Model(), mib, uuid, root) && uuid in client.pendingRequests
                  && |client.inFlight[uuid].oids| == 1
                  && rounds <= Progress(client.Model(), uuid) <= |SnmpAgent.Subtree(mib, root)|
      invariant uuid !in client.inFlight ==>
                  Walked(client.Model(), mib, uuid, root) && 1 <= rounds <= |SnmpAgent.Subtree(mib, root)| + 1
      decreases |SnmpAgent.Subtree(mib, root)| + 1 - rounds
    {
      var cursor := client.inFlight[uuid].oids[0];
      var vbs := GetBulk(mib, cursor, batch(rounds));
      WalkRound(client.Model(), mib, uuid, root, batch(rounds));
      NextKeepsLifecycle(client.Model(), CallBack(uuid, Answered, vbs));
      client.Callback(uuid, Answered, vbs);
      rounds := rounds + 1;
      if Walking(client.Model(), mib, uuid, root) {
        WalkingFacts(client.Model(), mib, uuid, root);
      }
    }
    reply := client.settled[uuid];
  }
}
