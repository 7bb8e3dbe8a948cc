/** The scanner's pending promises. A promise is identified by the number of the
    ping that issued it; `pings` and `outcomes` are histories: the host of every
    ping, and what became of every promise that is no longer pending. */
module IcmpScanner {
  import opened Wrappers
  import opened Bytes
  import opened IPv4Address
  import opened IPv4Text
  import opened MacAddress

  /** Clock ticks are nanoseconds. */
  const TIMEOUT: int := 5_000_000_000
  const MILLISECOND: int := 1_000_000

  datatype Headers = Headers(srcIp: IPv4, dstIp: IPv4, srcMac: Mac, dstMac: Mac, ttl: byte)

  /** A received packet; None when it has no Ethernet or no IPv4 layer. */
  datatype Packet = Packet(arrival: int, headers: Option<Headers>)

  datatype IcmpResponse = IcmpResponse(headers: Headers, responseTime: int)

  datatype IcmpError = IcmpError(dstIp: IPv4, error: ErrorType)

  datatype Request = Request(dstIp: IPv4, promise: nat, time: int)

  /** Set to a response, set to an error, or destroyed unset by a `later` ping. */
  datatype Outcome = Answered(response: IcmpResponse) | Expired(error: IcmpError) | Broken(later: nat)

  datatype Scanner = Scanner(pending: map<string, Request>, pings: seq<IPv4>, outcomes: map<nat, Outcome>)

  const IDLE := Scanner(map[], [], map[])

  /** `duration_cast<milliseconds>`: rounds toward zero. */
  function Milliseconds(ticks: int): int {
    if ticks >= 0 then ticks / MILLISECOND else -(-ticks / MILLISECOND)
  }

  predicate Overdue(r: Request, now: int) {
    now - r.time >= TIMEOUT
  }

  function Ping(s: Scanner, host: IPv4, now: int): Scanner {
    var key, p := ToString(host), |s.pings|;
    Scanner(
      s.pending[key := Request(host, p, now)],
      s.pings + [host],
      if key in s.pending then s.outcomes[s.pending[key].promise := Broken(p)] else s.outcomes)
  }

  function Receive(s: Scanner, packet: Packet): Scanner {
    if packet.headers.None? then s
    else
      var h := packet.headers.value;
      var key := ToString(h.srcIp);
      if key !in s.pending then s
      else
        var request := s.pending[key];
        var response := IcmpResponse(h, Milliseconds(packet.arrival - request.time));
        s.(pending := s.pending - {key}, outcomes := s.outcomes[request.promise := Answered(response)])
  }

  /** The promise of ping p is the one held for its host. */
  predicate IsPending(s: Scanner, p: nat)
    requires p < |s.pings|
  {
    ToString(s.pings[p]) in s.pending && s.pending[ToString(s.pings[p])].promise == p
  }

  /** Outcomes speak about the host that was pinged. */
  predicate Fitting(s: Scanner, p: nat, o: Outcome)
    requires p < |s.pings|
  {
    match o
    case Answered(response) => response.headers.srcIp == s.pings[p]
    case Expired(error) => error == IcmpError(s.pings[p], TimedOut)
    case Broken(q) => p < q < |s.pings| && s.pings[q] == s.pings[p]
  }

  predicate RequestsConsistent(s: Scanner) {
    forall k | k in s.pending ::
      var r := s.pending[k];
      r.promise < |s.pings| && s.pings[r.promise] == r.dstIp && ToString(r.dstIp) == k
  }

  /** Every issued promise is either pending or settled, never both, and settled
      with an outcome that fits. */
  ghost predicate Inv(s: Scanner) {
    && RequestsConsistent(s)
    && (forall p | p in s.outcomes :: p < |s.pings| && Fitting(s, p, s.outcomes[p]))
    && (forall p | 0 <= p < |s.pings| :: p !in s.outcomes <==> IsPending(s, p))
  }

  function OverdueKeys(s: Scanner, now: int): set<string> {
    set k | k in s.pending && Overdue(s.pending[k], now)
  }

  function TimedOutUnder(s: Scanner, due: set<string>): (m: map<nat, Outcome>)
    requires RequestsConsistent(s) && due <= s.pending.Keys
    ensures forall p :: p in m <==> exists k :: k in due && s.pending[k].promise == p
    ensures forall p | p in m :: p < |s.pings| && m[p] == Expired(IcmpError(s.pings[p], TimedOut))
  {
    map k | k in due :: s.pending[k].promise := Expired(IcmpError(s.pending[k].dstIp, TimedOut))
  }

  /** Settles and erases the requests under the keys `due`. */
  function SettleDue(s: Scanner, due: set<string>): (t: Scanner)
    requires Inv(s) && due <= s.pending.Keys
  {
    s.(pending := s.pending - due, outcomes := s.outcomes + TimedOutUnder(s, due))
  }

  /** `handleTimeouts`. */
  function Sweep(s: Scanner, now: int): (t: Scanner)
    requires Inv(s)
  {
    SettleDue(s, OverdueKeys(s, now))
  }

  /** Each key holds its own promise. */
  lemma HeldOnce(s: Scanner, j: string, k: string)
    requires RequestsConsistent(s) && j in s.pending && k in s.pending
    requires s.pending[j].promise == s.pending[k].promise
    ensures j == k
  {
    hide ToString;
  }

  lemma TimedOutOneMore(s: Scanner, due: set<string>, k: string)
    requires RequestsConsistent(s) && due <= s.pending.Keys && k in s.pending && k !in due
    ensures var r := s.pending[k];
            && r.promise !in TimedOutUnder(s, due)
            && TimedOutUnder(s, due + {k}) == TimedOutUnder(s, due)[r.promise := Expired(IcmpError(r.dstIp, TimedOut))]
  {
    hide ToString, TimedOutUnder;
    var r, m, n := s.pending[k], TimedOutUnder(s, due), TimedOutUnder(s, due + {k});
    forall j | j in due ensures s.pending[j].promise != r.promise {
      if s.pending[j].promise == r.promise {
        HeldOnce(s, j, k);
      }
    }
    forall p ensures p in n <==> p in m || p == r.promise {
      assert k in due + {k};
    }
    assert r.promise in n && s.pings[r.promise] == r.dstIp;
  }

  lemma UpdateAfterMerge<K, V>(m: map<K, V>, n: map<K, V>, k: K, v: V)
    ensures m + n[k := v] == (m + n)[k := v]
  {
  }

  lemma NoneTimedOut(s: Scanner)
    requires RequestsConsistent(s)
    ensures TimedOutUnder(s, {}) == map[]
  {
    hide ToString, TimedOutUnder, RequestsConsistent;
    assert forall p :: p !in TimedOutUnder(s, {});
  }

  lemma SettleNone(s: Scanner)
    requires Inv(s)
    ensures SettleDue(s, {}) == s
  {
    hide ToString, TimedOutUnder;
    NoneTimedOut(s);
    assert s.pending - {} == s.pending;
    assert s.outcomes + map[] == s.outcomes;
  }

  /** The loop body of `handleTimeouts`: one more request, still unsettled. */
  lemma SettleOneMore(s: Scanner, due: set<string>, k: string)
    requires Inv(s) && due <= s.pending.Keys && k in s.pending && k !in due
    ensures var t, r := SettleDue(s, due), s.pending[k];
            && k in t.pending && t.pending[k] == r && r.promise !in t.outcomes && r.promise < |t.pings|
            && SettleDue(s, due + {k}) == t.(pending := t.pending - {k},
                 outcomes := t.outcomes[r.promise := Expired(IcmpError(r.dstIp, TimedOut))])
  {
    hide ToString;
    var t, r := SettleDue(s, due), s.pending[k];
    TimedOutOneMore(s, due, k);
    assert IsPending(s, r.promise);
    assert s.pending - (due + {k}) == s.pending - due - {k};
    UpdateAfterMerge(s.outcomes, TimedOutUnder(s, due), r.promise, Expired(IcmpError(r.dstIp, TimedOut)));
  }

  lemma PingKeepsInv(s: Scanner, host: IPv4, now: int)
    requires Inv(s)
    ensures Inv(Ping(s, host, now))
  {
    hide ToString;
    var key, t := ToString(host), Ping(s, host, now);
    if key in s.pending {
      ToStringInjective(s.pending[key].dstIp, host);
    }
    forall p | p in t.outcomes ensures p < |t.pings| && Fitting(t, p, t.outcomes[p]) {
      assert p in s.outcomes || p == s.pending[key].promise;
    }
    forall p | 0 <= p < |t.pings| ensures p !in t.outcomes <==> IsPending(t, p) {
      if p < |s.pings| {
        ToStringInjective(s.pings[p], host);
        assert p !in s.outcomes <==> IsPending(s, p);
      }
    }
  }

  lemma ReceiveKeepsInv(s: Scanner, packet: Packet)
    requires Inv(s)
    ensures Inv(Receive(s, packet))
  {
    hide ToString;
    if packet.headers.Some? {
      var host := packet.headers.value.srcIp;
      var t := Receive(s, packet);
      if ToString(host) in s.pending {
        ToStringInjective(s.pending[ToString(host)].dstIp, host);
      }
      forall p | 0 <= p < |t.pings| ensures p !in t.outcomes <==> IsPending(t, p) {
        ToStringInjective(s.pings[p], host);
      }
    }
  }

  /** The sweep settles exactly the promises of the overdue requests. */
  lemma SweepSettles(s: Scanner, now: int, p: nat)
    requires Inv(s) && p < |s.pings|
    ensures var t := Sweep(s, now);
            p in t.outcomes <==> p in s.outcomes || (IsPending(s, p) && Overdue(s.pending[ToString(s.pings[p])], now))
  {
  }

  lemma SweepFits(s: Scanner, now: int, p: nat)
    requires Inv(s) && p in Sweep(s, now).outcomes
    ensures p < |s.pings| && Fitting(Sweep(s, now), p, Sweep(s, now).outcomes[p])
  {
    hide ToString, IsPending, TimedOutUnder, RequestsConsistent;
  }

  lemma SweepKeepsInv(s: Scanner, now: int)
    requires Inv(s)
    ensures Inv(Sweep(s, now))
  {
    hide ToString, TimedOutUnder;
    var t := Sweep(s, now);
    forall p | p in t.outcomes ensures p < |t.pings| && Fitting(t, p, t.outcomes[p]) {
      SweepFits(s, now, p);
    }
    forall p | 0 <= p < |t.pings| ensures p !in t.outcomes <==> IsPending(t, p) {
      SweepSettles(s, now, p);
      assert p !in s.outcomes <==> IsPending(s, p);
    }
  }

  datatype ScannerEvent = PingAsync(host: IPv4, now: int) | PacketReceived(packet: Packet) | HandleTimeouts(now: int)

  function Step(s: Scanner, e: ScannerEvent): Scanner
    requires Inv(s)
  {
    match e
    case PingAsync(host, now) => Ping(s, host, now)
    case PacketReceived(packet) => Receive(s, packet)
    case HandleTimeouts(now) => Sweep(s, now)
  }

  lemma StepKeepsInv(s: Scanner, e: ScannerEvent)
    requires Inv(s)
    ensures Inv(Step(s, e))
  {
    match e
    case PingAsync(host, now) => PingKeepsInv(s, host, now);
    case PacketReceived(packet) => ReceiveKeepsInv(s, packet);
    case HandleTimeouts(now) => SweepKeepsInv(s, now);
  }

  /** A settled promise is never settled again. */
  lemma StepKeepsOutcomes(s: Scanner, e: ScannerEvent, p: nat)
    requires Inv(s) && p in s.outcomes
    ensures p in Step(s, e).outcomes && Step(s, e).outcomes[p] == s.outcomes[p]
  {
    hide ToString;
    assert !IsPending(s, p);
  }

  function Run(s: Scanner, events: seq<ScannerEvent>): (t: Scanner)
    requires Inv(s)
    ensures Inv(t)
    decreases |events|
  {
    if events == [] then s
    else
      StepKeepsInv(s, events[0]);
      Run(Step(s, events[0]), events[1..])
  }

  lemma {:induction false} OutcomesAreFinal(s: Scanner, events: seq<ScannerEvent>, p: nat)
    requires Inv(s) && p in s.outcomes
    ensures p in Run(s, events).outcomes && Run(s, events).outcomes[p] == s.outcomes[p]
    decreases |events|
  {
    if events == [] {
    } else {
      StepKeepsInv(s, events[0]);
      StepKeepsOutcomes(s, events[0], p);
      OutcomesAreFinal(Step(s, events[0]), events[1..], p);
    }
  }

  function Below(n: nat): (r: set<nat>)
    ensures |r| == n && forall p: nat :: p in r <==> p < n
  {
    if n == 0 then {} else Below(n - 1) + {n - 1}
  }

  lemma {:induction false} SizeOfInjectiveMap(m: map<string, nat>)
    requires forall j, k :: j in m && k in m && m[j] == m[k] ==> j == k
    ensures |m.Values| == |m|
  {
    if m == map[] {
    } else {
      var k :| k in m;
      var rest := m - {k};
      SizeOfInjectiveMap(rest);
      forall v ensures v in m.Values <==> v in rest.Values + {m[k]} {
        if v in m.Values {
          var j :| j in m && m[j] == v;
          assert j == k || (j in rest && rest[j] == v);
        }
      }
      assert m.Values == rest.Values + {m[k]};
      assert m[k] !in rest.Values;
    }
  }

  function Answers(s: Scanner): set<nat> {
    set p | p in s.outcomes && s.outcomes[p].Answered?
  }

  function Timeouts(s: Scanner): set<nat> {
    set p | p in s.outcomes && s.outcomes[p].Expired?
  }

  function Breaks(s: Scanner): set<nat> {
    set p | p in s.outcomes && s.outcomes[p].Broken?
  }

  lemma OutcomeKinds(s: Scanner)
    ensures |s.outcomes| == |Answers(s)| + |Timeouts(s)| + |Breaks(s)|
  {
    assert s.outcomes.Keys == Answers(s) + Timeouts(s) + Breaks(s);
    assert |s.outcomes.Keys| == |Answers(s) + Timeouts(s)| + |Breaks(s)|;
  }

  function Held(s: Scanner): map<string, nat> {
    map k | k in s.pending :: s.pending[k].promise
  }

  lemma HeldIsUnsettled(s: Scanner, p: nat)
    requires Inv(s)
    ensures p in Held(s).Values <==> p < |s.pings| && p !in s.outcomes
    ensures p in s.outcomes ==> p < |s.pings|
  {
    hide ToString;
    var held := Held(s);
    if p < |s.pings| && IsPending(s, p) {
      assert held[ToString(s.pings[p])] == p;
    }
    if p in held.Values {
      var k :| k in held && held[k] == p;
      assert IsPending(s, p);
    }
  }

  lemma HeldIsInjective(s: Scanner)
    requires Inv(s)
    ensures Held(s).Keys == s.pending.Keys && |Held(s).Values| == |s.pending|
  {
    hide ToString;
    SizeOfInjectiveMap(Held(s));
    assert Held(s).Keys == s.pending.Keys;
  }

  lemma TwoParts(held: set<nat>, settled: set<nat>, n: nat)
    requires forall p: nat :: p in held <==> p < n && p !in settled
    requires forall p: nat :: p in settled ==> p < n
    ensures held !! settled && Below(n) == held + settled
  {
  }

  lemma HeldOrSettled(s: Scanner)
    requires Inv(s)
    ensures |Held(s).Values| == |s.pending|
    ensures Held(s).Values !! s.outcomes.Keys
    ensures Below(|s.pings|) == Held(s).Values + s.outcomes.Keys
  {
    hide ToString, Inv, Held;
    forall p: nat ensures p in Held(s).Values <==> p < |s.pings| && p !in s.outcomes
                  ensures p in s.outcomes ==> p < |s.pings| {
      HeldIsUnsettled(s, p);
    }
    TwoParts(Held(s).Values, s.outcomes.Keys, |s.pings|);
    HeldIsInjective(s);
  }

  /** The counts add up: pings made are pings pending, answered, timed out or
      broken. */
  lemma CountsAddUp(s: Scanner)
    requires Inv(s)
    ensures |s.pings| == |s.pending| + |Answers(s)| + |Timeouts(s)| + |Breaks(s)|
  {
    hide ToString;
    HeldOrSettled(s);
    assert |Held(s).Values + s.outcomes.Keys| == |Held(s).Values| + |s.outcomes.Keys|;
    OutcomeKinds(s);
  }

  /** Over every run: each promise issued is in exactly one of pending, answered,
      timed out and broken by a later ping of the same host. */
  lemma PromiseConservation(events: seq<ScannerEvent>, p: nat)
    requires p < |Run(IDLE, events).pings|
    ensures var s := Run(IDLE, events);
            && (IsPending(s, p) <==> p !in s.outcomes)
            && (p in s.outcomes ==> Fitting(s, p, s.outcomes[p]))
            && |s.pings| == |s.pending| + |Answers(s)| + |Timeouts(s)| + |Breaks(s)|
  {
    CountsAddUp(Run(IDLE, events));
  }

  /** No step touches the request of a host it is not about; the sweep takes
      away exactly the requests that are five seconds old or older. */
  lemma OneHostAtATime(s: Scanner, host: IPv4, packet: Packet, now: int, other: IPv4)
    requires Inv(s)
    ensures other != host ==> Lookup(Ping(s, host, now).pending, other) == Lookup(s.pending, other)
    ensures packet.headers.None? || packet.headers.value.srcIp != other ==>
              Lookup(Receive(s, packet).pending, other) == Lookup(s.pending, other)
    ensures Lookup(Sweep(s, now).pending, other) ==
            match Lookup(s.pending, other)
            case None => None
            case Some(r) => if now - r.time >= 5_000_000_000 then None else Some(r)
  {
    hide ToString;
    ToStringInjective(host, other);
    if packet.headers.Some? {
      ToStringInjective(packet.headers.value.srcIp, other);
    }
  }

  /** A ping settles one promise at most: the one pending for the same host, which
      it breaks. */
  lemma PingBreaksOnlyItsHost(s: Scanner, host: IPv4, sent: int, q: nat)
    requires Inv(s) && q < |s.pings|
    ensures var t := Ping(s, host, sent);
            && t.pings == s.pings + [host] && Lookup(t.pending, host) == Some(Request(host, |s.pings|, sent))
            && (q in t.outcomes <==> q in s.outcomes || s.pings[q] == host)
            && (q in t.outcomes && q !in s.outcomes ==> t.outcomes[q] == Broken(|s.pings|))
  {
    hide ToString;
    ToStringInjective(s.pings[q], host);
    if ToString(host) in s.pending {
      ToStringInjective(s.pending[ToString(host)].dstIp, host);
    }
    assert q !in s.outcomes <==> IsPending(s, q);
  }

  lemma PendingIsUnsettled(s: Scanner, p: nat)
    requires Inv(s) && p < |s.pings|
    ensures p !in s.outcomes <==> Lookup(s.pending, s.pings[p]).Some? && Lookup(s.pending, s.pings[p]).value.promise == p
  {
    hide ToString;
    assert p !in s.outcomes <==> IsPending(s, p);
  }

  /** `ms` is the number of whole milliseconds in `ticks`, toward zero. */
  ghost predicate WholeMilliseconds(ms: int, ticks: int) {
    && -1_000_000 < ticks - 1_000_000 * ms < 1_000_000
    && (ticks >= 0 ==> 1_000_000 * ms <= ticks)
    && (ticks <= 0 ==> 1_000_000 * ms >= ticks)
  }

  lemma MillisecondsAreWhole(ticks: int)
    ensures WholeMilliseconds(Milliseconds(ticks), ticks)
  {
  }

  lemma HolderOfHost(s: Scanner, host: IPv4)
    requires Inv(s) && Lookup(s.pending, host).Some?
    ensures var r := Lookup(s.pending, host).value;
            r.promise < |s.pings| && s.pings[r.promise] == host && r.promise !in s.outcomes
  {
    hide ToString;
    var r := Lookup(s.pending, host).value;
    ToStringInjective(r.dstIp, host);
    PendingIsUnsettled(s, r.promise);
  }

  /** A reply from a host with a request answers the promise of that request, with
      the reply's own headers, and takes the request away; any other packet
      changes nothing. */
  lemma ReplyAnswers(s: Scanner, packet: Packet)
    requires Inv(s)
    ensures var t := Receive(s, packet);
            var entry := if packet.headers.Some? then Lookup(s.pending, packet.headers.value.srcIp) else None;
            match entry
            case None => t == s
            case Some(r) =>
              && t.pings == s.pings && r.promise !in s.outcomes
              && r.promise < |s.pings| && s.pings[r.promise] == packet.headers.value.srcIp
              && r.promise in t.outcomes && t.outcomes == s.outcomes[r.promise := t.outcomes[r.promise]]
              && t.outcomes[r.promise].Answered? && t.outcomes[r.promise].response.headers == packet.headers.value
              && WholeMilliseconds(t.outcomes[r.promise].response.responseTime, packet.arrival - r.time)
              && Lookup(t.pending, packet.headers.value.srcIp) == None
              && (forall a :: a != packet.headers.value.srcIp ==> Lookup(t.pending, a) == Lookup(s.pending, a))
  {
    hide ToString, Inv, Milliseconds, WholeMilliseconds;
    if packet.headers.Some? {
      var host := packet.headers.value.srcIp;
      if Lookup(s.pending, host).Some? {
        HolderOfHost(s, host);
        MillisecondsAreWhole(packet.arrival - Lookup(s.pending, host).value.time);
      }
      forall a | a != host ensures Lookup(Receive(s, packet).pending, a) == Lookup(s.pending, a) {
        ToStringInjective(a, host);
      }
    }
  }

  lemma InvParts(s: Scanner)
    requires Inv(s)
    ensures RequestsConsistent(s)
  {
  }

  /** Between s and t, pending promises expired exactly when their request was five
      seconds old or older, each with an error that names its host. */
  ghost predicate ExpiredByAge(s: Scanner, t: Scanner, now: int) {
    && t.pings == s.pings
    && forall p: nat | p < |s.pings| && p !in s.outcomes ::
         var entry := Lookup(s.pending, s.pings[p]);
         && entry.Some?
         && (p in t.outcomes <==> now - entry.value.time >= 5_000_000_000)
         && (p in t.outcomes ==> t.outcomes[p] == Expired(IcmpError(s.pings[p], TimedOut)))
  }

  lemma SweepExpires(s: Scanner, now: int)
    requires Inv(s)
    ensures ExpiredByAge(s, Sweep(s, now), now)
  {
    hide ToString, Inv, TimedOutUnder;
    InvParts(s);
    forall p: nat | p < |s.pings| && p !in s.outcomes
      ensures var entry, t := Lookup(s.pending, s.pings[p]), Sweep(s, now);
              && entry.Some?
              && (p in t.outcomes <==> now - entry.value.time >= 5_000_000_000)
              && (p in t.outcomes ==> t.outcomes[p] == Expired(IcmpError(s.pings[p], TimedOut)))
    {
      PendingIsUnsettled(s, p);
      SweepSettles(s, now, p);
    }
  }

  /** After a ping its promise is pending; a reply from the host answers it with
      the time since it was sent, and a sweep expires it exactly when five
      seconds have passed. */
  lemma PingThenReply(s: Scanner, host: IPv4, sent: int, packet: Packet, now: int)
    requires Inv(s) && packet.headers.Some? && packet.headers.value.srcIp == host
    ensures var p, t := |s.pings|, Ping(s, host, sent);
            var answered := Receive(t, packet);
            && Inv(t) && p !in t.outcomes
            && p in answered.outcomes && answered.outcomes[p].Answered?
            && answered.outcomes[p].response.headers == packet.headers.value
            && WholeMilliseconds(answered.outcomes[p].response.responseTime, packet.arrival - sent)
            && Lookup(answered.pending, host) == None
            && (p in Sweep(t, now).outcomes <==> now - sent >= 5_000_000_000)
            && (p in Sweep(t, now).outcomes ==> Sweep(t, now).outcomes[p] == Expired(IcmpError(host, TimedOut)))
  {
    hide ToString, Inv, Sweep, Receive, WholeMilliseconds;
    var t := Ping(s, host, sent);
    PingKeepsInv(s, host, sent);
    PendingIsUnsettled(t, |s.pings|);
    ReplyAnswers(t, packet);
    SweepExpires(t, now);
  }

  class IcmpScanner {
    var pendingRequests: map<string, Request>
    var issued: nat  // identifies the next promise object
    ghost var pings: seq<IPv4>
    ghost var outcomes: map<nat, Outcome>

    ghost function Model(): Scanner
      reads this
    {
      Scanner(pendingRequests, pings, outcomes)
    }

    ghost predicate Valid()
      reads this
    {
      Inv(Model()) && issued == |pings|
    }

    constructor ()
      ensures Valid() && Model() == IDLE
    {
      pendingRequests, issued, pings, outcomes := map[], 0, [], map[];
    }

    /** `promise::set_value`, which throws on a satisfied promise. */
    ghost method SetValue(promise: nat, outcome: Outcome)
      requires promise < |pings| && promise !in outcomes
      modifies this`outcomes
      ensures outcomes == old(outcomes)[promise := outcome]
    {
      outcomes := outcomes[promise := outcome];
    }

    /** Returns the future of the new promise; the promise move-assigned over, if
        any, is destroyed. */
    method PingAsync(host: IPv4, now: int) returns (future: nat)
      requires Valid()
      modifies this
      ensures Valid() && Model() == Ping(old(Model()), host, now)
      ensures future == old(|pings|)
    {
      PingKeepsInv(Model(), host, now);
      future := issued;
      if ToString(host) in pendingRequests {
        ghost var overwritten := pendingRequests[ToString(host)].promise;
        assert IsPending(Model(), overwritten);
        SetValue(overwritten, Broken(future));
      }
      pings := pings + [host];
      issued := issued + 1;
      pendingRequests := pendingRequests[ToString(host) := Request(host, future, now)];
    }

    method OnPacketReceived(packet: Packet)
      requires Valid()
      modifies this
      ensures Valid() && Model() == Receive(old(Model()), packet)
    {
      hide ToString;
      ReceiveKeepsInv(Model(), packet);
      if packet.headers.None? {
        return;
      }
      var h := packet.headers.value;
      var key := ToString(h.srcIp);
      if key in pendingRequests {
        var request := pendingRequests[key];
        var responseTime := Milliseconds(packet.arrival - request.time);
        assert IsPending(Model(), request.promise);
        SetValue(request.promise, Answered(IcmpResponse(h, responseTime)));
        pendingRequests := pendingRequests - {key};
      }
    }

    /** The sweep of the map, one entry at a time; the order does not matter. */
    method SweepTimeouts(now: int)
      requires Valid()
      modifies this
      ensures Valid() && Model() == Sweep(old(Model()), now)
    {
      hide ToString, Inv, SettleDue;
      ghost var before := Model();
      ghost var overdue := OverdueKeys(before, now);
      SweepKeepsInv(before, now);
      SettleNone(before);
      var todo := pendingRequests.Keys;
      ghost var due := {};
      while todo != {}
        invariant todo <= before.pending.Keys && due <= overdue && todo !! due
        invariant overdue <= due + todo
        invariant Model() == SettleDue(before, due)
        invariant pings == before.pings && issued == old(issued)
        decreases todo
      {
        var key :| key in todo;
        SettleOneMore(before, due, key);
        var request := pendingRequests[key];
        if now - request.time >= TIMEOUT {
          SetValue(request.promise, Expired(IcmpError(request.dstIp, TimedOut)));
          pendingRequests := pendingRequests - {key};
          due := due + {key};
        }
        todo := todo - {key};
      }
      assert due == overdue;
    }

    method HasPendingRequests() returns (r: bool)
      ensures r <==> pendingRequests != map[]
    {
      r := pendingRequests != map[];
    }
  }
}
