/** What holds over every run of the discovery protocol. */
module DiscoveryProtocol {
  import opened Wrappers
  import opened IPv4Address
  import opened IPv4Text
  import opened IcmpScanner
  import opened DeviceDiscoveryTask
  import opened Discovery
  import R = TaskRunner

  function History(events: seq<Event>): (s: State)
    ensures Consistent(s)
  {
    InitialConsistent();
    Play(INITIAL, events)
  }

  /** The callbacks made so far about promise p. */
  function Callbacks(s: State, p: nat): nat {
    multiset(Promises(s.callbacks))[p]
  }

  lemma TokensOfTask(s: State, t: Task)
    requires Consistent(s)
    ensures R.Tokens(s.runner)[t] + s.runner.ends[t] + s.runner.lost[t] == s.runner.posts[t]
    ensures Live(s) ==> s.runner.lost[t] == 0
    ensures s.runner.running == Some(t) ==> R.Tokens(s.runner)[t] > 0
  {
    assert s.runner.posts[t] == (R.Tokens(s.runner) + s.runner.ends + s.runner.lost)[t];
  }

  /** What a callback about promise p says, given what became of the promise and
      which host was pinged. A success is in request order: from the pinger, to
      which the reply was addressed, to the pinged host. */
  ghost predicate Faithful(s: Scanner, c: Callback)
    requires c.promise < |s.pings| && c.promise in s.outcomes
  {
    var host := s.pings[c.promise];
    match s.outcomes[c.promise]
    case Answered(response) =>
      var h := response.headers;
      && h.srcIp == host
      && c.report.Filed? && c.report.under == h.dstIp && c.report.result.Success?
      && var r := c.report.result.value;
         && r.srcIp == h.dstIp && r.srcMac == Some(h.dstMac)
         && r.dstIp == host && r.dstMac == Some(h.srcMac)
         && r.ttl == h.ttl && r.responseTime == response.responseTime && r.completedAt == c.at
    case Expired(_) =>
      && c.report.Filed? && c.report.under == host && c.report.result.Failure?
      && c.report.result.error.dstIp == host && c.report.result.error.completedAt == c.at
    case Broken(q) => c.report == Raised && c.promise < q < |s.pings| && s.pings[q] == host
  }

  lemma EndsAreCallbacks(s: State, p: nat)
    requires Consistent(s)
    ensures Callbacks(s, p) == s.runner.ends[Resolve(p)]
    ensures s.runner.posts[Resolve(p)] == if p in s.posted then 1 else 0
  {
  }

  lemma CallbackIsFaithful(s: State, i: nat)
    requires Consistent(s) && i < |s.callbacks|
    ensures var c := s.callbacks[i];
            c.promise in s.scanner.outcomes && c.promise < |s.scanner.pings| && Faithful(s.scanner, c)
  {
    hide ToString, RunnerConsistent, LastPollThere;
    var c := s.callbacks[i];
    assert Reported(s.scanner, c);
    assert Fitting(s.scanner, c.promise, s.scanner.outcomes[c.promise]);
  }

  /** End to end: a posted resolver has one token and made no callback, or has
      none and made exactly one, which tells the fate of its promise. On a runner
      that was stopped the token may be lost instead, never duplicated. */
  lemma ResolverReportsOnce(events: seq<Event>, p: nat)
    ensures var s := History(events);
            var tokens := R.Tokens(s.runner)[Resolve(p)];
            && (p in s.posted && Live(s) ==> tokens + Callbacks(s, p) == 1)
            && (p in s.posted ==> tokens + Callbacks(s, p) <= 1)
            && (p !in s.posted ==> tokens == 0 && Callbacks(s, p) == 0)
            && (s.runner.running == Some(Resolve(p)) ==> Callbacks(s, p) == 0)
    ensures var s := History(events);
            forall i :: 0 <= i < |s.callbacks| ==>
              var c := s.callbacks[i];
              c.promise in s.scanner.outcomes && c.promise < |s.scanner.pings| && Faithful(s.scanner, c)
  {
    hide R.Tokens, ToString, Faithful;
    var s := History(events);
    TokensOfTask(s, Resolve(p));
    EndsAreCallbacks(s, p);
    forall i | 0 <= i < |s.callbacks|
      ensures var c := s.callbacks[i];
              c.promise in s.scanner.outcomes && c.promise < |s.scanner.pings| && Faithful(s.scanner, c)
    {
      CallbackIsFaithful(s, i);
    }
  }

  /** Event e makes callback c: it ends a run of the callback's resolver, at the
      time the callback says and with what was then known of its promise. */
  ghost predicate Makes(s: State, e: Event, c: Callback) {
    && e == Finish(c.at) && s.runner.running == Some(Resolve(c.promise))
    && c.promise in s.scanner.outcomes && c.promise < |s.scanner.pings| && Faithful(s.scanner, c)
  }

  /** Callback number i was made by step k. */
  ghost predicate MadeAt(s: State, events: seq<Event>, k: nat, i: nat)
    requires Consistent(s) && k < |events| && i < |Play(s, events).callbacks|
  {
    var before := Play(s, events[..k]);
    |before.callbacks| == i && Makes(before, events[k], Play(s, events).callbacks[i])
  }

  lemma ReportStep(s: State, e: Event)
    requires Inv(s.scanner)
    ensures var t := Next(s, e);
            || t.callbacks == s.callbacks
            || (&& e.Finish? && t.scanner == s.scanner && |t.callbacks| == |s.callbacks| + 1 && s.callbacks <= t.callbacks
                && t.callbacks[|s.callbacks|].at == e.now
                && s.runner.running == Some(Resolve(t.callbacks[|s.callbacks|].promise)))
  {
    hide Inv, R.Resolve, R.Step;
  }

  lemma CallbackStep(s: State, e: Event)
    requires Consistent(s)
    ensures Inv(s.scanner) && Consistent(Next(s, e))
    ensures var t := Next(s, e);
            || t.callbacks == s.callbacks
            || (&& |t.callbacks| == |s.callbacks| + 1 && s.callbacks <= t.callbacks
                && Makes(s, e, t.callbacks[|s.callbacks|]))
  {
    hide Consistent, Next, Faithful;
    NowSound(s);
    NextKeeps(s, e);
    ReportStep(s, e);
    if |s.callbacks| < |Next(s, e).callbacks| {
      CallbackIsFaithful(Next(s, e), |s.callbacks|);
    }
  }

  lemma {:induction false} CallbacksGrow(s: State, events: seq<Event>)
    requires Consistent(s)
    ensures s.callbacks <= Play(s, events).callbacks
    decreases |events|
  {
    hide Consistent, Next, Makes;
    if events == [] {
    } else {
      CallbackStep(s, events[0]);
      CallbacksGrow(Next(s, events[0]), events[1..]);
    }
  }

  /** Every callback was made by a run of its resolver, which reported its own
      clock and the settled promise it saw. */
  lemma {:induction false} CallbackMadeByRun(s: State, events: seq<Event>, i: nat) returns (k: nat)
    requires Consistent(s) && |s.callbacks| <= i < |Play(s, events).callbacks|
    ensures k < |events| && MadeAt(s, events, k, i)
    decreases |events|
  {
    hide Consistent, Next, Makes;
    CallbackStep(s, events[0]);
    var t := Next(s, events[0]);
    if i < |t.callbacks| {
      k := 0;
      CallbacksGrow(t, events[1..]);
      assert events[..0] == [];
    } else {
      var j := CallbackMadeByRun(t, events[1..], i);
      k := j + 1;
      assert events[..k][1..] == events[1..][..j];
    }
  }

  lemma FiledReads(results: Results, report: Report)
    ensures forall a :: Lookup(File(results, report), a) ==
              if report.Filed? && report.under == a then Some(report.result) else Lookup(results, a)
  {
    hide ToString;
    if report.Filed? {
      forall a: IPv4 {
        KeyedByAddress(results, report.under, report.result, a);
      }
    }
  }

  /** The run of a resolver whose promise is settled is its last: it makes one
      callback, which is faithful, and the result can be read under its address,
      as can everything else that could before. Otherwise the run does nothing,
      and a timer of one second holds the resolver. */
  lemma SettledResolverEnds(s: State, p: nat, now: int)
    requires Consistent(s) && s.runner.running == Some(Resolve(p))
    ensures var t := Next(s, Finish(now));
            && t.scanner == s.scanner && t.queue == s.queue && t.runner.ready == s.runner.ready
            && if p in s.scanner.outcomes
               then
                 && Callbacks(t, p) == 1 && R.Tokens(t.runner)[Resolve(p)] == 0
                 && t.runner.timers == s.runner.timers
                 && |t.callbacks| == |s.callbacks| + 1
                 && var c := t.callbacks[|s.callbacks|];
                    && t.callbacks == s.callbacks + [c] && c.promise == p && c.at == now
                    && p < |s.scanner.pings| && Faithful(s.scanner, c)
                    && forall a :: Lookup(t.results, a) ==
                         if c.report.Filed? && c.report.under == a then Some(c.report.result) else Lookup(s.results, a)
               else
                 && Callbacks(t, p) == 0 && t.callbacks == s.callbacks && t.results == s.results
                 && t.runner.timers == s.runner.timers + [R.Timer(Resolve(p), 1000)]
  {
    hide R.Tokens, Inv, ToString, Consistent, Faithful;
    NowSound(s);
    var t := Next(s, Finish(now));
    NextKeeps(s, Finish(now));
    TokensOfTask(s, Resolve(p));
    TokensOfTask(t, Resolve(p));
    EndsAreCallbacks(s, p);
    EndsAreCallbacks(t, p);
    if p in s.scanner.outcomes {
      CallbackIsFaithful(t, |s.callbacks|);
      FiledReads(s.results, ReportOf(s.scanner.outcomes[p], now));
    }
  }

  predicate NoStart(events: seq<Event>) {
    forall i :: 0 <= i < |events| ==> !events[i].StartScanning?
  }

  /** That run changes nothing but the runner and leaves no token, so the wait
      loop of stopScanning finds the task gone. */
  lemma LastPollRun(s: State, n: nat, now: int)
    requires Consistent(s) && s.runner.running == Some(Poll(n)) && !s.flagSeen && n < s.polls
    ensures var t := Next(s, Finish(now));
            R.Tokens(t.runner)[Poll(n)] == 0 && t == s.(runner := t.runner)
  {
    hide Inv, ToString, R.Tokens;
    NextKeeps(s, Finish(now));
    TokensOfTask(s, Poll(n));
    TokensOfTask(Next(s, Finish(now)), Poll(n));
  }

  /** How often polling task n is taken for a run. */
  function PollBegins(s: State, events: seq<Event>, n: nat): nat
    requires Consistent(s)
    decreases |events|
  {
    if events == [] then 0
    else
      NextKeeps(s, events[0]);
      (if events[0].Begin? && R.CanBegin(s.runner) && s.runner.ready[0] == Poll(n) then 1 else 0)
      + PollBegins(Next(s, events[0]), events[1..], n)
  }

  /** Runs polling task n may still begin once the flag is down: none when it has
      no token or is in a run that will end. */
  ghost function Budget(s: State, n: nat): (b: nat)
    ensures b <= 1
  {
    if R.Tokens(s.runner)[Poll(n)] == 0 || (s.runner.running == Some(Poll(n)) && !s.flagSeen) then 0 else 1
  }

  lemma FinishThread(s: State, now: int)
    requires Inv(s.scanner)
    ensures var t := Next(s, Finish(now));
            && t.polls == s.polls && t.running == s.running && t.flagSeen == s.flagSeen
            && t.runner.running == None
            && s.runner.lost <= t.runner.lost && s.runner.ends <= t.runner.ends
            && (s.runner.running.Some? && s.runner.running.value.Poll? && !s.flagSeen ==> t == s.(runner := t.runner))
  {
    hide Inv;
    if s.runner.running.Some? {
      R.StepHistories(s.runner, R.Finish(RunTask(s, s.runner.running.value, now).1));
    }
  }

  /** What a step that starts no scanning does to thread and flag. */
  lemma ThreadStep(s: State, e: Event)
    requires Inv(s.scanner) && !e.StartScanning? && !e.Finish?
    ensures var t := Next(s, e);
            && t.polls == s.polls && (t.running ==> s.running)
            && s.runner.lost <= t.runner.lost && s.runner.ends == t.runner.ends
            && (!e.Begin? ==> t.runner.running == s.runner.running && t.flagSeen == s.flagSeen)
            && (e.Begin? && R.CanBegin(s.runner) ==> t.runner.running == Some(s.runner.ready[0]) && t.flagSeen == s.running)
            && (e.Begin? && !R.CanBegin(s.runner) ==> t == s)
  {
    hide Inv;
    match e
    case PostResolver(p) => R.StepHistories(s.runner, R.Post(Resolve(p)));
    case TimerExpires(index) => R.StepHistories(s.runner, R.Expire(index));
    case _ =>
  }

  lemma BudgetStep(s: State, e: Event, n: nat)
    requires Consistent(s) && !s.running && !e.StartScanning? && n < s.polls
    ensures var begins := if e.Begin? && R.CanBegin(s.runner) && s.runner.ready[0] == Poll(n) then 1 else 0;
            var t := Next(s, e);
            Consistent(t) && !t.running && t.polls == s.polls && begins + Budget(t, n) <= Budget(s, n)
  {
    hide Inv, Next, R.Tokens, CallbacksConsistent, LastPollThere;
    NowSound(s);
    var t := Next(s, e);
    NextKeeps(s, e);
    TokensOfTask(s, Poll(n));
    TokensOfTask(t, Poll(n));
    if e.Finish? {
      FinishThread(s, e.now);
      if s.runner.running == Some(Poll(n)) && !s.flagSeen {
        LastPollRun(s, n, e.now);
      }
    } else {
      ThreadStep(s, e);
      if R.CanBegin(s.runner) {
        R.ReadyTaskHasToken(s.runner);
      }
    }
    assert R.Tokens(t.runner)[Poll(n)] <= R.Tokens(s.runner)[Poll(n)];
  }

  /** Once the flag is down, every polling task begins at most one more run, and
      none if it has no token or is already in its last one. */
  lemma {:induction false} AtMostOneMoreRun(s: State, events: seq<Event>, n: nat)
    requires Consistent(s) && !s.running && NoStart(events) && n < s.polls
    ensures PollBegins(s, events, n) + Budget(Play(s, events), n) <= Budget(s, n) <= 1
    decreases |events|
  {
    hide Consistent, Next, Budget;
    if events == [] {
    } else {
      NowSound(s);
      BudgetStep(s, events[0], n);
      AtMostOneMoreRun(Next(s, events[0]), events[1..], n);
    }
  }

  /** Nothing was received or swept between s and t. */
  ghost predicate Untouched(s: State, t: State) {
    && s.queue <= t.queue
    && (forall p :: p in s.scanner.outcomes ==> p in t.scanner.outcomes && t.scanner.outcomes[p] == s.scanner.outcomes[p])
    && (forall p :: p in t.scanner.outcomes && p !in s.scanner.outcomes ==> t.scanner.outcomes[p].Broken?)
  }

  lemma PingTouchesNothingElse(s: State, host: IPv4, now: int)
    requires Inv(s.scanner)
    ensures Untouched(s, Next(s, PingHost(host, now)))
  {
    hide ToString;
    forall p | p in s.scanner.outcomes ensures Ping(s.scanner, host, now).outcomes[p] == s.scanner.outcomes[p] {
      StepKeepsOutcomes(s.scanner, PingAsync(host, now), p);
    }
  }

  lemma UntouchedStep(s: State, e: Event)
    requires Inv(s.scanner) && !PollInProgress(s)
    ensures Untouched(s, Next(s, e))
  {
    hide Inv, Ping, R.Resolve, R.Step;
    if e.Finish? {
      FinishThread(s, e.now);
    } else if e.PingHost? {
      PingTouchesNothingElse(s, e.host, e.now);
    }
  }

  lemma QuietStep(s: State, e: Event)
    requires Consistent(s) && !s.running && !PollInProgress(s) && !e.StartScanning?
    ensures var t := Next(s, e);
            Consistent(t) && !t.running && !PollInProgress(t) && Untouched(s, t)
  {
    hide Inv, Consistent, Next, Untouched;
    NextKeeps(s, e);
    NowSound(s);
    UntouchedStep(s, e);
    if e.Finish? {
      FinishThread(s, e.now);
    } else {
      ThreadStep(s, e);
    }
  }

  lemma {:induction false} NoPollNoTouch(s: State, events: seq<Event>)
    requires Consistent(s) && !s.running && !PollInProgress(s) && NoStart(events)
    ensures var t := Play(s, events);
            !t.running && !PollInProgress(t) && Untouched(s, t)
    decreases |events|
  {
    hide Consistent, Next, PollInProgress;
    if events == [] {
    } else {
      NowSound(s);
      QuietStep(s, events[0]);
      NoPollNoTouch(Next(s, events[0]), events[1..]);
    }
  }

  /** The wait loop of stopScanning watches only the polling task posted last.
      When that one has gone and the flag is down, no polling run is acting and
      none will until scanning is started again, however often it was started
      before: no packet is taken, and promises are settled only by new pings. */
  lemma StoppedMeansStopped(s: State, events: seq<Event>)
    requires Consistent(s) && Live(s) && !s.running && NoStart(events)
    requires s.polls > 0 && R.Tokens(s.runner)[Poll(s.polls - 1)] == 0
    ensures !PollInProgress(Play(s, events)) && Untouched(s, Play(s, events))
  {
    hide Inv, ToString, R.Tokens;
    TokensOfTask(s, Poll(s.polls - 1));
    NoPollNoTouch(s, events);
  }

  /** No further ping of this host. */
  predicate NoPingOf(events: seq<Event>, host: IPv4) {
    forall i :: 0 <= i < |events| ==> !(events[i].PingHost? && events[i].host == host)
  }

  lemma PendingStep(s: State, e: Event, p: nat)
    requires Consistent(s) && !s.running && !PollInProgress(s) && !e.StartScanning?
    requires p < |s.scanner.pings| && p !in s.scanner.outcomes
    requires !(e.PingHost? && e.host == s.scanner.pings[p])
    ensures var t := Next(s, e).scanner;
            p < |t.pings| && t.pings[p] == s.scanner.pings[p] && p !in t.outcomes
  {
    hide Inv, Consistent, R.Resolve, R.Step, IsPending, ToString;
    NowSound(s);
    if e.Finish? {
      FinishThread(s, e.now);
    } else if e.PingHost? {
      PingBreaksOnlyItsHost(s.scanner, e.host, e.now, p);
    }
  }

  lemma {:induction false} StaysPending(s: State, events: seq<Event>, p: nat)
    requires Consistent(s) && !s.running && !PollInProgress(s) && NoStart(events)
    requires p < |s.scanner.pings| && p !in s.scanner.outcomes && NoPingOf(events, s.scanner.pings[p])
    ensures p !in Play(s, events).scanner.outcomes
    decreases |events|
  {
    hide Consistent, Next, PollInProgress;
    if events == [] {
    } else {
      NowSound(s);
      QuietStep(s, events[0]);
      PendingStep(s, events[0], p);
      StaysPending(Next(s, events[0]), events[1..], p);
    }
  }

  lemma UnsettledIsUnreported(s: State, p: nat)
    requires Consistent(s) && p !in s.scanner.outcomes
    ensures Callbacks(s, p) == 0
  {
    forall i | 0 <= i < |s.callbacks| ensures Promises(s.callbacks)[i] != p {
      assert Reported(s.scanner, s.callbacks[i]);
    }
  }

  lemma StepStaysPosted(s: State, e: Event, p: nat)
    requires Inv(s.scanner) && p in s.posted
    ensures p in Next(s, e).posted
  {
    hide Inv, R.Step, R.Resolve;
  }

  lemma {:induction false} StaysPosted(s: State, events: seq<Event>, p: nat)
    requires Consistent(s) && p in s.posted
    ensures p in Play(s, events).posted
    decreases |events|
  {
    hide Consistent, Next;
    if events == [] {
    } else {
      NowSound(s);
      NextKeeps(s, events[0]);
      StepStaysPosted(s, events[0], p);
      StaysPosted(Next(s, events[0]), events[1..], p);
    }
  }

  /** A resolver whose promise is pending when scanning has stopped polls for
      ever: until scanning starts again or its host is pinged again it makes no
      callback, and on a live runner it keeps its one token. */
  lemma StoppedStrands(s: State, events: seq<Event>, p: nat)
    requires Consistent(s) && Live(s) && !s.running && NoStart(events)
    requires s.polls > 0 && R.Tokens(s.runner)[Poll(s.polls - 1)] == 0
    requires p in s.posted && p !in s.scanner.outcomes
    requires p < |s.scanner.pings| && NoPingOf(events, s.scanner.pings[p])
    ensures var t := Play(s, events);
            && p !in t.scanner.outcomes && Callbacks(t, p) == 0
            && (Live(t) ==> R.Tokens(t.runner)[Resolve(p)] == 1)
  {
    hide Inv, ToString, R.Tokens;
    TokensOfTask(s, Poll(s.polls - 1));
    StaysPending(s, events, p);
    StaysPosted(s, events, p);
    UnsettledIsUnreported(Play(s, events), p);
    TokensOfTask(Play(s, events), Resolve(p));
  }

  /** What callers and the socket do to the system. */
  lemma OutsideSteps(s: State, packet: Packet, p: nat)
    requires Inv(s.scanner)
    ensures Next(s, Arrive(packet)) == if |s.queue| < 1024 then s.(queue := s.queue + [packet]) else s
    ensures Next(s, ClearRunning) == s.(running := false)
    ensures var t := Next(s, StartScanning);
            && t == s.(running := true, polls := s.polls + 1, runner := t.runner)
            && t.runner.ready == (if s.runner.stopped then s.runner.ready else s.runner.ready + [Poll(s.polls)])
            && t.runner.timers == s.runner.timers && t.runner.running == s.runner.running
    ensures var t := Next(s, PostResolver(p));
            if p < |s.scanner.pings| && p !in s.posted
            then
              && t == s.(posted := s.posted + {p}, runner := t.runner)
              && t.runner.ready == (if s.runner.stopped then s.runner.ready else s.runner.ready + [Resolve(p)])
              && t.runner.timers == s.runner.timers && t.runner.running == s.runner.running
            else t == s
  {
    hide Inv;
  }

  /** A polling run with requests pending and a packet queued hands the oldest
      packet to the scanner, where a reply answers the request of its host, and is
      ready to run again. */
  lemma PollTakesPacket(s: State, now: int)
    requires Consistent(s) && PollInProgress(s) && s.scanner.pending != map[] && s.queue != []
    ensures var t, packet := Next(s, Finish(now)), s.queue[0];
            && t.queue == s.queue[1..] && t.runner.timers == s.runner.timers
            && t.runner.ready == (if s.runner.stopped then s.runner.ready else s.runner.ready + [s.runner.running.value])
            && var entry := if packet.headers.Some? then Lookup(s.scanner.pending, packet.headers.value.srcIp) else None;
               match entry
               case None => t.scanner == s.scanner
               case Some(r) =>
                 && r.promise in t.scanner.outcomes && t.scanner.outcomes[r.promise].Answered?
                 && t.scanner.outcomes == s.scanner.outcomes[r.promise := t.scanner.outcomes[r.promise]]
                 && t.scanner.outcomes[r.promise].response.headers == packet.headers.value
                 && Lookup(t.scanner.pending, packet.headers.value.srcIp) == None
                 && (forall a :: a != packet.headers.value.srcIp ==> Lookup(t.scanner.pending, a) == Lookup(s.scanner.pending, a))
  {
    hide Inv, ToString, Receive, Consistent;
    NowSound(s);
    ReplyAnswers(s.scanner, s.queue[0]);
  }

  /** With nothing queued it expires the requests that are five seconds old or
      older and waits 100 milliseconds; with nothing pending it only waits, for a
      second. */
  lemma PollWithoutPacket(s: State, now: int)
    requires Consistent(s) && PollInProgress(s) && (s.scanner.pending == map[] || s.queue == [])
    ensures var t := Next(s, Finish(now));
            var delay := if s.scanner.pending == map[] then 1000 else 100;
            && t.queue == s.queue && t.runner.ready == s.runner.ready
            && t.runner.timers == s.runner.timers + [R.Timer(s.runner.running.value, delay)]
            && if s.scanner.pending == map[] then t.scanner == s.scanner else ExpiredByAge(s.scanner, t.scanner, now)
  {
    hide Inv, ToString, Sweep, Consistent, ExpiredByAge;
    NowSound(s);
    SweepExpires(s.scanner, now);
  }

  predicate NoArrivals(events: seq<Event>) {
    forall i :: 0 <= i < |events| ==> !events[i].Arrive?
  }

  /** Polling runs that saw the flag up and were carried out. */
  ghost function ActivePolls(s: State, events: seq<Event>): nat
    requires Consistent(s)
    decreases |events|
  {
    if events == [] then 0
    else
      NextKeeps(s, events[0]);
      (if events[0].Finish? && PollInProgress(s) then 1 else 0) + ActivePolls(Next(s, events[0]), events[1..])
  }

  ghost predicate NothingOverdue(s: Scanner, now: int) {
    forall k | k in s.pending :: now - s.pending[k].time < TIMEOUT
  }

  lemma NextKeepsOutcomes(s: State, e: Event, p: nat)
    requires Inv(s.scanner) && p in s.scanner.outcomes
    ensures var t := Next(s, e); p in t.scanner.outcomes && t.scanner.outcomes[p] == s.scanner.outcomes[p]
  {
    hide Inv, Ping, Receive, Sweep, R.Resolve, R.Step;
    if e.PingHost? {
      StepKeepsOutcomes(s.scanner, PingAsync(e.host, e.now), p);
    } else if e.Finish? {
      StepKeepsOutcomes(s.scanner, HandleTimeouts(e.now), p);
      if s.queue != [] {
        StepKeepsOutcomes(s.scanner, PacketReceived(s.queue[0]), p);
      }
    }
  }

  lemma {:induction false} PlayKeepsOutcomes(s: State, events: seq<Event>, p: nat)
    requires Consistent(s) && p in s.scanner.outcomes
    ensures var t := Play(s, events); p in t.scanner.outcomes && t.scanner.outcomes[p] == s.scanner.outcomes[p]
    decreases |events|
  {
    hide Consistent, Next;
    if events == [] {
    } else {
      NowSound(s);
      NextKeeps(s, events[0]);
      NextKeepsOutcomes(s, events[0], p);
      PlayKeepsOutcomes(Next(s, events[0]), events[1..], p);
    }
  }

  /** Promise p is pending, and place i of the queue holds a reply from its host. */
  ghost predicate ReplyQueued(s: State, p: nat, i: nat) {
    && p < |s.scanner.pings| && p !in s.scanner.outcomes
    && i < |s.queue| && s.queue[i].headers.Some? && s.queue[i].headers.value.srcIp == s.scanner.pings[p]
  }

  /** An acting run takes the packet at the head: when it is not the one that
      answers p, the reply moves up one place. */
  lemma ReplyMovesUp(s: State, now: int, p: nat, i: nat)
    requires Consistent(s) && ReplyQueued(s, p, i) && PollInProgress(s)
    ensures Inv(s.scanner)
    ensures var t := Next(s, Finish(now));
            if p in t.scanner.outcomes
            then t.scanner.outcomes[p].Answered? && s.queue[0].headers == Some(t.scanner.outcomes[p].response.headers)
            else i > 0 && ReplyQueued(t, p, i - 1) && t.queue == s.queue[1..] && t.scanner.pings == s.scanner.pings
  {
    hide Inv, ToString, Receive, Consistent, R.Resolve;
    NowSound(s);
    PendingIsUnsettled(s.scanner, p);
    assert s.scanner.pending != map[];
    PollTakesPacket(s, now);
    ReplyAnswers(s.scanner, s.queue[0]);
  }

  /** Any other step leaves the reply where it is, unless its host is pinged again. */
  lemma ReplyWaits(s: State, e: Event, p: nat, i: nat)
    requires Consistent(s) && ReplyQueued(s, p, i) && !(e.Finish? && PollInProgress(s))
    ensures Inv(s.scanner)
    ensures var t := Next(s, e);
            && s.queue <= t.queue && s.scanner.pings <= t.scanner.pings
            && if p in t.scanner.outcomes
               then t.scanner.outcomes[p].Broken? && e.PingHost? && e.host == s.scanner.pings[p]
               else ReplyQueued(t, p, i)
  {
    hide Inv, ToString, Ping, Consistent, R.Resolve, R.Step;
    NowSound(s);
    if e.Finish? {
      FinishThread(s, e.now);
    } else if e.PingHost? {
      PingBreaksOnlyItsHost(s.scanner, e.host, e.now, p);
    }
  }

  /** What settles p is a reply from the first i + 1 of these packets, or a further
      ping of its host. */
  ghost predicate AnsweredFrom(o: Outcome, queue: seq<Packet>, i: nat, events: seq<Event>, host: IPv4)
    requires i < |queue|
  {
    || (o.Broken? && !NoPingOf(events, host))
    || (o.Answered? && exists j :: 0 <= j <= i && queue[j].headers == Some(o.response.headers))
  }

  lemma EarlierReply(o: Outcome, queue: seq<Packet>, i: nat, events: seq<Event>, host: IPv4)
    requires 0 < i < |queue| && events != [] && AnsweredFrom(o, queue[1..], i - 1, events[1..], host)
    ensures AnsweredFrom(o, queue, i, events, host)
  {
    if o.Answered? {
      var j :| 0 <= j <= i - 1 && queue[1..][j].headers == Some(o.response.headers);
      assert queue[j + 1].headers == Some(o.response.headers);
    }
  }

  lemma SameReply(o: Outcome, queue: seq<Packet>, later: seq<Packet>, i: nat, events: seq<Event>, host: IPv4)
    requires i < |queue| && queue <= later && events != [] && AnsweredFrom(o, later, i, events[1..], host)
    ensures AnsweredFrom(o, queue, i, events, host)
  {
    if o.Answered? {
      var j :| 0 <= j <= i && later[j].headers == Some(o.response.headers);
      assert queue[j] == later[j];
    }
  }

  /** A reply from the host of a pending ping, queued behind i packets, settles it
      within i + 1 acting polling runs, whatever arrives or is pinged meanwhile:
      with that reply or an earlier one, and never by a timeout. Only a further
      ping of the host can break the promise before. */
  lemma {:induction false} QueuedReplyAnswers(s: State, events: seq<Event>, p: nat, i: nat)
    requires Consistent(s) && ReplyQueued(s, p, i) && ActivePolls(s, events) > i
    ensures var t := Play(s, events);
            && p in t.scanner.outcomes
            && AnsweredFrom(t.scanner.outcomes[p], s.queue, i, events, s.scanner.pings[p])
    decreases |events|
  {
    hide Consistent, Next, PollInProgress;
    var e := events[0];
    NowSound(s);
    NextKeeps(s, e);
    var t, host := Next(s, e), s.scanner.pings[p];
    if e.Finish? && PollInProgress(s) {
      ReplyMovesUp(s, e.now, p, i);
      if p in t.scanner.outcomes {
        PlayKeepsOutcomes(t, events[1..], p);
      } else {
        QueuedReplyAnswers(t, events[1..], p, i - 1);
        EarlierReply(Play(s, events).scanner.outcomes[p], s.queue, i, events, host);
      }
    } else {
      ReplyWaits(s, e, p, i);
      if p in t.scanner.outcomes {
        PlayKeepsOutcomes(t, events[1..], p);
      } else {
        QueuedReplyAnswers(t, events[1..], p, i);
        SameReply(Play(s, events).scanner.outcomes[p], s.queue, t.queue, i, events, host);
      }
    }
  }

  /** The polling run that step e finishes sweeps, or finds nothing pending. */
  ghost predicate Sweeps(s: State, e: Event)
    requires Consistent(s)
  {
    && e.Finish? && PollInProgress(s)
    && (s.scanner.pending == map[] || (s.queue == [] && Next(s, e).scanner == Sweep(s.scanner, e.now)))
    && NothingOverdue(Next(s, e).scanner, e.now)
  }

  /** Step k is such a run, with at most as many acting polling runs before it as
      packets were queued. */
  ghost predicate SweptAt(s: State, events: seq<Event>, k: nat)
    requires Consistent(s) && k < |events|
  {
    ActivePolls(s, events[..k]) <= |s.queue| && Sweeps(Play(s, events[..k]), events[k])
  }

  /** A step that does not reach a sweep or an empty map uses up one packet per
      active polling run. */
  lemma ProgressStep(s: State, e: Event)
    requires Consistent(s) && !e.Arrive?
    requires !(e.Finish? && PollInProgress(s) && (s.scanner.pending == map[] || s.queue == []))
    ensures var active := if e.Finish? && PollInProgress(s) then 1 else 0;
            Consistent(Next(s, e)) && active + |Next(s, e).queue| <= |s.queue|
  {
    hide Inv, Consistent;
    NextKeeps(s, e);
    NowSound(s);
  }

  lemma IdleRunSweeps(s: State, now: int)
    requires Consistent(s) && PollInProgress(s) && (s.scanner.pending == map[] || s.queue == [])
    ensures Sweeps(s, Finish(now))
  {
  }

  /** What a run does after its first step, its first k + 1 steps do. */
  lemma ShiftedSweep(s: State, events: seq<Event>, k: nat)
    requires Consistent(s) && events != [] && k < |events[1..]|
    requires Consistent(Next(s, events[0])) && SweptAt(Next(s, events[0]), events[1..], k)
    requires (if events[0].Finish? && PollInProgress(s) then 1 else 0) + |Next(s, events[0]).queue| <= |s.queue|
    ensures SweptAt(s, events, k + 1)
  {
    hide Consistent, Next, Sweeps, PollInProgress;
    assert events[..k + 1][1..] == events[1..][..k];
  }

  /** Bounded progress: when no packet arrives, one polling run more than there
      are queued packets is enough to reach one that sweeps or finds nothing
      pending, whatever pings, posts and timers come in between. */
  lemma {:induction false} PollingProgress(s: State, events: seq<Event>)
    requires Consistent(s) && NoArrivals(events) && ActivePolls(s, events) > |s.queue|
    ensures exists k: nat :: k < |events| && SweptAt(s, events, k)
    decreases |events|
  {
    hide Consistent, Next, PollInProgress, Sweeps;
    NowSound(s);
    var e, t := events[0], Next(s, events[0]);
    if e.Finish? && PollInProgress(s) && (s.scanner.pending == map[] || s.queue == []) {
      assert events[..0] == [] && ActivePolls(s, []) == 0;
      IdleRunSweeps(s, e.now);
      assert SweptAt(s, events, 0);
    } else {
      ProgressStep(s, e);
      PollingProgress(t, events[1..]);
      var j: nat :| j < |events[1..]| && SweptAt(t, events[1..], j);
      ShiftedSweep(s, events, j);
    }
  }
}
