/** The discovery protocol as one step system: callers that ping and post, the
    receive queue, the runner's thread and timers, the polling task and the
    resolvers. Each function body is one step, except that a polling run reads
    the running flag in one step and acts on it in the next, so that stopping
    can come in between. */
module Discovery {
  import opened Wrappers
  import opened IPv4Address
  import opened IPv4Text
  import opened IcmpScanner
  import opened DeviceDiscoveryTask
  import opened AsyncScanner
  import opened FutureResolver
  import ReceivingSocket
  import R = TaskRunner

  /** The n-th posted polling task; the resolver holding the future of a promise. */
  datatype Task = Poll(n: nat) | Resolve(promise: nat)

  /** What was reported about a promise, and the clock then. */
  datatype Callback = Callback(promise: nat, report: Report, at: int)

  datatype State = State(
    scanner: Scanner,
    running: bool,
    queue: seq<Packet>,
    runner: R.Runner<Task>,
    flagSeen: bool,          // what the run in progress read from `running`
    polls: nat,              // polling tasks posted so far; the last is m_currentTask
    posted: set<nat>,        // promises whose future was handed to a resolver
    results: Results,
    callbacks: seq<Callback>)

  datatype Event =
    | PingHost(host: IPv4, now: int)
    | PostResolver(promise: nat)
    | Arrive(packet: Packet)
    | StartScanning
    | ClearRunning           // the first statement of stopScanning
    | Begin
    | Finish(now: int)
    | TimerExpires(index: nat)
    | KillRunner
    | StopRunner

  const INITIAL := State(IDLE, false, [], R.Fresh<Task>(), false, 0, {}, map[], [])

  function RunPoll(s: State, now: int): (State, R.Continuation)
    requires Inv(s.scanner)
  {
    var (scanner, queue, next) := PollBody(s.scanner, s.queue, s.flagSeen, now);
    (s.(scanner := scanner, queue := queue), next)
  }

  function RunResolver(s: State, p: nat, now: int): (State, R.Continuation) {
    var settled := if p in s.scanner.outcomes then Some(s.scanner.outcomes[p]) else None;
    var (results, report, next) := FutureResolver.ResolverBody(s.results, settled, RETRY_DELAY, now);
    (s.(results := results,
        callbacks := if report.Some? then s.callbacks + [Callback(p, report.value, now)] else s.callbacks), next)
  }

  function RunTask(s: State, t: Task, now: int): (State, R.Continuation)
    requires Inv(s.scanner)
  {
    match t
    case Poll(_) => RunPoll(s, now)
    case Resolve(p) => RunResolver(s, p, now)
  }

  /** One step; an event that cannot happen leaves the state as it is. */
  function Next(s: State, e: Event): State
    requires Inv(s.scanner)
  {
    match e
    case PingHost(host, now) => s.(scanner := Ping(s.scanner, host, now))
    case PostResolver(p) =>
      if p < |s.scanner.pings| && p !in s.posted
      then s.(posted := s.posted + {p}, runner := R.Step(s.runner, R.Post(Resolve(p))))
      else s
    case Arrive(packet) => if |s.queue| < ReceivingSocket.MAX_BUFFER_SIZE then s.(queue := s.queue + [packet]) else s
    case StartScanning => s.(running := true, polls := s.polls + 1, runner := R.Step(s.runner, R.Post(Poll(s.polls))))
    case ClearRunning => s.(running := false)
    case Begin =>
      if R.CanBegin(s.runner) then s.(runner := R.Take(s.runner), flagSeen := s.running) else s
    case Finish(now) =>
      if s.runner.running.Some? then
        var (t, next) := RunTask(s, s.runner.running.value, now);
        t.(runner := R.Resolve(s.runner, next))
      else s
    case TimerExpires(index) => s.(runner := R.Step(s.runner, R.Expire(index)))
    case KillRunner => s.(runner := R.Step(s.runner, R.Kill))
    case StopRunner => s.(runner := R.Step(s.runner, R.Stop))
  }

  function Promises(callbacks: seq<Callback>): (ps: seq<nat>)
    ensures |ps| == |callbacks|
  {
    seq(|callbacks|, i requires 0 <= i < |callbacks| => callbacks[i].promise)
  }

  /** The report a resolver may make about a promise. */
  ghost predicate Reported(s: Scanner, c: Callback) {
    c.promise in s.outcomes && c.report == ReportOf(s.outcomes[c.promise], c.at)
  }

  /** Tokens are conserved and each task was posted once. */
  ghost predicate RunnerConsistent(s: State) {
    && R.Conserved(s.runner)
    && (forall p: nat :: s.runner.posts[Resolve(p)] == if p in s.posted then 1 else 0)
    && (forall n: nat :: s.runner.posts[Poll(n)] == if n < s.polls then 1 else 0)
  }

  /** Resolvers that ended are the callbacks made, each fitting its promise. */
  ghost predicate CallbacksConsistent(s: State) {
    && (forall p: nat :: multiset(Promises(s.callbacks))[p] == s.runner.ends[Resolve(p)])
    && (forall i :: 0 <= i < |s.callbacks| ==> Reported(s.scanner, s.callbacks[i]))
  }

  ghost predicate Live(s: State) {
    s.runner.alive && !s.runner.stopped
  }

  /** The thread is in a polling run that saw the running flag up. */
  ghost predicate PollInProgress(s: State) {
    s.runner.running.Some? && s.runner.running.value.Poll? && s.flagSeen
  }

  /** While the flag is up or a polling run acts on it, the last polling task has
      not ended, and while the flag is up it is not about to. */
  ghost predicate LastPollThere(s: State) {
    && (s.running || PollInProgress(s) ==> s.polls > 0 && s.runner.ends[Poll(s.polls - 1)] == 0)
    && (s.running && s.runner.running == Some(Poll(s.polls - 1)) ==> s.flagSeen)
  }

  ghost predicate Consistent(s: State) {
    && Inv(s.scanner)
    && (forall p | p in s.posted :: p < |s.scanner.pings|)
    && RunnerConsistent(s)
    && CallbacksConsistent(s)
    && LastPollThere(s)
  }

  lemma InitialConsistent()
    ensures Consistent(INITIAL)
  {
  }

  /** Only a scanner step changes the scanner, so outcomes stay what they were. */
  lemma ReportsStay(s: Scanner, t: Scanner, callbacks: seq<Callback>)
    requires forall i :: 0 <= i < |callbacks| ==> Reported(s, callbacks[i])
    requires forall p :: p in s.outcomes ==> p in t.outcomes && t.outcomes[p] == s.outcomes[p]
    ensures forall i :: 0 <= i < |callbacks| ==> Reported(t, callbacks[i])
  {
    forall i | 0 <= i < |callbacks| ensures Reported(t, callbacks[i]) {
      assert Reported(s, callbacks[i]);
    }
  }

  lemma ScannerMoves(s: State, e: ScannerEvent, t: State)
    requires Consistent(s)
    requires t == s.(scanner := Step(s.scanner, e), queue := t.queue)
    ensures Consistent(t)
  {
    StepKeepsInv(s.scanner, e);
    forall p | p in s.scanner.outcomes ensures p in t.scanner.outcomes && t.scanner.outcomes[p] == s.scanner.outcomes[p] {
      StepKeepsOutcomes(s.scanner, e, p);
    }
    ReportsStay(s.scanner, t.scanner, s.callbacks);
  }

  /** A task never posted has not ended and is not running. */
  lemma UnpostedIsNowhere(s: State, t: Task)
    requires RunnerConsistent(s) && s.runner.posts[t] == 0
    ensures s.runner.ends[t] == 0 && s.runner.running != Some(t)
  {
    assert s.runner.posts[t] == (R.Tokens(s.runner) + s.runner.ends + s.runner.lost)[t];
  }

  lemma NowSound(s: State)
    requires Consistent(s)
    ensures Inv(s.scanner) && R.Conserved(s.runner)
  {
  }

  lemma PostResolverKeeps(s: State, p: nat)
    requires Consistent(s)
    ensures Consistent(Next(s, PostResolver(p)))
  {
    hide Inv, R.Conserved, R.Tokens, Reported, R.Enqueue;
    R.StepConserves(s.runner, R.Post(Resolve(p)));
    R.StepHistories(s.runner, R.Post(Resolve(p)));
  }

  lemma StartKeeps(s: State)
    requires Consistent(s)
    ensures Consistent(Next(s, StartScanning))
  {
    hide Inv, R.Conserved, R.Tokens, Reported, R.Enqueue;
    UnpostedIsNowhere(s, Poll(s.polls));
    R.StepConserves(s.runner, R.Post(Poll(s.polls)));
    R.StepHistories(s.runner, R.Post(Poll(s.polls)));
  }

  /** Nothing but the runner and the flag copy differs, and no run ended. */
  lemma OnlyRunnerDiffers(s: State, t: State)
    requires Consistent(s) && t == s.(runner := t.runner, flagSeen := t.flagSeen)
    requires R.Conserved(t.runner) && t.runner.posts == s.runner.posts && t.runner.ends == s.runner.ends
    requires LastPollThere(t)
    ensures Consistent(t)
  {
    hide Inv, R.Conserved, R.Tokens, Reported, LastPollThere;
  }

  lemma RunnerMoves(s: State, e: Event, r: R.Event<Task>)
    requires Consistent(s)
    requires r == match e case Begin => R.Begin case TimerExpires(index) => R.Expire(index)
                          case KillRunner => R.Kill case _ => R.Stop
    requires e.Begin? || e.TimerExpires? || e.KillRunner? || e.StopRunner?
    ensures Consistent(Next(s, e))
  {
    hide Inv, R.Conserved, R.Tokens, CallbacksConsistent, RunnerConsistent, R.Fire;
    assert R.Conserved(s.runner) by {
      NowSound(s);
    }
    R.StepConserves(s.runner, r);
    R.StepHistories(s.runner, r);
    OnlyRunnerDiffers(s, Next(s, e));
  }

  /** What a polling run does before its continuation is taken. */
  lemma PollBodyKeeps(s: State, now: int)
    requires Consistent(s)
    ensures Consistent(RunPoll(s, now).0)
  {
    hide Inv, R.Conserved, R.Tokens, Reported;
    var t := RunPoll(s, now).0;
    if s.flagSeen && s.scanner.pending != map[] {
      ScannerMoves(s, if s.queue != [] then PacketReceived(s.queue[0]) else HandleTimeouts(now), t);
    }
  }

  /** The thread gives its run back; what the run changed is consistent. */
  lemma RunTaken(s: State, t: State, next: R.Continuation)
    requires Consistent(s) && Consistent(t) && s.runner.running.Some? && s.runner.running.value.Poll?
    requires t == s.(scanner := t.scanner, queue := t.queue) && (next == R.End <==> !s.flagSeen)
    ensures Consistent(t.(runner := R.Resolve(s.runner, next)))
  {
    hide Inv, R.Conserved, R.Tokens, Reported, R.Resolve;
    NowSound(s);
    R.StepConserves(s.runner, R.Finish(next));
    R.StepHistories(s.runner, R.Finish(next));
  }

  lemma PollBodyFrame(s: State, now: int)
    requires Inv(s.scanner)
    ensures var (t, next) := RunPoll(s, now);
            t == s.(scanner := t.scanner, queue := t.queue) && (next == R.End <==> !s.flagSeen)
  {
    hide Inv;
  }

  lemma FinishPollKeeps(s: State, now: int)
    requires Consistent(s) && s.runner.running.Some? && s.runner.running.value.Poll?
    ensures Consistent(Next(s, Finish(now)))
  {
    hide Inv, R.Conserved, R.Tokens, Reported, R.Resolve, RunPoll;
    NowSound(s);
    PollBodyKeeps(s, now);
    PollBodyFrame(s, now);
    hide Consistent;
    RunTaken(s, RunPoll(s, now).0, RunPoll(s, now).1);
  }

  /** The resolver's report is one more callback about its promise, which fits. */
  lemma ResolverReports(s: State, p: nat, now: int)
    requires forall i :: 0 <= i < |s.callbacks| ==> Reported(s.scanner, s.callbacks[i])
    ensures var (t, next) := RunResolver(s, p, now);
            && t == s.(results := t.results, callbacks := t.callbacks)
            && (forall i :: 0 <= i < |t.callbacks| ==> Reported(s.scanner, t.callbacks[i]))
            && (if next == R.End then Promises(t.callbacks) == Promises(s.callbacks) + [p] else t.callbacks == s.callbacks)
  {
    var (t, next) := RunResolver(s, p, now);
    if next == R.End {
      assert Reported(s.scanner, t.callbacks[|s.callbacks|]);
      forall i | 0 <= i < |t.callbacks| ensures Reported(s.scanner, t.callbacks[i]) {
        assert i < |s.callbacks| ==> t.callbacks[i] == s.callbacks[i];
      }
    }
  }

  /** The resolver's run is taken off the thread; its report, if it made one, is
      filed with the callbacks. */
  lemma ResolverTaken(s: State, t: State, runner: R.Runner<Task>, p: nat)
    requires RunnerConsistent(s) && CallbacksConsistent(s) && t == s.(results := t.results, callbacks := t.callbacks)
    requires R.Conserved(runner) && runner.posts == s.runner.posts
    requires forall i :: 0 <= i < |t.callbacks| ==> Reported(s.scanner, t.callbacks[i])
    requires || (Promises(t.callbacks) == Promises(s.callbacks) + [p]
                 && runner.ends == s.runner.ends + multiset{Resolve(p)})
             || (t.callbacks == s.callbacks && runner.ends == s.runner.ends)
    ensures RunnerConsistent(t.(runner := runner)) && CallbacksConsistent(t.(runner := runner))
  {
    hide Inv, R.Conserved, Reported, Promises;
  }

  lemma FinishResolverKeeps(s: State, now: int)
    requires Consistent(s) && s.runner.running.Some? && s.runner.running.value.Resolve?
    ensures Consistent(Next(s, Finish(now)))
  {
    hide Inv, R.Conserved, R.Resolve, RunResolver, Reported, Promises;
    var p := s.runner.running.value.promise;
    var (t, next) := RunResolver(s, p, now);
    ResolverReports(s, p, now);
    NowSound(s);
    R.StepConserves(s.runner, R.Finish(next));
    R.StepHistories(s.runner, R.Finish(next));
    ResolverTaken(s, t, R.Resolve(s.runner, next), p);
    hide RunnerConsistent, CallbacksConsistent;
  }

  lemma SameHistories(s: State, t: State)
    requires RunnerConsistent(s) && CallbacksConsistent(s)
    requires t == s.(running := t.running, queue := t.queue)
    ensures RunnerConsistent(t) && CallbacksConsistent(t)
  {
    hide Inv, R.Conserved, Reported;
  }

  lemma OutsideMoves(s: State, e: Event)
    requires Consistent(s) && (e.Arrive? || e.ClearRunning?)
    ensures Consistent(Next(s, e))
  {
    hide Inv, RunnerConsistent, CallbacksConsistent;
    var t := Next(s, e);
    assert RunnerConsistent(t) && CallbacksConsistent(t) by {
      SameHistories(s, t);
    }
  }

  lemma NextKeeps(s: State, e: Event)
    requires Consistent(s)
    ensures Consistent(Next(s, e))
  {
    hide Consistent;
    assert Inv(s.scanner) by {
      NowSound(s);
    }
    match e
    case PingHost(host, now) => ScannerMoves(s, PingAsync(host, now), Next(s, e));
    case PostResolver(p) => PostResolverKeeps(s, p);
    case StartScanning => StartKeeps(s);
    case Arrive(_) => OutsideMoves(s, e);
    case ClearRunning => OutsideMoves(s, e);
    case Finish(now) =>
      if s.runner.running.Some? {
        if s.runner.running.value.Poll? {
          FinishPollKeeps(s, now);
        } else {
          FinishResolverKeeps(s, now);
        }
      }
    case Begin => RunnerMoves(s, e, R.Begin);
    case TimerExpires(index) => RunnerMoves(s, e, R.Expire(index));
    case KillRunner => RunnerMoves(s, e, R.Kill);
    case StopRunner => RunnerMoves(s, e, R.Stop);
  }

  function Play(s: State, events: seq<Event>): (t: State)
    requires Consistent(s)
    ensures Consistent(t)
    decreases |events|
  {
    if events == [] then s
    else
      NextKeeps(s, events[0]);
      Play(Next(s, events[0]), events[1..])
  }
}
