/** The task runner: a ready queue served by one thread, timers that post when
    they expire, and a run that ends with a continuation.

    A token is one pending or running execution of a task: an entry of the ready
    queue, a timer, or the task the thread is running. `posts`, `ends` and
    `lost` are histories: tasks handed in from outside, runs that returned End,
    and tokens dropped because the runner was stopped or destroyed. */
module TaskRunner {
  import opened Wrappers

  datatype Continuation = RunAgain | RunAgainDelayed(delay: nat) | End

  datatype Timer<T> = Timer(task: T, delay: nat)

  datatype Runner<T> = Runner(
    ready: seq<T>,
    timers: seq<Timer<T>>,
    running: Option<T>,
    alive: bool,
    stopped: bool,
    posts: multiset<T>,
    ends: multiset<T>,
    lost: multiset<T>)

  datatype Event<T> =
    | Post(task: T)
    | PostDelayed(task: T, delay: nat)
    | Begin
    | Finish(next: Continuation)
    | Expire(index: nat)
    | Kill
    | Stop

  function Fresh<T>(): Runner<T> {
    Runner([], [], None, true, false, multiset{}, multiset{}, multiset{})
  }

  /** `post`: a stopped context drops the task. */
  function Enqueue<T>(r: Runner<T>, t: T): Runner<T> {
    if r.stopped then r.(lost := r.lost + multiset{t}) else r.(ready := r.ready + [t])
  }

  /** `postDelayed`: the timer is created whether or not the context runs. */
  function Arm<T>(r: Runner<T>, t: T, delay: nat): Runner<T> {
    r.(timers := r.timers + [Timer(t, delay)])
  }

  /** The thread takes the oldest ready task when it is idle. */
  predicate CanBegin<T>(r: Runner<T>) {
    !r.stopped && r.running == None && r.ready != []
  }

  /** Timer handlers run on the same thread. */
  predicate CanExpire<T>(r: Runner<T>, index: nat) {
    !r.stopped && r.running == None && index < |r.timers|
  }

  function Take<T>(r: Runner<T>): Runner<T>
    requires CanBegin(r)
  {
    r.(ready := r.ready[1..], running := Some(r.ready[0]))
  }

  /** `resolve` after `run` returned. */
  function Resolve<T>(r: Runner<T>, next: Continuation): Runner<T>
    requires r.running.Some?
  {
    var t := r.running.value;
    var idle := r.(running := None);
    match next
    case RunAgain => Enqueue(idle, t)
    case RunAgainDelayed(delay) => Arm(idle, t, delay)
    case End => idle.(ends := idle.ends + multiset{t})
  }

  function Fire<T>(r: Runner<T>, index: nat): Runner<T>
    requires CanExpire(r, index)
  {
    var t := r.timers[index].task;
    var rest := r.(timers := r.timers[..index] + r.timers[index + 1..]);
    if r.alive then Enqueue(rest, t) else rest.(lost := rest.lost + multiset{t})
  }

  /** One step; an event that cannot happen leaves the runner as it is. */
  function Step<T>(r: Runner<T>, e: Event<T>): Runner<T> {
    match e
    case Post(t) => Enqueue(r, t).(posts := r.posts + multiset{t})
    case PostDelayed(t, delay) => Arm(r, t, delay).(posts := r.posts + multiset{t})
    case Begin => if CanBegin(r) then Take(r) else r
    case Finish(next) => if r.running.Some? then Resolve(r, next) else r
    case Expire(index) => if CanExpire(r, index) then Fire(r, index) else r
    case Kill => r.(alive := false)
    case Stop => r.(stopped := true)
  }

  function Run<T>(r: Runner<T>, events: seq<Event<T>>): Runner<T>
    decreases |events|
  {
    if events == [] then r else Run(Step(r, events[0]), events[1..])
  }

  function Tasks<T>(timers: seq<Timer<T>>): (s: seq<T>)
    ensures |s| == |timers|
  {
    seq(|timers|, i requires 0 <= i < |timers| => timers[i].task)
  }

  function Tokens<T>(r: Runner<T>): multiset<T> {
    multiset(r.ready) + multiset(Tasks(r.timers))
    + (if r.running.Some? then multiset{r.running.value} else multiset{})
  }

  /** Every token handed in is outstanding, ended or lost, and none is lost
      while the runner is alive. */
  ghost predicate Conserved<T>(r: Runner<T>) {
    && Tokens(r) + r.ends + r.lost == r.posts
    && (r.alive && !r.stopped ==> r.lost == multiset{})
  }

  lemma TakeKeepsTokens<T>(r: Runner<T>)
    requires CanBegin(r)
    ensures Tokens(Take(r)) == Tokens(r)
  {
    assert r.ready == [r.ready[0]] + r.ready[1..];
  }

  lemma ReadyTaskHasToken<T>(r: Runner<T>)
    requires r.ready != []
    ensures Tokens(r)[r.ready[0]] > 0
  {
    assert r.ready[0] in multiset(r.ready);
  }

  lemma EnqueueAddsToken<T>(r: Runner<T>, t: T)
    ensures Tokens(Enqueue(r, t)) + Enqueue(r, t).lost == Tokens(r) + r.lost + multiset{t}
  {
  }

  lemma ArmAddsToken<T>(r: Runner<T>, t: T, delay: nat)
    ensures Tokens(Arm(r, t, delay)) == Tokens(r) + multiset{t}
  {
    assert Tasks(r.timers + [Timer(t, delay)]) == Tasks(r.timers) + [t];
  }

  lemma FireMovesToken<T>(r: Runner<T>, index: nat)
    requires CanExpire(r, index)
    ensures Tokens(Fire(r, index)) + Fire(r, index).lost == Tokens(r) + r.lost
  {
    var a, t, b := r.timers[..index], r.timers[index].task, r.timers[index + 1..];
    assert Tasks(r.timers) == Tasks(a) + [t] + Tasks(b);
    assert Tasks(a + b) == Tasks(a) + Tasks(b);
    var rest := r.(timers := a + b);
    assert Tokens(r) == Tokens(rest) + multiset{t};
    EnqueueAddsToken(rest, t);
  }

  lemma Rearranged<T>(tokens: multiset<T>, lost: multiset<T>, ends: multiset<T>, total: multiset<T>)
    requires tokens + lost == total
    ensures tokens + ends + lost == total + ends
  {
  }

  lemma FireConserves<T>(r: Runner<T>, index: nat)
    requires Conserved(r) && CanExpire(r, index)
    ensures Conserved(Fire(r, index))
  {
    FireMovesToken(r, index);
    Rearranged(Tokens(r), r.lost, r.ends, Tokens(r) + r.lost);
    Rearranged(Tokens(Fire(r, index)), Fire(r, index).lost, r.ends, Tokens(r) + r.lost);
  }

  /** The histories hold no tokens. */
  lemma HistoriesAreNoTokens<T>(r: Runner<T>, posts: multiset<T>, ends: multiset<T>)
    ensures Tokens(r.(posts := posts)) == Tokens(r)
    ensures Tokens(r.(ends := ends)) == Tokens(r)
  {
  }

  lemma RunningIsToken<T>(r: Runner<T>)
    requires r.running.Some?
    ensures Tokens(r) == Tokens(r.(running := None)) + multiset{r.running.value}
  {
  }

  lemma ResolveConserves<T>(r: Runner<T>, next: Continuation)
    requires Conserved(r) && r.running.Some?
    ensures Conserved(Resolve(r, next))
  {
    hide Tokens;
    var t, idle := r.running.value, r.(running := None);
    RunningIsToken(r);
    match next
    case RunAgain =>
      EnqueueAddsToken(idle, t);
      Rearranged(Tokens(Enqueue(idle, t)), Enqueue(idle, t).lost, r.ends, Tokens(r) + r.lost);
    case RunAgainDelayed(delay) => ArmAddsToken(idle, t, delay);
    case End => HistoriesAreNoTokens(idle, r.posts, r.ends + multiset{t});
  }

  lemma PostConserves<T>(r: Runner<T>, t: T)
    requires Conserved(r)
    ensures Conserved(Step(r, Post(t)))
  {
    hide Tokens;
    EnqueueAddsToken(r, t);
    var s := Enqueue(r, t);
    HistoriesAreNoTokens(s, r.posts + multiset{t}, r.ends);
    Rearranged(Tokens(s), s.lost, r.ends, Tokens(r) + r.lost + multiset{t});
    assert Tokens(r) + r.ends + r.lost + multiset{t} == Tokens(r) + r.lost + multiset{t} + r.ends;
  }

  lemma PostDelayedConserves<T>(r: Runner<T>, t: T, delay: nat)
    requires Conserved(r)
    ensures Conserved(Step(r, PostDelayed(t, delay)))
  {
    ArmAddsToken(r, t, delay);
    assert Tokens(Step(r, PostDelayed(t, delay))) == Tokens(Arm(r, t, delay));
  }

  lemma TakeConserves<T>(r: Runner<T>)
    requires Conserved(r)
    ensures Conserved(Step(r, Begin))
  {
    hide Tokens;
    if CanBegin(r) {
      TakeKeepsTokens(r);
    }
  }

  lemma FlagsAreNoTokens<T>(r: Runner<T>, alive: bool, stopped: bool)
    ensures Tokens(r.(alive := alive, stopped := stopped)) == Tokens(r)
  {
  }

  lemma StepConserves<T>(r: Runner<T>, e: Event<T>)
    requires Conserved(r)
    ensures Conserved(Step(r, e))
  {
    hide Tokens, Enqueue, Arm, Resolve, Fire, Take;
    match e
    case Post(t) => PostConserves(r, t);
    case PostDelayed(t, delay) => PostDelayedConserves(r, t, delay);
    case Begin => TakeConserves(r);
    case Finish(next) => if r.running.Some? { ResolveConserves(r, next); }
    case Expire(index) => if CanExpire(r, index) { FireConserves(r, index); }
    case Kill => FlagsAreNoTokens(r, false, r.stopped);
    case Stop => FlagsAreNoTokens(r, r.alive, true);
  }

  /** Which steps the histories of posts and ends see. */
  lemma StepHistories<T>(r: Runner<T>, e: Event<T>)
    ensures var q := Step(r, e);
            && (!e.Post? && !e.PostDelayed? ==> q.posts == r.posts)
            && r.lost <= q.lost
            && (!e.Finish? ==> q.ends == r.ends)
            && (!e.Begin? && !e.Finish? ==> q.running == r.running)
            && (e.Finish? && r.running.Some? ==> q.running == None)
            && (e == Finish(End) && r.running.Some? ==> q.ends == r.ends + multiset{r.running.value})
            && (e.Finish? && e != Finish(End) ==> q.ends == r.ends)
  {
  }

  /** Where a posted task goes: the end of the ready queue, unless the context is
      stopped, or a timer. */
  lemma PostPlaces<T>(r: Runner<T>, t: T, d: nat)
    ensures var q := Step(r, Post(t));
            && q.ready == (if r.stopped then r.ready else r.ready + [t]) && q.timers == r.timers
            && q.lost == (if r.stopped then r.lost + multiset{t} else r.lost)
            && (q.running, q.alive, q.stopped) == (r.running, r.alive, r.stopped)
    ensures var q := Step(r, PostDelayed(t, d));
            && q.ready == r.ready && q.timers == r.timers + [Timer(t, d)] && q.lost == r.lost
            && (q.running, q.alive, q.stopped) == (r.running, r.alive, r.stopped)
  {
  }

  /** Where a run leaves its task: RunAgain at the end of the ready queue,
      RunAgainDelayed in a timer, End nowhere. */
  lemma FinishPlaces<T>(r: Runner<T>, next: Continuation)
    requires r.running.Some?
    ensures var q, t := Step(r, Finish(next)), r.running.value;
            && q.ready == (if next == RunAgain && !r.stopped then r.ready + [t] else r.ready)
            && q.timers == (if next.RunAgainDelayed? then r.timers + [Timer(t, next.delay)] else r.timers)
            && q.ends == (if next == End then r.ends + multiset{t} else r.ends)
            && q.lost == (if next == RunAgain && r.stopped then r.lost + multiset{t} else r.lost)
            && q.running == None && (q.alive, q.stopped) == (r.alive, r.stopped)
  {
  }

  /** An idle thread takes the oldest ready task, or the handler of a timer, which
      readies the timer's task if the runner is alive. A stopped context runs
      neither; what it holds stays where it is. */
  lemma ThreadTakes<T>(r: Runner<T>, index: nat)
    ensures var q := Step(r, Begin);
            if !r.stopped && r.running == None && r.ready != []
            then q == r.(ready := r.ready[1..], running := Some(r.ready[0]))
            else q == r
    ensures var q := Step(r, Expire(index));
            if !r.stopped && r.running == None && index < |r.timers|
            then
              var t, rest := r.timers[index].task, r.timers[..index] + r.timers[index + 1..];
              q == if r.alive then r.(timers := rest, ready := r.ready + [t])
                   else r.(timers := rest, lost := r.lost + multiset{t})
            else q == r
    ensures Step(r, Kill) == r.(alive := false) && Step(r, Stop) == r.(stopped := true)
  {
  }

  /** Token conservation over every run. */
  lemma {:induction false} RunConserves<T>(r: Runner<T>, events: seq<Event<T>>)
    requires Conserved(r)
    ensures Conserved(Run(r, events))
    decreases |events|
  {
    if events == [] {
    } else {
      StepConserves(r, events[0]);
      RunConserves(Step(r, events[0]), events[1..]);
    }
  }

  /** A task posted once to a runner that stays up has exactly one token until
      its run returns End, which happens at most once, and none afterwards; so
      two runs of it never overlap. */
  lemma PostedOnce<T>(events: seq<Event<T>>, t: T)
    requires var r := Run(Fresh<T>(), events); r.posts[t] == 1 && r.alive && !r.stopped
    ensures var r := Run(Fresh<T>(), events);
            && r.ends[t] <= 1 && Tokens(r)[t] == 1 - r.ends[t]
            && (r.running == Some(t) ==> t !in r.ready && t !in Tasks(r.timers))
  {
    assert Conserved(Fresh<T>());
    RunConserves(Fresh<T>(), events);
    var r := Run(Fresh<T>(), events);
    assert r.lost == multiset{};
    assert r.posts[t] == Tokens(r)[t] + r.ends[t];
    assert multiset(r.ready)[t] > 0 <==> t in r.ready;
    assert multiset(Tasks(r.timers))[t] > 0 <==> t in Tasks(r.timers);
  }

  class TaskRunner<T(==)> {
    var ready: seq<T>
    var timers: seq<Timer<T>>
    var running: Option<T>
    var isAlive: bool
    var stopped: bool
    ghost var posts: multiset<T>
    ghost var ends: multiset<T>
    ghost var lost: multiset<T>

    ghost function Model(): Runner<T>
      reads this
    {
      Runner(ready, timers, running, isAlive, stopped, posts, ends, lost)
    }

    constructor ()
      ensures Model() == Fresh()
    {
      ready, timers, running, isAlive, stopped := [], [], None, true, false;
      posts, ends, lost := multiset{}, multiset{}, multiset{};
    }

    /** The internal half of `post`, shared by callers and continuations. */
    method Submit(task: T)
      modifies this
      ensures Model() == Enqueue(old(Model()), task)
    {
      if !stopped {
        ready := ready + [task];
      } else {
        lost := lost + multiset{task};
      }
    }

    method Post(task: T)
      modifies this
      ensures Model() == Step(old(Model()), Event.Post(task))
    {
      Submit(task);
      posts := posts + multiset{task};
    }

    method PostDelayed(task: T, delay: nat)
      modifies this
      ensures Model() == Step(old(Model()), Event.PostDelayed(task, delay))
    {
      timers := timers + [Timer(task, delay)];
      posts := posts + multiset{task};
    }

    method TakeNext() returns (task: T)
      requires CanBegin(Model())
      modifies this
      ensures task == old(ready)[0]
      ensures Model() == Step(old(Model()), Begin)
    {
      task := ready[0];
      ready := ready[1..];
      running := Some(task);
    }

    method ResolveRun(next: Continuation)
      requires running.Some?
      modifies this
      ensures Model() == Step(old(Model()), Finish(next))
    {
      var task := running.value;
      running := None;
      match next
      case RunAgain => Submit(task);
      case RunAgainDelayed(delay) => timers := timers + [Timer(task, delay)];
      case End => ends := ends + multiset{task};
    }

    method TimerExpired(index: nat)
      requires CanExpire(Model(), index)
      modifies this
      ensures Model() == Step(old(Model()), Expire(index))
    {
      var task := timers[index].task;
      timers := timers[..index] + timers[index + 1..];
      if isAlive {
        Submit(task);
      } else {
        lost := lost + multiset{task};
      }
    }

    method StopContext()
      modifies this`stopped
      ensures Model() == Step(old(Model()), Stop)
    {
      stopped := true;
    }

    /** The destructor: first the flag timers look at, then the context. */
    method Destroy()
      modifies this
      ensures Model() == Step(Step(old(Model()), Kill), Stop)
    {
      isAlive := false;
      StopContext();
    }
  }
}
