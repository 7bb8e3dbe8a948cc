/** The service that hands every address of a range to every discovery task. */
module DeviceDiscoveryService {
  import opened IPv4Address
  import opened Sequence

  /** A discovery task, seen from the service: whether it was started and the
      hosts it was asked for. */
  class DiscoveryTask {
    var started: bool
    var asked: seq<IPv4>

    constructor ()
      ensures !started && asked == []
    {
      started := false;
      asked := [];
    }

    method Start()
      modifies this`started
      ensures started
    {
      started := true;
    }

    method Discover(host: IPv4)
      modifies this`asked
      ensures asked == old(asked) + [host]
    {
      asked := asked + [host];
    }
  }

  class DeviceDiscoveryService {
    var discoveryTasks: seq<DiscoveryTask>

    /** The vector owns its tasks: no task is in it twice. */
    ghost predicate Valid()
      reads this
    {
      forall i, j :: 0 <= i < j < |discoveryTasks| ==> discoveryTasks[i] != discoveryTasks[j]
    }

    constructor ()
      ensures Valid() && discoveryTasks == []
    {
      discoveryTasks := [];
    }

    method AddDiscoveryTask(task: DiscoveryTask)
      requires Valid() && task !in discoveryTasks
      modifies this, task`started
      ensures Valid() && discoveryTasks == old(discoveryTasks) + [task]
      ensures task.started
    {
      discoveryTasks := discoveryTasks + [task];
      discoveryTasks[|discoveryTasks| - 1].Start();
    }

    method DiscoverHost(host: IPv4)
      requires Valid()
      modifies (set t | t in discoveryTasks)`asked
      ensures forall t | t in discoveryTasks :: t.asked == old(t.asked) + [host]
    {
      var i := 0;
      while i < |discoveryTasks|
        invariant 0 <= i <= |discoveryTasks|
        invariant forall k :: 0 <= k < i ==> discoveryTasks[k].asked == old(discoveryTasks[k].asked) + [host]
        invariant forall k :: i <= k < |discoveryTasks| ==> discoveryTasks[k].asked == old(discoveryTasks[k].asked)
      {
        discoveryTasks[i].Discover(host);
        i := i + 1;
      }
    }

    /** Every task is asked once for each address of the inclusive range, in
        successor order; which addresses these are is Sequence.InclusiveRange. */
    method DiscoverRange(begin: IPv4, end: IPv4)
      requires Valid()
      modifies (set t | t in discoveryTasks)`asked
      ensures forall t | t in discoveryTasks ::
                t.asked == old(t.asked) + Visited(Sequence(begin, Successor(end)))
    {
      var s := RangeToBound(begin, Inclusive(end));
      var it := new Iterator(s.first);
      LoopStarts(s);
      ghost var n := 0;
      while it.value != s.last
        invariant Stands(s, it.value, n)
        invariant forall t | t in discoveryTasks :: t.asked == old(t.asked) + Visited(s)[..n]
        decreases Length(s) - n
      {
        LoopAdvances(s, it.value, n);
        DiscoverHost(it.value);
        it.Increment();
        n := n + 1;
      }
      assert Visited(s)[..n] == Visited(s);
    }
  }
}
