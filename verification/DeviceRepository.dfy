/** The device repository: a locked map whose writers check under one lock
    acquisition and act under another, and its ordered traversals. Keys order as
    numbers: the comparison is taken with the uninitialised top bits of
    MacAddress.ToInt equal for all operands. */
module DeviceRepository {
  import opened Wrappers
  import opened Bytes
  import opened IPv4Address
  import opened M = MacAddress

  datatype Device = Device(ipAddress: IPv4, macAddress: Mac)

  type Devices = map<Mac, Device>

  datatype Write = Create(item: Device) | Update(item: Device) | Remove

  datatype Answer = Returned(ok: bool) | Threw

  datatype Call = Call(key: Mac, write: Write)

  /** The map, the calls between their two lock sections, the finished calls. */
  datatype Repository = Repository(devices: Devices, waiting: map<nat, Call>, answers: map<nat, Answer>)

  datatype Event = Check(id: nat, call: Call) | Act(id: nat)

  /** First section: `has` decides whether the call goes on. */
  predicate GoesOn(devices: Devices, c: Call) {
    if c.write.Create? then c.key !in devices else c.key in devices
  }

  /** Second section: emplace keeps an existing entry, `at` throws on a missing
      one, erase does not mind. */
  function Acted(devices: Devices, c: Call): (Devices, Answer) {
    match c.write
    case Create(item) => (if c.key in devices then devices else devices[c.key := item], Returned(true))
    case Update(item) => if c.key in devices then (devices[c.key := item], Returned(true)) else (devices, Threw)
    case Remove => (devices - {c.key}, Returned(true))
  }

  /** One lock section; identifiers name calls, so each is used once. */
  function Step(s: Repository, e: Event): Repository {
    match e
    case Check(id, c) =>
      if id in s.waiting || id in s.answers then s
      else if GoesOn(s.devices, c) then s.(waiting := s.waiting[id := c])
      else s.(answers := s.answers[id := Returned(false)])
    case Act(id) =>
      if id !in s.waiting then s
      else
        var (devices, answer) := Acted(s.devices, s.waiting[id]);
        Repository(devices, s.waiting - {id}, s.answers[id := answer])
  }

  function Run(s: Repository, events: seq<Event>): Repository
    decreases |events|
  {
    if events == [] then s else Run(Step(s, events[0]), events[1..])
  }

  /** Event k of the run is the second section of a call on `key`. */
  predicate ActsAt(s: Repository, events: seq<Event>, k: nat, key: Mac)
    requires k < |events|
  {
    var before := Run(s, events[..k]);
    events[k].Act? && events[k].id in before.waiting && before.waiting[events[k].id].key == key
  }

  function WriteAt(s: Repository, events: seq<Event>, k: nat, key: Mac): Write
    requires k < |events| && ActsAt(s, events, k, key)
  {
    Run(s, events[..k]).waiting[events[k].id].write
  }

  lemma StepsCompose(s: Repository, events: seq<Event>, k: nat, key: Mac)
    requires 0 < k < |events|
    ensures Run(s, events[..k]) == Run(Step(s, events[0]), events[1..][..k - 1])
    ensures ActsAt(s, events, k, key) <==> ActsAt(Step(s, events[0]), events[1..], k - 1, key)
  {
    assert events[..k][1..] == events[1..][..k - 1];
  }

  /** Over every run, a stored entry changes only where an update or a remove of
      its key acts; no create ever replaces it. */
  lemma {:induction false} ChangeNeedsUpdateOrRemove(s: Repository, events: seq<Event>, key: Mac) returns (k: nat)
    requires key in s.devices
    requires var t := Run(s, events); key !in t.devices || t.devices[key] != s.devices[key]
    ensures k < |events| && ActsAt(s, events, k, key) && !WriteAt(s, events, k, key).Create?
    ensures key in Run(s, events[..k]).devices && Run(s, events[..k]).devices[key] == s.devices[key]
    decreases |events|
  {
    var t := Step(s, events[0]);
    if key in t.devices && t.devices[key] == s.devices[key] {
      k := ChangeNeedsUpdateOrRemove(t, events[1..], key);
      k := k + 1;
      StepsCompose(s, events, k, key);
    } else {
      k := 0;
      assert events[..0] == [];
    }
  }

  /** A stored key disappears only where a remove of it acts. */
  lemma {:induction false} LossNeedsRemove(s: Repository, events: seq<Event>, key: Mac) returns (k: nat)
    requires key in s.devices && key !in Run(s, events).devices
    ensures k < |events| && ActsAt(s, events, k, key) && WriteAt(s, events, k, key).Remove?
    decreases |events|
  {
    var t := Step(s, events[0]);
    if key in t.devices {
      k := LossNeedsRemove(t, events[1..], key);
      k := k + 1;
      StepsCompose(s, events, k, key);
    } else {
      k := 0;
      assert events[..0] == [];
    }
  }

  /** The first section alone decides a call that stops there: a create of a key
      that is stored, an update or remove of one that is not. */
  lemma CheckDecides(s: Repository, id: nat, c: Call)
    requires id !in s.waiting && id !in s.answers
    ensures Step(s, Check(id, c)) ==
            if (c.write.Create? && c.key in s.devices) || (!c.write.Create? && c.key !in s.devices)
            then s.(answers := s.answers[id := Returned(false)])
            else s.(waiting := s.waiting[id := c])
  {
  }

  /** A call keeps waiting until its own second section. */
  lemma {:induction false} KeepsWaiting(s: Repository, events: seq<Event>, id: nat)
    requires id in s.waiting && forall i :: 0 <= i < |events| ==> events[i] != Act(id)
    ensures id in Run(s, events).waiting && Run(s, events).waiting[id] == s.waiting[id]
    decreases |events|
  {
    if events == [] {
    } else {
      KeepsWaiting(Step(s, events[0]), events[1..], id);
    }
  }

  /** The two maps hold the same under the key. */
  predicate Agree(d: Devices, e: Devices, key: Mac) {
    (key in d <==> key in e) && (key in d ==> d[key] == e[key])
  }

  /** The answer of a call whose first section let it go on, given what happens
      in between: a create or remove always claims success; an update throws
      exactly when its key is gone, which takes a remove of it in between. */
  lemma AnswerAfterInterference(s: Repository, id: nat, c: Call, between: seq<Event>) returns (k: nat)
    requires id !in s.waiting && id !in s.answers && GoesOn(s.devices, c)
    requires forall i :: 0 <= i < |between| ==> between[i] != Act(id)
    ensures var checked := Step(s, Check(id, c));
            var reached := Run(checked, between);
            var done := Step(reached, Act(id));
            && id in done.answers
            && (done.answers[id] == Threw <==> c.write.Update? && c.key !in reached.devices)
            && (done.answers[id] != Threw ==> done.answers[id] == Returned(true))
            && (done.answers[id] == Threw ==>
                  k < |between| && ActsAt(checked, between, k, c.key) && WriteAt(checked, between, k, c.key).Remove?)
            && (forall k :: k != c.key ==> Agree(done.devices, reached.devices, k))
            && (c.write.Remove? ==> c.key !in done.devices)
            && (c.write.Update? ==>
                  if c.key in reached.devices then c.key in done.devices && done.devices[c.key] == c.write.item
                  else c.key !in done.devices)
            && (c.write.Create? && c.key in reached.devices ==> Agree(done.devices, reached.devices, c.key))
            && (c.write.Create? ==> (c.key in done.devices && (done.devices[c.key] == c.write.item <==>
                  c.key !in reached.devices || reached.devices[c.key] == c.write.item)))
  {
    k := 0;
    var checked := Step(s, Check(id, c));
    KeepsWaiting(checked, between, id);
    if c.write.Update? && c.key !in Run(checked, between).devices {
      k := LossNeedsRemove(checked, between, c.key);
    }
  }

  /** What a plain map would do with the write, and say. */
  function Plain(devices: Devices, c: Call): (Devices, bool) {
    match c.write
    case Create(item) => if c.key in devices then (devices, false) else (devices[c.key := item], true)
    case Update(item) => if c.key in devices then (devices[c.key := item], true) else (devices, false)
    case Remove => (devices - {c.key}, c.key in devices)
  }

  ghost predicate NothingActs(s: Repository, events: seq<Event>, key: Mac) {
    forall k :: 0 <= k < |events| ==> !ActsAt(s, events, k, key)
  }

  /** What a key holds changes only where a call on it acts. */
  lemma {:induction false} NothingActsNothingChanges(s: Repository, events: seq<Event>, key: Mac)
    requires NothingActs(s, events, key)
    ensures Agree(Run(s, events).devices, s.devices, key)
    decreases |events|
  {
    if events == [] {
    } else {
      var t := Step(s, events[0]);
      forall k | 0 <= k < |events[1..]| ensures !ActsAt(t, events[1..], k, key) {
        StepsCompose(s, events, k + 1, key);
        assert !ActsAt(s, events, k + 1, key);
      }
      NothingActsNothingChanges(t, events[1..], key);
      assert events[..0] == [] && !ActsAt(s, events, 0, key);
    }
  }

  lemma {:induction false} KeepsAnswer(s: Repository, events: seq<Event>, id: nat)
    requires id in s.answers && id !in s.waiting
    ensures var t := Run(s, events); id in t.answers && id !in t.waiting && t.answers[id] == s.answers[id]
    decreases |events|
  {
    if events == [] {
    } else {
      KeepsAnswer(Step(s, events[0]), events[1..], id);
    }
  }

  lemma ActedIsPlain(checked: Devices, reached: Devices, c: Call)
    requires GoesOn(checked, c) && Agree(reached, checked, c.key)
    ensures var (devices, answer) := Acted(reached, c);
            && answer == Returned(Plain(checked, c).1)
            && Agree(devices, Plain(checked, c).0, c.key)
            && forall k :: k != c.key ==> Agree(devices, reached, k)
  {
  }

  /** With no call on its key acting between its sections, every call answers what
      the plain map says and leaves under its key what the plain map would; all
      other keys hold what the interference left there. */
  lemma Uninterrupted(s: Repository, id: nat, c: Call, between: seq<Event>)
    requires id !in s.waiting && id !in s.answers
    requires forall i :: 0 <= i < |between| ==> between[i] != Act(id)
    requires NothingActs(Step(s, Check(id, c)), between, c.key)
    ensures var reached := Run(Step(s, Check(id, c)), between);
            var done := Step(reached, Act(id));
            var (devices, r) := Plain(s.devices, c);
            && id in done.answers && done.answers[id] == Returned(r)
            && Agree(done.devices, devices, c.key)
            && forall k :: k != c.key ==> Agree(done.devices, reached.devices, k)
  {
    hide ActsAt, Run;
    var checked := Step(s, Check(id, c));
    NothingActsNothingChanges(checked, between, c.key);
    if GoesOn(s.devices, c) {
      KeepsWaiting(checked, between, id);
      ActedIsPlain(s.devices, Run(checked, between).devices, c);
      hide Plain, Acted, Agree, GoesOn;
    } else {
      KeepsAnswer(checked, between, id);
    }
  }

  lemma RunTwo(s: Repository, a: Event, b: Event)
    ensures Run(s, [a, b]) == Step(Step(s, a), b)
  {
    assert [a, b][1..] == [b] && [b][1..] == [];
    assert Run(Step(s, a), [b]) == Run(Step(Step(s, a), b), []);
  }

  /** A call whose sections follow one another turns one map into the other. */
  predicate Wrote(before: Devices, after: Devices, c: Call, r: bool) {
    var done := Run(Repository(before, map[], map[]), [Check(0, c), Act(0)]);
    after == done.devices && 0 in done.answers && done.answers[0] == Returned(r)
  }

  /** It is the plain map's write. */
  lemma Alone(before: Devices, c: Call)
    ensures forall after, r :: Wrote(before, after, c, r) <==> (after, r) == Plain(before, c)
  {
    var s := Repository(before, map[], map[]);
    RunTwo(s, Check(0, c), Act(0));
    Uninterrupted(s, 0, c, []);
    var done := Step(Step(s, Check(0, c)), Act(0));
    assert forall k: Mac :: Agree(done.devices, Plain(before, c).0, k);
    assert done.devices == Plain(before, c).0;
  }

  lemma RunFour(s: Repository, a: Event, b: Event, c: Event, d: Event)
    ensures Run(s, [a, b, c, d]) == Step(Step(Step(Step(s, a), b), c), d)
  {
    assert [a, b, c, d][1..] == [b, c, d] && [b, c, d][1..] == [c, d] && [c, d][1..] == [d] && [d][1..] == [];
    assert Run(Step(s, a), [b, c, d]) == Run(Step(Step(s, a), b), [c, d]);
    assert Run(Step(Step(s, a), b), [c, d]) == Run(Step(Step(Step(s, a), b), c), [d]);
    assert Run(Step(Step(Step(s, a), b), c), [d]) == Run(Step(Step(Step(Step(s, a), b), c), d), []);
  }

  /** Two creates that both check before either acts both claim success, and only
      the first to act stores its item. */
  lemma BothCreatesClaimSuccess(s: Repository, key: Mac, first: Device, second: Device, a: nat, b: nat)
    requires key !in s.devices && a != b
    requires {a, b} !! s.waiting.Keys + s.answers.Keys
    ensures var t := Run(s, [Check(a, Call(key, Create(first))), Check(b, Call(key, Create(second))), Act(a), Act(b)]);
            && t.answers == s.answers[a := Returned(true)][b := Returned(true)]
            && t.devices == s.devices[key := first]
  {
    var c, d := Call(key, Create(first)), Call(key, Create(second));
    RunFour(s, Check(a, c), Check(b, d), Act(a), Act(b));
    var s2 := Step(Step(s, Check(a, c)), Check(b, d));
    assert a in s2.waiting && b in s2.waiting;
    var s3 := Step(s2, Act(a));
    assert b in s3.waiting && s3.devices == s.devices[key := first];
    assert Step(s3, Act(b)).answers == s3.answers[b := Returned(true)];
  }

  datatype IterResult = Break | Continue

  predicate Stored(devices: Devices, keys: seq<Mac>) {
    forall i :: 0 <= i < |keys| ==> keys[i] in devices
  }

  function DevicesAt(devices: Devices, keys: seq<Mac>): (s: seq<Device>)
    requires Stored(devices, keys)
  {
    seq(|keys|, i requires 0 <= i < |keys| => devices[keys[i]])
  }

  /** The callback's verdict on the last of `keys`, having seen those before. */
  function Verdict(func: (seq<Device>, Device) -> IterResult, devices: Devices, keys: seq<Mac>): IterResult
    requires keys != [] && Stored(devices, keys)
  {
    func(DevicesAt(devices, keys[..|keys| - 1]), devices[keys[|keys| - 1]])
  }

  /** The callback let the iteration go on after each of `keys`. */
  predicate WentOn(func: (seq<Device>, Device) -> IterResult, devices: Devices, keys: seq<Mac>)
    requires Stored(devices, keys)
  {
    keys == [] || (Verdict(func, devices, keys) == Continue && WentOn(func, devices, keys[..|keys| - 1]))
  }

  ghost predicate Ascending(keys: seq<Mac>) {
    forall i, j :: 0 <= i < j < |keys| ==> Value(keys[i]) < Value(keys[j])
  }

  /** The devices split into those visited, in order, and the greater rest. */
  ghost predicate Visiting(devices: Devices, visited: seq<Mac>, rest: set<Mac>) {
    && Stored(devices, visited) && Ascending(visited)
    && rest <= devices.Keys
    && (forall k | k in devices :: k in rest || k in visited)
    && (forall i, k :: 0 <= i < |visited| && k in rest ==> Value(visited[i]) < Value(k))
  }

  lemma VisitLeast(devices: Devices, visited: seq<Mac>, rest: set<Mac>, k: Mac)
    requires Visiting(devices, visited, rest)
    requires k in rest && forall j :: j in rest && j != k ==> Value(k) < Value(j)
    ensures Visiting(devices, visited + [k], rest - {k})
  {
    hide M.Value;
    var next := visited + [k];
    assert next[|visited|] == k;
    forall j | j in devices ensures j in rest - {k} || j in next {
      assert j in rest || j in visited;
    }
  }

  lemma NothingVisited(devices: Devices)
    ensures Visiting(devices, [], devices.Keys)
  {
  }

  ghost predicate Gapless(devices: Devices, visited: seq<Mac>) {
    forall k, i :: k in devices && 0 <= i < |visited| && Value(k) < Value(visited[i]) ==> k in visited
  }

  lemma VisitingIsGapless(devices: Devices, visited: seq<Mac>, rest: set<Mac>)
    requires Visiting(devices, visited, rest)
    ensures Gapless(devices, visited)
  {
    hide M.Value;
  }

  lemma {:induction false} LeastExists(keys: set<Mac>)
    requires keys != {}
    ensures exists k :: k in keys && forall j :: j in keys ==> Value(k) <= Value(j)
  {
    hide M.Value;
    var k :| k in keys;
    if keys != {k} {
      LeastExists(keys - {k});
      var m :| m in keys - {k} && forall j :: j in keys - {k} ==> Value(m) <= Value(j);
      assert forall j :: j in keys ==> j == k || j in keys - {k};
    } else {
      assert forall j :: j in keys ==> j == k;
    }
  }

  /** Advancing the iterator of the ordered map: the least key not yet seen. */
  method LeastKey(keys: set<Mac>) returns (k: Mac)
    requires keys != {}
    ensures k in keys && forall j :: j in keys && j != k ==> Value(k) < Value(j)
  {
    LeastExists(keys);
    k :| k in keys && forall j :: j in keys ==> Value(k) <= Value(j);
    forall j: Mac | j in keys && j != k ensures Value(k) < Value(j) {
      LeValueOrder(k, j);
    }
  }

  class DeviceRepository {
    var devices: Devices

    constructor ()
      ensures devices == map[]
    {
      devices := map[];
    }

    method Has(mac: Mac) returns (r: bool)
      ensures r <==> mac in devices
    {
      r := mac in devices;
    }

    method Read(mac: Mac) returns (r: Result<Device, ErrorType>)
      ensures r == if mac in devices then Success(devices[mac]) else Failure(NotFound)
    {
      if mac in devices {
        return Success(devices[mac]);
      }
      return Failure(NotFound);
    }

    method CreateDevice(mac: Mac, item: Device) returns (r: bool)
      modifies this
      ensures Wrote(old(devices), devices, Call(mac, Create(item)), r)
      ensures r <==> mac !in old(devices)
      ensures devices == if mac in old(devices) then old(devices) else old(devices)[mac := item]
    {
      Alone(devices, Call(mac, Create(item)));
      var present := Has(mac);
      if present {
        return false;
      }
      if mac !in devices {
        devices := devices[mac := item];
      }
      return true;
    }

    method UpdateDevice(mac: Mac, item: Device) returns (r: bool)
      modifies this
      ensures Wrote(old(devices), devices, Call(mac, Update(item)), r)
      ensures r <==> mac in old(devices)
      ensures devices == if mac in old(devices) then old(devices)[mac := item] else old(devices)
    {
      Alone(devices, Call(mac, Update(item)));
      var present := Has(mac);
      if !present {
        return false;
      }
      devices := devices[mac := item];
      return true;
    }

    method RemoveDevice(mac: Mac) returns (r: bool)
      modifies this
      ensures Wrote(old(devices), devices, Call(mac, Remove), r)
      ensures r <==> mac in old(devices)
      ensures devices == old(devices) - {mac}
    {
      Alone(devices, Call(mac, Remove));
      var present := Has(mac);
      if !present {
        return false;
      }
      devices := devices - {mac};
      return true;
    }

    /** The stored device with the least key that `func` accepts. */
    method FindBy(func: Device -> bool) returns (r: Result<Device, ErrorType>)
      ensures r.Success? <==> exists k :: k in devices && func(devices[k])
      ensures r.Success? ==>
                (exists k :: k in devices && devices[k] == r.value && func(r.value)
                             && (forall j :: j in devices && func(devices[j]) ==> Value(k) <= Value(j)))
      ensures r.Failure? ==> r.error == NotFound
    {
      var rest := devices.Keys;
      while rest != {}
        invariant rest <= devices.Keys
        invariant forall k :: k in devices && k !in rest ==> !func(devices[k])
        decreases rest
      {
        var k := LeastKey(rest);
        if func(devices[k]) {
          return Success(devices[k]);
        }
        rest := rest - {k};
      }
      return Failure(NotFound);
    }

    method Find(ip: IPv4) returns (r: Result<Device, ErrorType>)
      ensures r.Success? <==> exists k :: k in devices && devices[k].ipAddress == ip
      ensures r.Success? ==>
                (exists k :: k in devices && devices[k] == r.value && r.value.ipAddress == ip
                             && (forall j :: j in devices && devices[j].ipAddress == ip ==> Value(k) <= Value(j)))
      ensures r.Failure? ==> r.error == NotFound
    {
      r := FindBy((device: Device) => device.ipAddress == ip);
    }

    method Contains(func: Device -> bool) returns (r: bool)
      ensures r <==> exists k :: k in devices && func(devices[k])
    {
      var rest := devices.Keys;
      while rest != {}
        invariant rest <= devices.Keys
        invariant forall k :: k in devices && k !in rest ==> !func(devices[k])
        decreases rest
      {
        var k := LeastKey(rest);
        if func(devices[k]) {
          return true;
        }
        rest := rest - {k};
      }
      return false;
    }

    /** Visits keys in ascending order without gaps, up to and including the
        first on which `func`, which may remember the devices it saw, breaks off. */
    method Iterate(func: (seq<Device>, Device) -> IterResult) returns (visited: seq<Mac>)
      ensures Stored(devices, visited) && Ascending(visited) && Gapless(devices, visited)
      ensures visited != [] ==> WentOn(func, devices, visited[..|visited| - 1])
      ensures (exists k :: k in devices && k !in visited) ==> visited != [] && Verdict(func, devices, visited) == Break
    {
      hide M.Value, Ascending, Gapless;
      visited := [];
      var seen := [];
      var rest := devices.Keys;
      assert Visiting(devices, visited, rest) by {
        NothingVisited(devices);
      }
      while rest != {}
        invariant Visiting(devices, visited, rest)
        invariant seen == DevicesAt(devices, visited) && WentOn(func, devices, visited)
        decreases rest
      {
        var k := LeastKey(rest);
        var verdict := func(seen, devices[k]);
        VisitLeast(devices, visited, rest, k);
        assert (visited + [k])[..|visited|] == visited;
        seen := seen + [devices[k]];
        visited := visited + [k];
        rest := rest - {k};
        if verdict == Break {
          break;
        }
      }
      VisitingIsGapless(devices, visited, rest);
    }
  }
}
