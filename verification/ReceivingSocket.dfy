/** The receive path: a stream buffer that one asynchronous receive fills at a
    time, drained into a bounded single-producer single-consumer queue. */
module ReceivingSocket {
  import opened Wrappers
  import opened Bytes

  /** `MaxBufferSize()`: octets prepared per receive, and slots of the queue. */
  const MAX_BUFFER_SIZE: nat := 1024

  datatype ReceivedPacket = ReceivedPacket(arrival: int, bytes: seq<byte>)

  /** Completion of a receive with the octets written to the prepared area, with
      an error, or a consumer asking for the next packet. */
  datatype Event = Deliver(data: seq<byte>, now: int) | Fail | Next

  /** Readable octets of the buffer, room prepared for the pending receive (None
      when no receive is pending), queued packets, packets handed out. */
  datatype Path = Path(readable: seq<byte>, room: Option<nat>, queue: seq<ReceivedPacket>, popped: seq<ReceivedPacket>)

  const CREATED := Path([], None, [], [])

  /** `startReceive`: nothing is readable and a receive is pending. */
  function Started(s: Path): Path {
    s.(readable := [], room := Some(MAX_BUFFER_SIZE))
  }

  /** Only a pending receive completes, and it fills no more than its room. */
  predicate Possible(s: Path, e: Event) {
    match e
    case Deliver(data, _) => s.room.Some? && |data| <= s.room.value
    case Fail => s.room.Some?
    case Next => true
  }

  function Push(queue: seq<ReceivedPacket>, p: ReceivedPacket): seq<ReceivedPacket> {
    if |queue| < MAX_BUFFER_SIZE then queue + [p] else queue
  }

  /** One step; an event that cannot happen leaves the state as it is. */
  function Step(s: Path, e: Event): Path {
    if !Possible(s, e) then s
    else
      match e
      case Deliver(data, now) =>
        var committed := s.readable + data;
        Started(s.(queue := Push(s.queue, ReceivedPacket(now, committed[..|data|]))))
      case Fail => Started(s)
      case Next => if s.queue == [] then s else s.(queue := s.queue[1..], popped := s.popped + [s.queue[0]])
  }

  function Run(s: Path, events: seq<Event>): Path
    decreases |events|
  {
    if events == [] then s else Run(Step(s, events[0]), events[1..])
  }

  /** The packet a step should keep: a delivery that finds a free slot, with
      exactly the delivered octets. */
  function AcceptedNow(s: Path, e: Event): seq<ReceivedPacket> {
    if e.Deliver? && Possible(s, e) && |s.queue| < MAX_BUFFER_SIZE then [ReceivedPacket(e.now, e.data)] else []
  }

  function Accepted(s: Path, events: seq<Event>): seq<ReceivedPacket>
    decreases |events|
  {
    if events == [] then [] else AcceptedNow(s, events[0]) + Accepted(Step(s, events[0]), events[1..])
  }

  /** A receive with full room is pending and nothing is readable. */
  predicate Receiving(s: Path) {
    s.readable == [] && s.room == Some(MAX_BUFFER_SIZE) && |s.queue| <= MAX_BUFFER_SIZE
  }

  lemma CreationStarts()
    ensures Receiving(Started(CREATED))
  {
  }

  lemma StepFidelity(s: Path, e: Event)
    requires Receiving(s)
    ensures var t := Step(s, e);
            t.popped + t.queue == s.popped + s.queue + AcceptedNow(s, e) && Receiving(t)
  {
    if e.Deliver? && Possible(s, e) {
      assert ([] + e.data)[..|e.data|] == e.data;
    } else if e.Next? && s.queue != [] {
      assert s.popped + [s.queue[0]] + s.queue[1..] == s.popped + s.queue;
    }
  }

  /** Each step taken by itself: a delivery ends up at the end of the queue or is
      dropped because no slot is free, and the consumer gets the oldest packet. */
  lemma StepEffects(s: Path, data: seq<byte>, now: int)
    requires Receiving(s)
    ensures Step(s, Deliver(data, now)) ==
            if |data| <= 1024 && |s.queue| < 1024 then s.(queue := s.queue + [ReceivedPacket(now, data)]) else s
    ensures Step(s, Fail) == s
    ensures Step(s, Next) ==
            if s.queue == [] then s else s.(queue := s.queue[1..], popped := s.popped + [s.queue[0]])
  {
    assert [] + data == data && data[..|data|] == data;
  }

  /** Over every run: what was handed out followed by what is still queued is the
      accepted packets, in order and octet for octet, and a receive is always
      pending, with nothing readable and full room. */
  lemma {:induction false} Fidelity(s: Path, events: seq<Event>)
    requires Receiving(s)
    ensures var t := Run(s, events);
            t.popped + t.queue == s.popped + s.queue + Accepted(s, events) && Receiving(t)
    decreases |events|
  {
    hide Step, AcceptedNow, Receiving;
    if events == [] {
    } else {
      StepFidelity(s, events[0]);
      Fidelity(Step(s, events[0]), events[1..]);
    }
  }

  class BoostSocketListener {
    var readable: seq<byte>
    var room: Option<nat>
    var packetBuffer: seq<ReceivedPacket>
    ghost var popped: seq<ReceivedPacket>

    ghost function Model(): Path
      reads this
    {
      Path(readable, room, packetBuffer, popped)
    }

    /** Whoever creates a listener starts its first receive. */
    constructor ()
      ensures Model() == CREATED
    {
      readable, room, packetBuffer, popped := [], None, [], [];
    }

    /** Discards what is readable, prepares room and asks the socket to receive. */
    method StartReceive()
      modifies this`readable, this`room
      ensures Model() == Started(old(Model()))
    {
      readable := readable[|readable|..];
      room := Some(MAX_BUFFER_SIZE);
    }

    /** Completes the pending receive. */
    method HandleReceive(error: bool, data: seq<byte>, now: int)
      requires Possible(Model(), if error then Fail else Deliver(data, now))
      modifies this
      ensures Model() == Step(old(Model()), if error then Fail else Deliver(data, now))
    {
      room := None;
      if error {
        StartReceive();
        return;
      }
      readable := readable + data;
      var packet := ReceivedPacket(now, readable[..|data|]);
      readable := readable[|data|..];
      if |packetBuffer| < MAX_BUFFER_SIZE {
        packetBuffer := packetBuffer + [packet];
      }
      StartReceive();
    }

    method NextReceivedPacket() returns (r: Option<ReceivedPacket>)
      modifies this
      ensures Model() == Step(old(Model()), Next)
      ensures r == if old(packetBuffer) == [] then None else Some(old(packetBuffer)[0])
    {
      if packetBuffer == [] {
        return None;
      }
      r := Some(packetBuffer[0]);
      popped := popped + [packetBuffer[0]];
      packetBuffer := packetBuffer[1..];
    }
  }
}
