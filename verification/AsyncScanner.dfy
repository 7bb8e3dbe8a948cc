/** The polling loop of an asynchronous scanner, one run at a time. */
module AsyncScanner {
  import opened Wrappers
  import opened IcmpScanner
  import opened R = TaskRunner

  /** Delays in milliseconds. */
  const SWEEP_DELAY: nat := 100
  const IDLE_DELAY: nat := 1000

  /** `PingResolver::run` once it has read the running flag: the scanner, the
      packets left and the continuation. */
  function PollBody(s: Scanner, queue: seq<Packet>, running: bool, now: int): (r: (Scanner, seq<Packet>, Continuation))
    requires Inv(s)
  {
    if !running then (s, queue, End)
    else if s.pending == map[] then (s, queue, RunAgainDelayed(IDLE_DELAY))
    else if queue == [] then (Sweep(s, now), queue, RunAgainDelayed(SWEEP_DELAY))
    else (Receive(s, queue[0]), queue[1..], RunAgain)
  }

  class AsyncScanner {
    const scanner: IcmpScanner
    var running: bool
    var received: seq<Packet>  // what nextReceivedPacket will hand out

    constructor (scanner: IcmpScanner)
      ensures this.scanner == scanner && !running && received == []
    {
      this.scanner := scanner;
      running, received := false, [];
    }

    /** A polling task is created and posted; the caller keeps it as current. */
    method StartScanning<T(==)>(runner: R.TaskRunner<T>, poll: T)
      modifies this`running, runner
      ensures running && runner.Model() == R.Step(old(runner.Model()), R.Post(poll))
    {
      running := true;
      runner.Post(poll);
    }

    /** The first statement of `stopScanning`; waiting follows. */
    method ClearRunning()
      modifies this`running
      ensures !running
    {
      running := false;
    }

    method RunPingResolver(now: int) returns (next: Continuation)
      requires scanner.Valid()
      modifies this`received, scanner
      ensures scanner.Valid()
      ensures (scanner.Model(), received, next) == PollBody(old(scanner.Model()), old(received), running, now)
      ensures !running ==> next == End
      ensures !running || old(scanner.pendingRequests) == map[] ==>
                scanner.Model() == old(scanner.Model()) && received == old(received)
      ensures running && old(scanner.pendingRequests) == map[] ==> next == RunAgainDelayed(1000)
      ensures running && old(scanner.pendingRequests) != map[] && old(received) == [] ==>
                scanner.Model() == Sweep(old(scanner.Model()), now) && received == [] && next == RunAgainDelayed(100)
      ensures running && old(scanner.pendingRequests) != map[] && old(received) != [] ==>
                && scanner.Model() == Receive(old(scanner.Model()), old(received)[0])
                && received == old(received)[1..] && next == RunAgain
    {
      if !running {
        return End;
      }
      var pending := scanner.HasPendingRequests();
      if pending {
        if received != [] {
          var packet := received[0];
          received := received[1..];
          scanner.OnPacketReceived(packet);
          return RunAgain;
        }
        scanner.SweepTimeouts(now);
        return RunAgainDelayed(SWEEP_DELAY);
      } else {
        return RunAgainDelayed(IDLE_DELAY);
      }
    }
  }
}
