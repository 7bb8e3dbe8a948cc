/** What `discover` sets going: a ping, a resolver that holds its future, and a
    post to the default runner. */
module IcmpDeviceDiscoveryTask {
  import opened Wrappers
  import opened IPv4Address
  import opened IcmpScanner
  import opened DeviceDiscoveryTask
  import opened FutureResolver
  import opened Discovery
  import R = TaskRunner

  class IcmpDeviceDiscoveryTask {
    const icmpScanner: IcmpScanner
    const recorded: DeviceDiscoveryTask
    const runner: R.TaskRunner<Task>

    constructor (icmpScanner: IcmpScanner, recorded: DeviceDiscoveryTask, runner: R.TaskRunner<Task>)
      ensures this.icmpScanner == icmpScanner && this.recorded == recorded && this.runner == runner
    {
      this.icmpScanner, this.recorded, this.runner := icmpScanner, recorded, runner;
    }

    method CreatePingResolver(host: IPv4, now: int) returns (resolver: IcmpPingResolver)
      requires icmpScanner.Valid()
      modifies icmpScanner
      ensures icmpScanner.Valid() && icmpScanner.Model() == Ping(old(icmpScanner.Model()), host, now)
      ensures fresh(resolver) && resolver.discoveryTask == recorded && resolver.retryDelay == RETRY_DELAY
      ensures resolver.future == Some(old(|icmpScanner.pings|))
    {
      resolver := new IcmpPingResolver(recorded);
      var future := icmpScanner.PingAsync(host, now);
      resolver.SetFuture(future);
    }

    /** In the step system this is PingHost followed by PostResolver. */
    method Discover(host: IPv4, now: int, ghost s: State) returns (resolver: IcmpPingResolver)
      requires icmpScanner.Valid()
      requires Consistent(s) && s.scanner == icmpScanner.Model() && s.runner == runner.Model()
      modifies icmpScanner, runner
      ensures fresh(resolver) && resolver.future == Some(|s.scanner.pings|)
      ensures icmpScanner.Valid()
      ensures Inv(Next(s, PingHost(host, now)).scanner)
      ensures var t := Next(Next(s, PingHost(host, now)), PostResolver(|s.scanner.pings|));
              && t == s.(scanner := icmpScanner.Model(), runner := runner.Model(), posted := s.posted + {|s.scanner.pings|})
    {
      hide Inv, R.Conserved, R.Tokens;
      PingKeepsInv(s.scanner, host, now);
      resolver := CreatePingResolver(host, now);
      assert |s.scanner.pings| !in s.posted;
      runner.Post(Resolve(resolver.future.value));
    }
  }
}
