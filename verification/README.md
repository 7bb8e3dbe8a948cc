# Verification model of the network-discovery library

These Dafny modules model the logic of the library: the SNMP subtree walk and the
life of SNMP requests, ICMP discovery on the task runner, addresses and their
text, address ranges, the bounded counter, the device repository and the receive
path. `dafny verify dfyconfig.toml` checks everything.

Objects whose methods update fields are classes here. Each method is proved
against a specification function: of the whole abstract state (`Model()`) where
runs are modelled, of the fields it changes otherwise. The run-level theorems are
lemmas about those functions: a run is a sequence of events, and an event that
cannot happen leaves the state as it is.

| file | what it models |
|---|---|
| `SnmpAgent.dfy`, `SnmpClient.dfy` | an agent answering GETBULK after section 4.2.3 of RFC 3416; gets, bulk gets and walks, their promises and the pending map |
| `IcmpScanner.dfy`, `AsyncScanner.dfy` | the scanner's pending promises and one run of the polling task |
| `TaskRunner.dfy`, `FutureResolver.dfy` | ready queue, timers, continuations; the task that polls a future |
| `DeviceDiscoveryTask.dfy`, `IcmpDeviceDiscoveryTask.dfy` | recorded results; `discover` |
| `Discovery.dfy`, `DiscoveryProtocol.dfy` | all of the above as one step system, and what holds over its runs |
| `Bytes.dfy`, `ByteOrder.dfy`, `IPv4Address.dfy`, `MacAddress.dfy` | octets, integers and orders |
| `Text.dfy`, `IPv4Text.dfy`, `MacText.dfy` | printing and the `sscanf` parser |
| `Sequence.dfy`, `DeviceDiscoveryService.dfy` | ranges with wrap-around and the range loop over all tasks |
| `WrapAround.dfy`, `DeviceRepository.dfy`, `ReceivingSocket.dfy` | the counter, the repository, the receive buffer and queue |
| `LexOrder.dfy`, `Wrappers.dfy` | lexicographic order; option and result types |

## What turned out not to hold

Each of these is stated by the lemma named, with its exact condition.

- A walk whose subtree is the last thing in the agent's MIB never succeeds: it ends
  in `TimedOut` (`SnmpClient.Walk`, `SnmpClient.WalkAmongOthers`). It succeeds
  exactly when some instance sorts after the subtree.
- A finished walk stays in the pending map, and no walk names its host
  (`SnmpClient.NextKeepsLifecycle`). An answered get names its host exactly when the
  reply holds a binding (`SnmpClient.AnsweredGet`).
- After a success the pinged host has a fresh result exactly when the reply was
  addressed to the pinged host itself (`DeviceDiscoveryTask.PingedHostReads`).
- Pinging a pending host breaks the earlier promise (`IcmpScanner.PingBreaksOnlyItsHost`).
- An inclusive range over the whole address space is empty
  (`Sequence.InclusiveRange`), and the mixed `rangeOf` overloads honour only an
  exclusive begin and an inclusive end (`Sequence.RangeFromBound`,
  `Sequence.RangeToBound`).
- The MAC order is right for all pairs exactly when both conversions find the same
  uninitialised top bits (`MacAddress.OrderNeedsEqualTops`).
- The counter is cyclic upwards exactly when its maximum is below the natural one,
  its minimum is the natural one, or both coincide; downwards mirrored
  (`WrapAround.CyclicExactly`).
- Two interleaved creates can both return true (`DeviceRepository.BothCreatesClaimSuccess`);
  each stores its item exactly when the key is still free
  (`DeviceRepository.AnswerAfterInterference`).

Beside these, a ping still pending when scanning has stopped does not time out: its
resolver polls on, without a callback, until scanning restarts or its host is pinged
again (`DiscoveryProtocol.StoppedStrands`). A comment in `ReceivingSocket.h` (line 77)
speaks of 64KB per receive; the code prepares 1024 octets, and the model follows the
code.

## Assumptions

A little-endian host; clock readings are arbitrary and need not increase; one runner
thread and a FIFO ready queue; each function body is one step, except that a polling
run reads the running flag in one step and acts in the next, and that the repository
takes one step per lock section; SNMP++ calls back once for each PDU sent; uuids are
fresh; a value one step outside an integer type's range converts to the other end of
it (`WrapAround`); a number read by `%hhx` is stored modulo 256 and an
unrepresentable one reads as the largest `unsigned long`.

## Model

| member | source | states |
|---|---|---|
| SnmpAgent.GetBulkReply | core/core/net/snmp/SnmpClient.cpp:216-217 | the agent a walk talks to: a GETBULK reply is the next instances in order, then endOfMibView under the last name |
| SnmpAgent.SubtreeIsStretch | core/core/net/snmp/SnmpClient.cpp:189-203 | in a sorted MIB the instances strictly below a root are one contiguous stretch, and something follows it exactly when the stretch ends before the MIB does |
| LexOrder.SubtreeIsInterval | core/core/net/snmp/SnmpClient.cpp:199-203 | whatever sorts between a root and one of its extensions is an extension of the root |
| SnmpClient.NCompareIsPrefix | core/core/net/snmp/SnmpClient.cpp:199 | comparing as many sub-identifiers as the root has gives zero exactly for OIDs that extend the root |
| SnmpClient.SnmpClient.GetAsync | core/core/net/snmp/SnmpClient.cpp:54-62 | a fresh request is pending, unresolved, with its PDU on the wire |
| SnmpClient.SnmpClient.GetBulkAsync | core/core/net/snmp/SnmpClient.cpp:69-77 | the same for a bulk get with the caller's repeater counts |
| SnmpClient.SnmpClient.WalkAsync | core/core/net/snmp/SnmpClient.cpp:84-94 | a walk request remembers its root and sends a GETBULK of the root with 10 repetitions |
| SnmpClient.SnmpClient.Callback | core/core/net/snmp/SnmpClient.cpp:140-152 | a callback for a PDU on the wire runs the walk or get handler; in no reachable state does it set a promise twice |
| SnmpClient.SnmpClient.HandleGet | core/core/net/snmp/SnmpClient.cpp:154-179 | the loop collects the valid bindings in order, fills the host in per binding, settles the promise and erases the request |
| SnmpClient.SnmpClient.HandleWalk | core/core/net/snmp/SnmpClient.cpp:181-218 | the loop stops at the first binding outside the subtree (success) or endOfMibView (TimedOut), else re-sends from the last binding; the request is never erased |
| SnmpClient.NextKeepsLifecycle | core/core/net/snmp/SnmpClient.cpp:140-225 | every step keeps: unresolved requests are exactly those on the wire; the pending map is the unresolved requests and the finished walks; walks collect only their subtree and never set a host |
| SnmpClient.SettledOnce | core/core/net/snmp/SnmpClient.cpp:159-185 | over every run a promise that was set keeps its value |
| SnmpClient.AnsweredGet | core/core/net/snmp/SnmpClient.cpp:156-169 | an answered get holds the valid bindings, all of them and no other, in order, names its host exactly when there was a binding, and is erased |
| SnmpClient.FailedGet | core/core/net/snmp/SnmpClient.cpp:171-178 | any other get fails with TimedOut or Unknown, and is erased |
| SnmpClient.AskStarts | core/core/net/snmp/SnmpClient.cpp:54-94 | what each kind of request puts on the wire and remembers |
| SnmpClient.TimedOutWalk | core/core/net/snmp/SnmpClient.cpp:183-187 | a walk whose PDU got no answer fails with TimedOut whatever it had collected, and stays pending |
| SnmpClient.WalkAnswer | core/core/net/snmp/SnmpClient.cpp:189-217 | for any reply: what is collected, and whether the walk succeeds, fails or asks on, and with which OID |
| SnmpClient.SuccessNeedsEnd | core/core/net/snmp/SnmpClient.cpp:199-203 | over every run and any replies, a walk succeeds only by a reply that shows a binding outside its subtree |
| SnmpClient.OthersUntouched | core/core/net/snmp/SnmpClient.cpp:220-225 | a step about one request changes nothing of any other |
| SnmpClient.Round | core/core/net/snmp/SnmpClient.cpp:191-217 | one reply either is collected whole and moves the walk on, or stops it exactly at the end of the subtree |
| SnmpClient.WalkRound | core/core/net/snmp/SnmpClient.cpp:181-218 | a reply of any batch size brings a walk nearer its end or settles it with the right result |
| SnmpClient.WalkAmongOthers | core/core/net/snmp/SnmpClient.cpp:84-94 | over every interleaving and every choice of batch sizes a started walk is collecting the subtree in order, one instance or more for each reply, or was settled with: the instances strictly below the root if something sorts after the subtree, TimedOut otherwise |
| SnmpClient.WalkEnds | core/core/net/snmp/SnmpClient.cpp:192-217 | over every interleaving, more replies than there are instances left to collect settle the walk with that result |
| SnmpClient.Walk | core/core/net/snmp/SnmpClient.cpp:79-82 | the whole walk terminates with that result after at most one round more than there are instances |
| IcmpScanner.IcmpScanner.PingAsync | core/core/net/scanner/IcmpScanner.cpp:84-95 | the host's entry holds a new promise; a promise assigned over is broken |
| IcmpScanner.IcmpScanner.OnPacketReceived | core/core/net/scanner/IcmpScanner.cpp:98-129 | a reply from a pending host answers its promise and erases it; other packets change nothing |
| IcmpScanner.IcmpScanner.SweepTimeouts | core/core/net/scanner/IcmpScanner.cpp:131-150 | the loop settles and erases exactly the requests five seconds old or older, in whatever order, setting no promise twice |
| IcmpScanner.IcmpScanner.HasPendingRequests | core/core/net/scanner/IcmpScanner.cpp:152-155 | true exactly when some request is pending |
| IcmpScanner.StepKeepsInv | core/core/net/scanner/IcmpScanner.cpp:94-150 | every step keeps: each issued promise is pending or settled, never both, and settled fittingly |
| IcmpScanner.OutcomesAreFinal | core/core/net/scanner/IcmpScanner.cpp:125-141 | over every run a settled promise keeps its outcome |
| IcmpScanner.CountsAddUp | core/core/net/scanner/IcmpScanner.cpp:94-143 | pings made are pending plus answered plus timed out plus broken |
| IcmpScanner.PromiseConservation | core/core/net/scanner/IcmpScanner.cpp:94-143 | over every run each promise is in exactly one of those four, broken only by a later ping of the same host |
| IcmpScanner.OneHostAtATime | core/core/net/scanner/IcmpScanner.cpp:94-143 | no step touches another host's request; the sweep keeps and removes by age alone |
| IcmpScanner.ReplyAnswers | core/core/net/scanner/IcmpScanner.cpp:98-129 | a reply from a host with a request answers that promise and no other, with its own headers and the elapsed whole milliseconds; any other packet changes nothing |
| IcmpScanner.SweepExpires | core/core/net/scanner/IcmpScanner.cpp:131-150 | pending promises expire exactly at five seconds or more, each with an error naming its host |
| IcmpScanner.PingBreaksOnlyItsHost | core/core/net/scanner/IcmpScanner.cpp:94 | a ping breaks the promise pending for its host and settles no other |
| IcmpScanner.PingThenReply | core/core/net/scanner/IcmpScanner.cpp:94-143 | after a ping a reply answers it with the time since it was sent in milliseconds, and a sweep expires it exactly after five seconds |
| AsyncScanner.AsyncScanner.RunPingResolver | core/core/net/scanner/IScanner.h:46-68 | one polling run: end when not running, take one packet, else sweep, else wait |
| AsyncScanner.AsyncScanner.StartScanning | core/core/net/scanner/IScanner.h:83-89 | raises the flag and posts a polling task |
| AsyncScanner.AsyncScanner.ClearRunning | core/core/net/scanner/IScanner.h:92-94 | lowers the flag |
| TaskRunner.TaskRunner.Post | core/core/util/async/Task.cpp:35-43 | the task becomes ready unless the context is stopped |
| TaskRunner.TaskRunner.PostDelayed | core/core/util/async/Task.cpp:50-53 | a timer holds the task |
| TaskRunner.TaskRunner.TimerExpired | core/core/util/async/Task.cpp:53-56 | an expired timer posts its task if the runner is alive |
| TaskRunner.TaskRunner.ResolveRun | core/core/util/async/Task.cpp:59-66 | the continuation decides where the token goes |
| TaskRunner.TaskRunner.Destroy | core/core/util/async/Task.cpp:29-33 | the alive flag falls before the context stops |
| TaskRunner.StepConserves | core/core/util/async/Task.cpp:35-66 | every step keeps: outstanding tokens, ends and losses add up to the posts, and nothing is lost while the runner is up |
| TaskRunner.PostPlaces | core/core/util/async/Task.cpp:35-57 | a posted task goes to the end of the ready queue unless the context is stopped, a delayed one into a timer |
| TaskRunner.FinishPlaces | core/core/util/async/Task.cpp:59-66 | RunAgain puts the task at the end of the ready queue, RunAgainDelayed into a timer of that delay, End nowhere |
| TaskRunner.ThreadTakes | core/core/util/async/Task.cpp:29-57 | an idle thread takes the oldest ready task or an expired timer, whose task is readied only while the runner is alive |
| TaskRunner.RunConserves | core/core/util/async/Task.cpp:35-66 | the same over every run |
| TaskRunner.PostedOnce | core/core/util/async/Task.cpp:35-66 | a task posted once has one token until it ends, none afterwards, and never two executions |
| FutureResolver.IcmpPingResolver.Run | core/core/util/async/FutureResolver.h:44-63 | a ready future is consumed, reported and ends the task; otherwise the task retries after its delay |
| DeviceDiscoveryTask.DeviceDiscoveryTask.AddSuccess | core/core/services/device_discovery/DeviceDiscoveryTask.cpp:6-12 | exactly the host's entry becomes the success, and the callback is told |
| DeviceDiscoveryTask.DeviceDiscoveryTask.AddError | core/core/services/device_discovery/DeviceDiscoveryTask.cpp:14-20 | exactly the host's entry becomes the error, and the callback is told |
| DeviceDiscoveryTask.DeviceDiscoveryTask.GetResult | core/core/services/device_discovery/DeviceDiscoveryTask.cpp:27-34 | the entry of the address, if any |
| DeviceDiscoveryTask.DeviceDiscoveryTask.ConsumeResult | core/core/services/device_discovery/DeviceDiscoveryTask.cpp:36-44 | returns the host's entry and removes it and no other |
| DeviceDiscoveryTask.DeviceDiscoveryTask.ClearResult | core/core/services/device_discovery/DeviceDiscoveryTask.cpp:51-54 | removes exactly the host's entry |
| DeviceDiscoveryTask.DeviceDiscoveryTask.ClearResults | core/core/services/device_discovery/DeviceDiscoveryTask.cpp:46-49 | no address has a result |
| DeviceDiscoveryTask.DeviceDiscoveryTask.Complete | core/core/services/device_discovery/icmp/IcmpDeviceDiscoveryTask.cpp:12-48 | a settled promise is filed as success or error and the matching callback told; a broken one is only logged |
| DeviceDiscoveryTask.PingedHostReads | core/core/services/device_discovery/icmp/IcmpDeviceDiscoveryTask.cpp:14-32 | when the pinged host reads a fresh result, exactly |
| IcmpDeviceDiscoveryTask.IcmpDeviceDiscoveryTask.CreatePingResolver | core/core/services/device_discovery/icmp/IcmpDeviceDiscoveryTask.cpp:76-81 | pings and gives the future to a new resolver |
| IcmpDeviceDiscoveryTask.IcmpDeviceDiscoveryTask.Discover | core/core/services/device_discovery/icmp/IcmpDeviceDiscoveryTask.cpp:70-87 | one discovery is a ping followed by one post, as in the step system |
| Discovery.NextKeeps | core/core/net/scanner/IScanner.h:46-99 | every step of the whole system keeps: promises and tokens conserved, resolvers that ended are the callbacks made, each true of its promise, and the last polling task present while the flag is up or a polling run acts |
| DiscoveryProtocol.ResolverReportsOnce | core/core/util/async/FutureResolver.h:44-63 | over every run a posted resolver either has one token and no callback or none and exactly one, which tells field by field what became of its promise and for which host |
| DiscoveryProtocol.SettledResolverEnds | core/core/services/device_discovery/icmp/IcmpDeviceDiscoveryTask.cpp:12-48 | the run of a resolver whose promise is settled makes one faithful callback, changes the results at its address only, and leaves no token; before that a run only arms a timer of a second |
| DiscoveryProtocol.CallbackMadeByRun | core/core/services/device_discovery/icmp/IcmpDeviceDiscoveryTask.cpp:12-48 | over every run each callback was made by a run of its resolver, at the time it says and with the settled promise that run saw |
| DiscoveryProtocol.OutsideSteps | core/core/net/socket/v2/ReceivingSocket.cpp:30-38 | arriving packets queue in order while there is a slot; starting and posting make their task ready |
| DiscoveryProtocol.PollTakesPacket | core/core/net/scanner/IScanner.h:52-58 | an acting run with requests pending takes the oldest packet; a reply answers the request of its host; the task is ready again |
| DiscoveryProtocol.PollWithoutPacket | core/core/net/scanner/IScanner.h:59-67 | with nothing queued the run expires requests by age and waits 100 ms; with nothing pending it only waits a second |
| DiscoveryProtocol.QueuedReplyAnswers | core/core/net/scanner/IScanner.h:52-58 | over every run a pending host's reply behind i packets settles its promise within i + 1 acting runs, with that reply or an earlier one, never by a timeout; only a new ping of the host can break it before |
| DiscoveryProtocol.AtMostOneMoreRun | core/core/net/scanner/IScanner.h:46-51 | once the flag is down each polling task begins at most one more run |
| DiscoveryProtocol.LastPollRun | core/core/net/scanner/IScanner.h:48-51 | that run only ends the task and leaves no token, so the wait loop exits |
| DiscoveryProtocol.StoppedMeansStopped | core/core/net/scanner/IScanner.h:92-99 | once the last posted polling task is gone with the flag down, no packet is taken and nothing is swept until scanning starts again, however often it was started before |
| DiscoveryProtocol.StoppedStrands | core/core/net/scanner/IScanner.h:92-99 | a resolver whose promise is pending at that point makes no callback and keeps its one token until scanning restarts or its host is pinged again |
| DiscoveryProtocol.PollingProgress | core/core/net/scanner/IScanner.h:52-60 | without arrivals, one acting polling run more than there are queued packets reaches one that finds nothing pending or sweeps, and after it no request is five seconds old |
| Bytes.LeValueOfBytes | core/core/net/MacAddress.cpp:68-80 | the octets of a number, read back, are the number modulo 256 to the octet count |
| Bytes.LeBytesOfValue | core/core/net/MacAddress.cpp:114-119 | the octets of any number congruent to an octet string's value are that string |
| Bytes.LeValueOrder | core/core/net/IPv4Address.h:57 | numeric order is lexicographic order from the top octet down |
| ByteOrder.CopyFrom.To | core/core/util/ByteOrder.h:47-65 | copies or reverses; fails exactly when no source order was given |
| ByteOrder.ReorderedInverse | core/core/util/ByteOrder.h:47-65 | converting there and back is the identity in either order |
| ByteOrder.ReorderedAt | core/core/util/ByteOrder.h:53-64 | equal orders leave each octet in place, different ones mirror them |
| IPv4Address.ParseInt | core/core/net/IPv4Address.cpp:69-78 | the four masked shifts are the little-endian octets of the number |
| IPv4Address.IntRoundTrip | core/core/net/IPv4Address.cpp:69-78 | integer and address are in bijection modulo 2^32 |
| IPv4Address.BytesRoundTrip | core/core/net/IPv4Address.cpp:30-55 | octets parse exactly when there are four, and round-trip in either order |
| IPv4Address.StoredOctets | core/core/net/IPv4Address.cpp:30-55 | network-order octets are stored as given, host-order ones mirrored |
| IPv4Address.HostBytesReading | core/core/net/IPv4Address.cpp:130-142 | host-order octets read most significant first; the order is theirs lexicographically, and total |
| IPv4Address.PostIncrement | core/core/net/IPv4Address.cpp:149-154 | the successor modulo 2^32; the old value is returned |
| IPv4Address.IsBetweenSymmetric | core/core/net/IPv4Address.cpp:103-108 | bounds in either order, both excluded |
| MacAddress.ParseInt | core/core/net/MacAddress.cpp:68-80 | the six masked shifts are the low 48 bits |
| MacAddress.IntRoundTrip | core/core/net/MacAddress.cpp:114-119 | parse after toInt is the identity whatever the uninitialised bits hold |
| MacAddress.BytesRoundTrip | core/core/net/MacAddress.cpp:24-49 | octets parse exactly when there are six, and round-trip in either order |
| MacAddress.StoredOctets | core/core/net/MacAddress.cpp:24-49 | network-order octets are stored as given, host-order ones mirrored |
| MacAddress.PostIncrement | core/core/net/MacAddress.cpp:126-131 | the successor modulo 2^48 whatever the uninitialised bits hold |
| MacAddress.OrderWithEqualTops | core/core/net/MacAddress.h:47 | with equal top bits a strict total order, lexicographic on host-order octets |
| MacAddress.OrderNeedsEqualTops | core/core/net/MacAddress.h:47 | the comparison is right for all pairs exactly when the top bits are equal |
| Text.JoinInjective | core/core/net/IPv4Address.cpp:144-147 | joined text determines its groups when none contains the separator |
| Text.DecimalIsNumeral | core/core/net/IPv4Address.cpp:144-147 | the printed number has its value and no leading zero |
| Text.HexDigits | core/core/net/MacAddress.cpp:51-66 | the digits of either case and their values |
| IPv4Text.ToStringInjective | core/core/net/IPv4Address.cpp:144-147 | printed addresses are equal exactly when the addresses are |
| IPv4Text.ToStringReads | core/core/net/IPv4Address.cpp:144-147 | the text is the decimal numerals of the host-order octets, most significant first, with dots |
| IPv4Text.KeyedByAddress | core/core/services/device_discovery/DeviceDiscoveryTask.cpp:6-54 | maps keyed by printed addresses behave as maps keyed by addresses |
| MacText.ParseSixGroups | core/core/net/MacAddress.cpp:51-66 | six plain hex groups with any mix of separators parse to their values modulo 256, the last group first, exactly when nothing follows |
| MacText.ParseTooFew | core/core/net/MacAddress.cpp:51-66 | fewer than six groups, or another separator, do not parse |
| MacText.ScanSpelledGroup | core/core/net/MacAddress.cpp:54-57 | a group may have space, a sign and a 0x prefix; a negative one is negated modulo 256, one beyond 64 bits reads as 255 |
| MacText.ToStringReads | core/core/net/MacAddress.cpp:121-124 | two upper-case digits for each octet, most significant first, with colons |
| MacText.PrintParseRoundTrip | core/core/net/MacAddress.cpp:121-124 | parsing a printed address gives the address |
| Sequence.Collect | core/core/util/Sequence.h:90-100 | the loop terminates having visited exactly the enumeration |
| Sequence.RangeOfBounds | core/core/util/Sequence.h:144-154 | both wrappers are honoured |
| Sequence.RangeFromBound | core/core/util/Sequence.h:156-160 | the begin is advanced whichever wrapper it has, so it is honoured exactly when exclusive |
| Sequence.RangeToBound | core/core/util/Sequence.h:162-166 | the end is advanced whichever wrapper it has, so it is honoured exactly when inclusive |
| Sequence.VisitedMembers | core/core/util/Sequence.h:43-59 | from the first on each address is followed by its successor, none comes twice, and they are exactly those nearer to the first than the last is |
| Sequence.InclusiveRange | core/core/util/Sequence.h:162-166 | members by offset modulo 2^32, all of begin to end in order, and when the range is empty |
| DeviceDiscoveryService.DeviceDiscoveryService.DiscoverRange | core/core/services/device_discovery/DeviceDiscoveryService.cpp:7-13 | every task is asked once for each address of the range, in order |
| DeviceDiscoveryService.DeviceDiscoveryService.DiscoverHost | core/core/services/device_discovery/DeviceDiscoveryService.cpp:15-21 | every task is asked once |
| DeviceDiscoveryService.DeviceDiscoveryService.AddDiscoveryTask | core/core/services/device_discovery/DeviceDiscoveryService.cpp:23-27 | the task is appended and started |
| WrapAround.WrapAround.Increment | core/core/util/type/WrapAround.h:44-48 | one step up, within the limits |
| WrapAround.WrapAround.Decrement | core/core/util/type/WrapAround.h:50-54 | one step down, within the limits |
| WrapAround.WrapAround.constructor | core/core/util/type/WrapAround.h:28-32 | a value outside the limits becomes the opposite limit |
| WrapAround.CyclicExactly | core/core/util/type/WrapAround.h:123-145 | n steps are n steps round the cycle for all values and n exactly under the stated condition, up and down |
| WrapAround.Sticks | core/core/util/type/WrapAround.h:133-140 | otherwise the counter sticks at the natural bound |
| WrapAround.UpsDownsInverse | core/core/util/type/WrapAround.h:44-54 | where both laws hold, steps up and down cancel |
| DeviceRepository.ChangeNeedsUpdateOrRemove | core/core/repo/device/DeviceRepository.cpp:9-45 | over every run a stored entry changes only where an update or remove of its key acts |
| DeviceRepository.LossNeedsRemove | core/core/repo/device/DeviceRepository.cpp:37-45 | a key disappears only where a remove of it acts |
| DeviceRepository.CheckDecides | core/core/repo/device/DeviceRepository.cpp:11-12 | the first section alone refuses a create of a stored key and an update or remove of a missing one |
| DeviceRepository.AnswerAfterInterference | core/core/repo/device/DeviceRepository.cpp:9-45 | what a call answers and leaves under its key after arbitrary interference between its sections: an update throws exactly when its key is gone, which takes a remove in between; a create stores its item exactly when the key is still free; other keys keep what interference left |
| DeviceRepository.Uninterrupted | core/core/repo/device/DeviceRepository.cpp:9-45 | over every interleaving without an act on its key between its sections, a write answers and stores what the plain map would, and leaves every other key to the interference |
| DeviceRepository.BothCreatesClaimSuccess | core/core/repo/device/DeviceRepository.cpp:9-17 | two creates can both return true and only the first to act stores |
| DeviceRepository.DeviceRepository.CreateDevice | core/core/repo/device/DeviceRepository.cpp:9-17 | alone, create is a run of the step system and the plain map's insert |
| DeviceRepository.DeviceRepository.Read | core/core/repo/device/DeviceRepository.cpp:19-25 | the entry, or NotFound |
| DeviceRepository.DeviceRepository.UpdateDevice | core/core/repo/device/DeviceRepository.cpp:27-35 | alone, update is a run of the step system and replaces an existing entry only |
| DeviceRepository.DeviceRepository.RemoveDevice | core/core/repo/device/DeviceRepository.cpp:37-45 | alone, remove is a run of the step system, erases and tells whether there was one |
| DeviceRepository.DeviceRepository.FindBy | core/core/repo/device/DeviceRepository.h:36-46 | the accepted device with the least key, NotFound exactly when none is accepted |
| DeviceRepository.DeviceRepository.Find | core/core/repo/device/DeviceRepository.cpp:53-56 | the device with that address and the least key |
| DeviceRepository.DeviceRepository.Iterate | core/core/repo/device/DeviceRepository.h:48-65 | visits keys in order without gaps, up to and including the first break, and all of them if there is none |
| DeviceRepository.DeviceRepository.Contains | core/core/repo/device/DeviceRepository.h:67-72 | true exactly when some device is accepted |
| ReceivingSocket.Fidelity | core/core/net/socket/v2/ReceivingSocket.cpp:8-39 | over every run what was handed out and what is queued is, octet for octet and in order, every delivery that found a free slot; a receive is always pending, with full room and nothing readable |
| ReceivingSocket.StepEffects | core/core/net/socket/v2/ReceivingSocket.cpp:13-39 | a delivery is queued last if a slot is free, and the consumer gets the oldest packet |
| ReceivingSocket.BoostSocketListener.HandleReceive | core/core/net/socket/v2/ReceivingSocket.cpp:21-39 | commits, copies out and queues the delivered octets, or on error only starts over |
| ReceivingSocket.BoostSocketListener.NextReceivedPacket | core/core/net/socket/v2/ReceivingSocket.cpp:13-19 | hands out the oldest queued packet |
| ReceivingSocket.BoostSocketListener.StartReceive | core/core/net/socket/v2/ReceivingSocket.h:72-80 | discards what is readable, prepares room for 1024 octets and has a receive pending |

## Left out

- IcmpScanner::ping, the blocking call, reads a request after erasing it and has no clean meaning to model.
- AsyncScanner.AsyncScanner.ClearRunning: models only the first statement of `stopScanning`, because its wait loop depends on other threads; DiscoveryProtocol states what holds when that loop exits.
- DeviceRepository.DeviceRepository.FindBy: takes the key order with equal top bits, because the repository's map has no defined order otherwise (MacAddress.OrderNeedsEqualTops).
- DeviceRepository.DeviceRepository.Find: takes the key order with equal top bits, for the same reason.
- DeviceRepository.DeviceRepository.Iterate: takes the key order with equal top bits, for the same reason.
- MacAddress::isBetween compares with the uninitialised top bits of four conversions and adds nothing to the order lemmas.
- Exceptions thrown by user callbacks inside `onCompletion` are not modelled; callbacks return.
- Packet building and parsing: a packet is its arrival time and, if it parses, its addresses and TTL.
- Sockets, filters and the kernel: deliveries and errors are arbitrary events.
- SNMP++ sessions, security, boot counters and value conversion: bindings carry opaque values.
- IPv4 string parsing is Boost's `make_address_v4`.
- Data races on the maps: the listed functions or lock sections are atomic.
- Destruction of a client or scanner with requests pending.
- WrapAround over floating-point types, and the comparison operators.
- RepositoryRegistry, TaskContext, logging, JSON, enum tables, threads and the command-line program are plumbing.
