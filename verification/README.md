# Verified models of the networking core

Dafny models of the parts of this Tailscale fork whose correctness is hardest to
see from the code: the DERP relay protocol, the health tracker, the discovery
codec, the app connector, the queuing-delay probe, the tailnet-lock update
builder, and four indexes and buffers. Objects the Go code updates in place are
classes; each method is proved against a function or relation on plain values,
and what the system promises is proved of those values, for all inputs and all
runs. `dafny verify dfyconfig.toml` verifies the whole project.

| part | modules | main results |
|---|---|---|
| DERP | `DerpWire`, `DerpIO`, `DerpMessages`, `DerpClient` | the zero-copy receiver refines split-decode-drop for every buffer size and chunking; writers and readers undo each other, also when the connection fails midway |
| Health | `HealthTracker`, `HealthDeps` | subscribers stay consistent with the tracker over every run, superseded timers included; reported warnables are the unique kernel of the dependency graph |
| Disco | `Disco`, `DiscoCodec` | parsing undoes marshalling exactly for the messages stated; reparsing is stable exactly for the bytes stated |
| App connector | `RouteCover`, `RouteAdvertiser`, `AppNames`, `AppDomains`, `AppConnector` | sorted tables, CNAME walk, exactly when a route update keeps its routes covered, what an observed response learns and schedules |
| Probe | `ProbeQueue` | conservation of packets over every interleaving |
| Tailnet lock | `TkaState`, `TkaBuilder`, `TkaHistory` | hash-linked output that replays to the builder's state; checkpoint spacing over whole histories |
| Indexes, buffers | `LabelMap`, `LogBuffer`, `PortRanges`, `PortList`, `PortScan` | exact sorted index, FIFO with counted losses, fewest ranges, in-place dedup, mark and sweep, change detection |

`Seqs`, `SortedSeqs`, `ByteCodec` and `NetAddr` hold what several of them share.

## Where the code does not do what it says

Each of these is a lemma with the failing input or run and an exact condition.

- A superseded visibility timer can leave subscribers with outdated arguments:
  `StaleRunEndsStale`, `ExactIffNoDelay`. A timer of an earlier episode can publish
  before the delay has passed: `DelayCanBeCutShort`, `NeverEarlyIffNoDelay`, and
  `EarlyIffOldTimer` for the single step.
- `State.Warnings` empty is documented to mean that all is healthy; visible trouble
  can be hidden by a cause that is not visible yet: `VisibleTroubleCanBeHidden`,
  `TroubleShownIffCausesUndelayed`.
- A route update can leave addresses of the new control routes unadvertised:
  `TenNarrowed` with stored routes, `DisallowedRangeUncovers` without,
  `CoverageKeptIff`, `KeptUnstoredIff`.
- `updateRoutes` is documented to withdraw any single address a new range covers;
  it withdraws one per range: `AddressLeftAdvertised`, `AllWithdrawnIffForced`.
- `findRoutedDomainLocked` is documented to find any routed name on the chain; a
  wildcard match in the middle of the chain is passed over: `WildcardCanBeMissed`,
  `WildcardMissedIff`.
- `updateDomains` withdraws routes by address, so a kept domain loses its route when
  a dropped one shares the address, and forgets the addresses of a name listed
  twice: `SharedAddressLosesRoute`, `RepeatedNameLosesAddresses`,
  `KeptXorWithdrawnIff`.
- Probe packets arriving after the timeout are documented not to count; they do
  until a timeout pass removes their record: `LatePacketCounts`,
  `PunctualIffNothingExpired`.
- The checkpoint interval of 50 updates is not kept inside an output:
  `BoundReached`, `SpacingKeptIff`; what holds over whole histories is
  `GapsBounded`.
- `sortAndDedup` loses an entry without protocol on port 0: `ReservedIsLost`,
  `SortAndDedupCorrect`.
- `MultiLabelMap` keeps an exact index exactly when labels are injective:
  `SharedLabelBreaks`, `IndexedIffInjective`.

The relay endpoint decoder divides a constant where it means a difference; the
capacity it computes is still large enough (`DecodeRelay`).

## Model

| member | source | states |
|---|---|---|
| DerpWire.HeaderRoundTrip | derp/derp.go:206-213 | type and length of a header are read back as written, whatever follows |
| DerpWire.CutUndoesWrite | derp/derp.go:275-286 | the first frame of a stream is the one written first, and the rest follows it |
| DerpWire.WriteUndoesCut | derp/derp.go:275-286 | a complete frame in front of a stream is the bytes its writer emits |
| DerpWire.SplitUndoesWire | derp/derp.go:51-54 | any frames written in sequence are recovered exactly, whatever follows them |
| DerpWire.WireUndoesSplit | derp/derp.go:51-54 | splitting a stream loses no byte and leaves no complete frame over |
| DerpIO.ReadFrameHeader | derp/derp.go:206-213 | type and length of the next frame, the reader behind the header; a short stream is an error that consumes nothing |
| DerpIO.ReadFrame | derp/derp.go:225-246 | the frame's type, length and as much of its body as fits; a small buffer still leaves the reader on the next frame boundary; the oversized and truncated cases |
| DerpIO.ReadFrames | derp/derp.go:225-246 | reading with buffers that are large enough until the first error yields exactly the frames of the stream |
| DerpIO.WriteUint32 | derp/derp.go:173-186 | the byte loop emits the big-endian form; on failure only a prefix of it |
| DerpIO.WriteFrameHeader | derp/derp.go:255-272 | the fast and the byte-by-byte path emit the same five bytes; on failure only a prefix of them |
| DerpMessages.CutLeadingN | derp/derp_client.go:681-686 | the pieces join to the input; fails exactly when it is too short, leaving it whole |
| DerpMessages.ReceiveIsSplitDecodeDrop | derp/derp_client.go:484-647 | receiving any stream of complete frames of at most 1 MiB equals splitting it into frames, decoding each and dropping unknown and short ones |
| DerpMessages.RestartingRoundTrip | derp/derp_client.go:635-644 | the two durations of a restart notice survive in milliseconds |
| DerpMessages.DecodeUndoesServer | derp/derpserver/derpserver.go:2055-2110 | a server frame decodes to its message exactly when a packet has a source and a peer address is canonical |
| DerpMessages.ClientReceivesWhatServerSent | derp/derp_client.go:535-645 | a client reading a server's stream gets the messages sent, in order, then the end |
| DerpClient.Client.NextFrame | derp/derp_client.go:484-533 | one frame, through the buffer or a private allocation: the outcome of cutting the stream at the last frame boundary; what stays peeked is the frame's body |
| DerpClient.Client.Recv | derp/derp_client.go:484-647 | for every buffer size and chunking, the next message of the reference receiver; reader position plus peeked bytes is a frame boundary; an error is returned again and consumes nothing |
| DerpClient.Client.RecvAll | derp/derp_client.go:480-647 | Recv called until it fails yields exactly the messages and the error of the reference receiver |
| DerpClient.Client.Send | derp/derp_client.go:221-250 | on success exactly the packet's frame is added to the wire; oversized and rate-limited packets write nothing; after a failure the wire ends inside the torn frame |
| DerpClient.Client.ForwardPacket | derp/derp_client.go:252-282 | as Send, with source and destination in the body |
| DerpClient.Client.SendPingOrPong | derp/derp_client.go:294-304 | exactly one frame with the eight bytes |
| DerpClient.Client.NotePreferred | derp/derp_client.go:309-330 | exactly one frame with a one or a zero |
| DerpClient.Client.WatchConnectionChanges | derp/derp_client.go:334-341 | exactly one empty frame |
| DerpClient.Client.WriteFrame | derp/derp.go:275-286 | exactly one frame; bodies over 10 MiB are refused and nothing is written |
| DerpClient.Client.ClosePeer | derp/derp_client.go:345-349 | exactly one frame with the target's key |
| DerpClient.RecvServerKey | derp/derp_client.go:126-141 | succeeds exactly on a greeting with the magic and a key, of any accepted length, and leaves the reader behind it |
| DerpClient.PeerReadsWhatWasSent | derp/derp_client.go:221-349 | whatever was sent, the peer splits the wire into exactly those frames; after a failure into a prefix of them |
| DerpClient.ReadBack | derp/derp.go:225-286 | reading a successful client's wire back with readFrame gives exactly the frames it sent |
| DerpClient.PrefixSplits | derp/derp.go:51-54 | the complete frames of a cut-off stream are the first of the whole one |
| HealthTracker.Tracker.SetUnhealthyLocked | health/health.go:434-482 | the tracker's whole new state: publish at once, schedule a timer that may supersede another, or nothing |
| HealthTracker.Tracker.SetUnhealthy | health/health.go:425-432 | the same, keeping what every run keeps of subscribers, timers and tracker |
| HealthTracker.Tracker.SetHealthyLocked | health/health.go:494-513 | the tracker's whole new state, stopping the pending timer if it is not too late |
| HealthTracker.Tracker.SetHealthy | health/health.go:485-492 | the same, keeping what every run keeps |
| HealthTracker.Tracker.TimerFired | health/health.go:469-478 | the tracker's whole new state when a timer, superseded or not, runs, keeping what every run keeps |
| HealthTracker.SetUnhealthyKeepsInv | health/health.go:434-482 | setting unhealthy keeps subscribers, pending timers and tracker consistent |
| HealthTracker.SetHealthyKeepsInv | health/health.go:494-513 | setting healthy keeps them consistent |
| HealthTracker.FireKeepsInv | health/health.go:469-478 | a timer's callback keeps them consistent |
| HealthTracker.RunKeepsInv | health/health.go:434-513 | in every run: published unhealthy keys are unhealthy, pending keys are unhealthy, every unpublished unhealthy key has a pending timer that has not run, and undelayed warnables are published as they stand |
| HealthTracker.QuietMeansInformed | health/health.go:434-513 | once no timer is left, the published keys are exactly the unhealthy ones |
| HealthTracker.EpisodeKeepsBrokenSince | health/health.go:434-482 | the time a warnable broke does not move within an episode |
| HealthTracker.StaleRunEndsStale | health/health.go:456-480 | for every delayed warnable, a run that ends quiet with outdated arguments published |
| HealthTracker.ExactIffNoDelay | health/health.go:456-480 | quiet always means exactly published if and only if the warnable has no delay |
| HealthTracker.EarlyIffOldTimer | health/health.go:402-409 | an operation publishes before the delay has passed if and only if it is a timer of the warnable firing in an episode that is too young; the timer is then never of that episode |
| HealthTracker.NeverEarlyIffNoDelay | health/health.go:434-513 | no run ever publishes a warnable early if and only if it has no delay |
| HealthTracker.NeverEarlyInFirstEpisode | health/health.go:434-482 | a warnable never set healthy is never published early |
| HealthTracker.TidyNeverEarly | health/health.go:456-513 | without superseded timers and late stops no run publishes early |
| HealthTracker.DelayCanBeCutShort | health/health.go:456-513 | for every delayed warnable, a run that publishes it early |
| HealthDeps.IsEffectivelyHealthy | health/state.go:188-202 | the recursion terminates on acyclic dependencies and decides effective health |
| HealthDeps.ReportedIsKernel | health/state.go:184-202 | no reported warnable depends on a reported one, and every suppressed one does |
| HealthDeps.UniqueKernel | health/state.go:184-202 | the reported warnables are the only such set |
| HealthDeps.TroubleIsReported | health/state.go:188-202 | something is reported if and only if something is unhealthy |
| HealthDeps.CurrentState | health/state.go:124-146 | the warnables shown are the visible and reported ones |
| HealthDeps.VisibleTroubleCanBeHidden | health/state.go:23-30 | for any delayed cause, a state with visible trouble that shows nothing |
| HealthDeps.TroubleShownIffCausesUndelayed | health/state.go:23-30 | visible trouble is always shown if and only if no warnable others depend on has a delay |
| NetAddr.AddrRoundTrip | disco/disco.go:216-242 | an address survives its 16-byte form if and only if it is valid, zone-free and not IPv4-mapped |
| NetAddr.DecodedAddrCanonical | disco/disco.go:227-242 | every decoded address is of that kind |
| NetAddr.EndpointRoundTrip | disco/disco.go:216-242 | the same for address and port |
| Disco.EndpointsRoundTrip | disco/disco.go:216-242 | a list of endpoints survives if and only if every address does |
| Disco.BindRoundTrip | disco/disco.go:369-392 | the common part of the bind messages survives |
| Disco.RelayRoundTrip | disco/disco.go:563-618 | a relay endpoint is accepted back if and only if it has an address, and then survives if and only if its addresses do |
| Disco.PingRoundTrip | disco/disco.go:154-184 | a ping survives if and only if its key is nonzero or its padding is below 32 |
| Disco.PongRoundTrip | disco/disco.go:257-279 | a pong survives if and only if its source address does |
| Disco.CallMeMaybeRoundTrip | disco/disco.go:216-242 | survives if and only if all its addresses do |
| Disco.BindMessagesRoundTrip | disco/disco.go:400-455 | all three bind messages survive |
| Disco.ViaRoundTrip | disco/disco.go:639-653 | survives if and only if there is an address and all do |
| Disco.RequestRoundTrip | disco/disco.go:475-500 | every allocation request survives |
| Disco.ResponseRoundTrip | disco/disco.go:512-532 | as for a relay endpoint, the generation included |
| Disco.ParseUndoesMarshal | disco/disco.go:81-109 | for all nine types, parsing a marshalled message gives it back if and only if it is faithful as above |
| Disco.ReparseStable | disco/disco.go:81-109 | for all accepted bytes, parse, marshal, parse is stable except for pings of 78 bytes or more with 32 zero key bytes and relay messages of an unknown version |
| Disco.DecodedEndpointsCanonical | disco/disco.go:227-242 | decoded lists hold only canonical addresses |
| Disco.DecodedRelayFaithful | disco/disco.go:589-618 | a decoded relay endpoint has an address and only canonical ones |
| DiscoCodec.AppendMsgHeader | disco/disco.go:125-132 | the buffer, type, version and room of zero bytes, and where that room starts |
| DiscoCodec.EncodeEndpoints | disco/disco.go:216-225 | the loop writes the wire form of the list in place and moves past it |
| DiscoCodec.EncodeBind | disco/disco.go:369-377 | writes the wire form in place |
| DiscoCodec.EncodeRelay | disco/disco.go:563-586 | writes the wire form in place |
| DiscoCodec.AppendPing | disco/disco.go:154-167 | the previous contents followed by the ping's wire form |
| DiscoCodec.AppendMarshal | disco/disco.go:154-645 | for every type, the previous contents followed by the message's wire form |
| DiscoCodec.ReadEndpoints | disco/disco.go:233-240 | the slicing loop reads the list and never outgrows its capacity |
| DiscoCodec.ParseCallMeMaybeLoop | disco/disco.go:227-242 | decodes as specified for every input |
| DiscoCodec.DecodeRelay | disco/disco.go:589-618 | accepts exactly the right lengths; the capacity computed is never negative nor too small |
| RouteAdvertiser.Backend.Covered | ipn/ipnlocal/local.go:7699-7715 | true exactly when a route other than a default one contains the address, or both ends of the range |
| RouteAdvertiser.Backend.AdvertiseRoute | ipn/ipnlocal/local.go:7659-7695 | the new list: refused if a route has host bits, else extended in order by the routes neither disallowed, present nor covered by then; saving may fail |
| RouteAdvertiser.Backend.UnadvertiseRoute | ipn/ipnlocal/local.go:7719-7737 | the list without the given routes, if saving succeeds |
| NetAddr.EndsContainAll | ipn/ipnlocal/local.go:7708-7711 | a prefix that contains both ends of a masked range contains all of it |
| RouteAdvertiser.ExtendedHas | ipn/ipnlocal/local.go:7659-7695 | advertising loses no route and adds only new, allowed routes that were not covered |
| RouteAdvertiser.ExtendedTakes | ipn/ipnlocal/local.go:7659-7695 | every allowed new route ends up on the list, or covered by something on it |
| RouteAdvertiser.CoverageKeptIff | ipn/ipnlocal/local.go:642-656 | after a route update every address of an allowed new route is advertised if and only if it is in an existing route that stays, or in a new one that stays and is not skipped for a route then withdrawn |
| RouteAdvertiser.KeptUnstoredIff | appc/appconnector.go:360-379 | without stored routes: if and only if every new single address withdrawn as redundant is in an existing or allowed new route that stays |
| RouteAdvertiser.KeptWithoutStoredRoutes | appc/appconnector.go:360-379 | so without stored routes all stay covered when all new routes are allowed |
| RouteAdvertiser.NarrowingUncovers | ipn/ipnlocal/local.go:642-656 | with stored routes, narrowing any control route leaves nothing advertised |
| RouteAdvertiser.TenNarrowed | ipn/ipnlocal/local.go:642-656 | that input at 10.0.0.0/8 and 10.0.0.0/16 |
| RouteAdvertiser.DisallowedRangeUncovers | ipn/ipnlocal/local.go:642-656 | an allowed address listed beside a disallowed range that contains it is advertised and withdrawn |
| RouteCover.NotRemovedTwice | appc/appconnector.go:368-379 | a range that makes a single address redundant is not itself withdrawn |
| RouteCover.AllWithdrawnIffForced | appc/appconnector.go:345-379 | all redundant single addresses are withdrawn, whatever the map order, if and only if each is the only candidate of some range |
| RouteCover.AddressLeftAdvertised | appc/appconnector.go:345-379 | 10.0.0.1 and 10.0.0.2 under 10.0.0.0/8: one of them stays advertised |
| AppNames.HasSuffixMeans | util/dnsname/dnsname.go:180-186 | matches if and only if the name is some text, a dot and the non-empty suffix, end dots aside |
| AppNames.AcyclicHalts | appc/appconnector.go:426-450 | the walk ends on every acyclic chain |
| AppNames.LoopNeverHalts | appc/appconnector.go:426-450 | on a loop of untracked, unmatched names it never does |
| AppNames.WalkOnlyAdds | appc/appconnector.go:426-450 | the walk changes no tracked name and adds only names a wildcard matches |
| AppNames.WalkFinds | appc/appconnector.go:421-450 | the name found is on the chain and tracked; one is found if and only if the chain has a tracked name or ends in a wildcard match |
| AppNames.WildcardMissedIff | appc/appconnector.go:421-450 | a routed name is missed if and only if none is tracked, the last is unmatched and an earlier one matches |
| AppNames.WildcardCanBeMissed | appc/appconnector.go:433-443 | a concrete chain on which that happens |
| AppDomains.AddressesKeptIff | appc/appconnector.go:294-318 | names that stay keep their addresses if and only if none that has any is listed twice |
| AppDomains.PairFate | appc/appconnector.go:289-334 | an old pair is kept if and only if its name is listed once or is an old name under a wildcard; its route is withdrawn if and only if a dropped name has it |
| AppDomains.KeptXorWithdrawnIff | appc/appconnector.go:289-334 | every old pair is kept or on the list of withdrawals, never both, if and only if, of the pairs whose name stays, exactly those not listed twice share no route with a dropped name |
| AppDomains.RepeatedNameLosesAddresses | appc/appconnector.go:294-305 | a name listed twice: its addresses are forgotten and not withdrawn |
| AppDomains.SharedAddressLosesRoute | appc/appconnector.go:320-334 | two domains at one address, one dropped: the other's route is withdrawn |
| AppConnector.Connector.HasDomainAddr | appc/appconnector.go:501-504 | binary search finds an address exactly when the domain lists it |
| AppConnector.Connector.AddDomainAddr | appc/appconnector.go:508-511 | one entry more where it belongs, all else unchanged; the list stays strictly sorted if and only if the address is new |
| AppConnector.Connector.IsAddrKnown | appc/appconnector.go:456-469 | true exactly when listed or in a control route; in the latter case it becomes listed |
| AppConnector.Connector.FindRoutedDomain | appc/appconnector.go:426-450 | the loop computes the walk, table included |
| AppConnector.Connector.ObserveRecord | appc/observe.go:109-129 | how one record is routed, and what is learned and scheduled for it |
| AppConnector.Connector.ObserveDNSResponse | appc/observe.go:106-131 | each address of a routed record is listed or scheduled, never both, and not scheduled if a control route has it; nothing else is learned or scheduled; which records must be routed; new names match a wildcard |
| AppConnector.Connector.UpdateRoutes | appc/appconnector.go:349-397 | nothing on an unchanged list; else the new routes are queued, with the dropped ones and one redundant address per route to withdraw |
| AppConnector.RouteUpdateCoverageIff | appc/appconnector.go:349-397 | the lists updateRoutes queues keep the new routes covered exactly under the condition above, and always without stored routes when all are allowed |
| AppConnector.Connector.UpdateDomains | appc/appconnector.go:289-340 | the new table and wildcards; with stored routes exactly the routes of dropped names are queued for withdrawal; lists stay sorted |
| AppConnector.Connector.RecordAdvertised | appc/appconnector.go:485-494 | exactly the single addresses advertised are added, lists stay sorted |
| AppConnector.Connector.RunTask | appc/appconnector.go:473-497 | the oldest task's effect on the tables and on the backend's list, failures included |
| AppConnector.RoutesWithout | appc/appconnector.go:519-527 | exactly the routes of the first list not in the second |
| ProbeQueue.Compact | prober/derp.go:432-446 | in-place filtering leaves exactly the unexpired records in order and names the rest |
| ProbeQueue.Prober.Timeouts | prober/derp.go:432-446 | the prober's whole new state after a timeout pass |
| ProbeQueue.Prober.AppendRecord | prober/derp.go:466-476 | evicts the oldest record only when full, appends, never grows the array, wraps the counter at 64 bits |
| ProbeQueue.Prober.Tick | prober/derp.go:466-478 | one tick of the sender keeps conservation, each number's count, order and capacity |
| ProbeQueue.Prober.FindRecord | prober/derp.go:503-521 | the scan with its early exit computes Find |
| ProbeQueue.Prober.ReceivePacket | prober/derp.go:503-521 | a pending packet moves from the records to the histogram, any other changes nothing |
| ProbeQueue.Prober.Arrival | prober/derp.go:503-521 | so does an arrival |
| ProbeQueue.WrappedNext | prober/derp.go:460-478 | the counter steps by one and wraps to zero |
| ProbeQueue.Conservation | prober/derp.go:427-521 | in every interleaving, appended = dropped + delivered + pending |
| ProbeQueue.EachPacketOnce | prober/derp.go:427-521 | until the counter wraps, each number sent is dropped, delivered or pending, once in all |
| ProbeQueue.RunKeepsOrder | prober/derp.go:427-521 | the records stay strictly increasing and within their capacity |
| ProbeQueue.EarlyExitMissesNothing | prober/derp.go:506-521 | the early exit finds a number if and only if it is pending |
| ProbeQueue.LatenessBounded | prober/derp.go:341-347 | a packet counted late is later than the timeout by less than the time since the last pass, whenever the receiver read its clock |
| ProbeQueue.LatePacketCounts | prober/derp.go:341-347 | a packet counts however late, if no pass comes first |
| ProbeQueue.PunctualIffNothingExpired | prober/derp.go:341-347 | after any run, no late packet can count if and only if no pending record has expired |
| TkaState.FindMisses | tka/state.go:55-68 | a key reported missing is not in the state |
| TkaState.AddKeyStaysSound | tka/state.go:161-248 | adding a valid key keeps the state sound |
| TkaState.UpdateKeyStaysSound | tka/state.go:161-248 | so does updating one |
| TkaState.ApplyStaysSound | tka/state.go:161-315 | so does every valid update that applies; the head becomes its hash, the state IDs stay |
| TkaBuilder.MkUpdateKeepsInv | tka/builder.go:36-60 | success or failure, the output stays linked, valid and replays to the builder's state |
| TkaBuilder.CallKeepsInv | tka/builder.go:63-105 | so does every builder call |
| TkaBuilder.BuildKeepsInv | tka/builder.go:36-105 | so does every sequence of calls, failing ones included |
| TkaBuilder.ScanMeaning | tka/builder.go:127-154 | the cursor loop asks for a checkpoint exactly when the newest stored updates have no checkpoint, genesis or end of store |
| TkaBuilder.FinalizeSound | tka/builder.go:107-169 | a result is linked from the present head, replays from the present state to the builder's state, and an added checkpoint is last and carries the replayed state, parent cleared |
| TkaBuilder.CheckpointSpacing | tka/builder.go:122-169 | the newest 50 updates of output and store have a checkpoint, genesis or end of store; one is generated only when needed |
| TkaBuilder.CheckpointSucceedsIffKeysRemain | tka/builder.go:107-120 | for a sound authority and a working signer, generating one succeeds if and only if a key is left |
| TkaHistory.AnchoredMeans | tka/builder.go:127-154 | what Finalize's loop finds in the store is what the chain has |
| TkaHistory.SpacingKeptIff | tka/builder.go:122-169 | on a chain with a checkpoint in every 50 updates, a finalized builder keeps that if and only if the updates since the last checkpoint and its own together stay below 50 |
| TkaHistory.GapsBounded | tka/builder.go:122-169 | over every history of builders of at most k updates, at most 49 + k updates in a row lack a checkpoint |
| TkaHistory.BoundReached | tka/builder.go:122-169 | for every k some such history has 49 + k of them |
| TkaBuilder.UpdateBuilder.MakeUpdate | tka/builder.go:36-60 | the builder's whole new state, unchanged on any failure |
| TkaBuilder.UpdateBuilder.AddKey | tka/builder.go:63-78 | the new state, unchanged on each way to fail; the output stays linked, valid and replays to that state |
| TkaBuilder.UpdateBuilder.RemoveKey | tka/builder.go:81-86 | the new state, unchanged on each way to fail; the output stays linked, valid and replays to that state |
| TkaBuilder.UpdateBuilder.SetKeyVote | tka/builder.go:89-94 | the new state, unchanged on each way to fail; the output stays linked, valid and replays to that state |
| TkaBuilder.UpdateBuilder.SetKeyMeta | tka/builder.go:100-105 | the new state, unchanged on each way to fail; the output stays linked, valid and replays to that state |
| TkaBuilder.UpdateBuilder.Checkpointing | tka/builder.go:107-120 | the replay loop and the checkpoint it makes |
| TkaBuilder.UpdateBuilder.CheckpointDue | tka/builder.go:127-154 | the loop with its cursor decides whether a checkpoint is due, store failures included |
| TkaBuilder.UpdateBuilder.Finish | tka/builder.go:126-169 | computes Finalize, a moved head included; a result is linked from the present head and replays to the builder's state |
| LabelMap.FoundAtPos | metrics/multilabelmap.go:155-173 | a key of the map sits where the search lands; another key's label is free |
| LabelMap.AddKeyIndexes | metrics/multilabelmap.go:155-173 | appending, overwriting or inserting keeps the index exact |
| LabelMap.DeleteIndexes | metrics/multilabelmap.go:259-273 | deleting keeps it exact and removes just the key |
| LabelMap.RunKeepsIndex | metrics/multilabelmap.go:141-273 | after any run the slice is strictly ordered by label and holds exactly the map's pairs |
| LabelMap.SharedLabelBreaks | metrics/multilabelmap.go:155-173 | two keys with one label: a run that breaks the index |
| LabelMap.IndexedIffInjective | metrics/multilabelmap.go:155-213 | the index is exact after every run if and only if labels are injective |
| LabelMap.IndexCanonical | metrics/multilabelmap.go:152-173 | the slice depends on the map alone, not on the run |
| LabelMap.MultiLabelMap.AddKeyLocked | metrics/multilabelmap.go:155-173 | the new slice, in order of labels whatever the labels are |
| LabelMap.MultiLabelMap.Get | metrics/multilabelmap.go:176-180 | the map's value, which is also that of an exact slice |
| LabelMap.MultiLabelMap.GetOrFill | metrics/multilabelmap.go:187-202 | the present value or the new one, and the new state; an exact slice stays exact |
| LabelMap.MultiLabelMap.SetKey | metrics/multilabelmap.go:208-213 | the new state; an exact slice stays exact |
| LabelMap.MultiLabelMap.DeleteKey | metrics/multilabelmap.go:259-273 | the new state; with an exact slice, which stays so, the map loses just the key |
| LabelMap.MultiLabelMap.Reset | metrics/multilabelmap.go:141-150 | both parts empty |
| LabelMap.RaceKeeps | metrics/multilabelmap.go:187-202 | in every interleaving a fill happens only when the key is absent |
| LabelMap.FilledOncePerLife | metrics/multilabelmap.go:185-202 | between two fills of a key it was removed |
| LogBuffer.MemBuffer.Enqueue | logtail/buffer.go:100-120 | the buffer's whole new state, counters included, and whether it was full |
| LogBuffer.MemBuffer.Dequeue | logtail/buffer.go:73-98 | the line or notice returned and the whole new state |
| LogBuffer.MemBuffer.WriteLine | logtail/buffer.go:100-120 | a write keeps the reader's transcript ideal and the counters balanced |
| LogBuffer.MemBuffer.TryReadLine | logtail/buffer.go:73-98 | so does a read |
| LogBuffer.WriteKeepsScript | logtail/buffer.go:100-120 | a write keeps output so far plus contents equal to the ideal output |
| LogBuffer.ReadKeepsScript | logtail/buffer.go:73-98 | so does a read |
| LogBuffer.RunOnScript | logtail/buffer.go:73-120 | over every run: kept lines once each, in order, each behind a notice of the lines lost before it |
| LogBuffer.RunKeepsAccount | logtail/buffer.go:73-120 | bytes written = read + stored, stored is what is held, dropped bytes are those lost, the queue is bounded |
| LogBuffer.EveryLossCounted | logtail/buffer.go:73-120 | rejected writes = counts in notices read + counts queued + current drop count |
| PortRanges.Coalesce | ipn/serve.go:976-996 | exactly the given ports, in ascending ranges with gaps between them; the 16-bit wrap joins nothing |
| PortRanges.ServicePortRange | ipn/serve.go:965-997 | everything in Tun mode, else exactly the nonzero configured ports |
| PortRanges.FewestRanges | ipn/serve.go:961-997 | no list of ranges with the same ports is shorter |
| PortList.SortAndDedup | portlist/portlist.go:66-80 | sorting and compacting within one array gives the compaction of an ordered permutation |
| PortList.DedupCorrect | portlist/portlist.go:70-79 | what compaction does to any ordered list |
| PortList.SortAndDedupCorrect | portlist/portlist.go:64-80 | strictly increasing, from the input, one entry of least process name per protocol and port; a key is missing if and only if it is the blank one |
| PortList.ReservedIsLost | portlist/portlist.go:70-79 | an entry without protocol on port 0, alone in its list, is lost |
| PortList.Poller.Equal | portlist/portlist.go:43-53 | true exactly when the lists agree in port, protocol and process throughout |
| PortList.Poller.Poll | portlist/poller.go:102-122 | reports a change exactly when the list differs from the last one reported, in a fresh copy; no list handed out is touched |
| PortScan.LinuxImpl.ParseProcNetFile | portlist/portlist_linux.go:244-256 | the loop marks known sockets and adds new ones as specified |
| PortScan.LinuxImpl.ReadFiles | portlist/portlist_linux.go:107-124 | all files up to the first that fails are marked in order |
| PortScan.LinuxImpl.List | portlist/portlist_linux.go:143-147 | one entry per protocol and port known, in order, missing only the blank key |
| PortScan.LinuxImpl.AppendListeningPorts | portlist/portlist_linux.go:96-148 | the new table; refused exactly when a file fails or a needed process walk does; else one entry per protocol and port, in order |
| PortScan.MarkedMeans | portlist/portlist_linux.go:244-256 | marking adds exactly the inodes seen and leaves what is known of others as first seen |
| PortScan.AfterMeans | portlist/portlist_linux.go:107-147 | a scan that read every file knows exactly the inodes it accepted and has looked all of them up; another forgets nothing |
| PortScan.RunKnows | portlist/portlist_linux.go:107-147 | after any run of scans, failing ones included, a socket is known if and only if accepted since the last scan that read every file |
| PortScan.TrackedKeepsPort | portlist/portlist_linux.go:244-256 | while a socket stays known its protocol and port never change, nor its process once looked for |

## Left out

- Cryptography, key types, JSON and CBOR: sealing, signatures and AUM hashing are
  parameters; keys are fixed-length byte strings.
- Sockets, deadlines, rate limiter internals, mutexes and goroutine lifecycles:
  each locked section is one atomic step, clock readings are parameters, the rate
  limiter's answer is a parameter.
- Go's bufio is modelled as far as DERP uses it; a connection read error other
  than the end of the stream is not distinguished from it.
- `DecodeUndoesServer`: pings, health and restart frames, which the server in this
  repository does not send, follow the format the client expects.
- CutLeadingN: a negative length is not modelled.
- Ping padding below zero, which the encoder does not guard against, is not
  modelled, nor are the outer discovery envelope and its source key.
- Health self-checks, the list of built-in warnables, control-plane messages in
  the current state, and severity and texts of warnings.
- The DNS wire parser: observation starts from the chain and the address records.
- Published route events, persistence of routes, and `ClearRoutes`; sharing of
  address slices with snapshots handed out.
- FindRoutedDomain: only for walks that end; on the other ones the source loops
  for ever (`LoopNeverHalts`).
- ObserveRecord: only for chains that lead nowhere round, for the same reason.
- ObserveDNSResponse: only for chains that lead nowhere round, for the same reason.
- Which routes `allowedAutoRoute` admits is a parameter, and so is whether saving
  the preferences succeeds; a connector without an advertiser is not modelled.
- RecordAdvertised: a queued advertisement that runs after its domain was dropped
  brings the domain back; the contract says so and nothing rules it out.
- Lower-casing is modelled for ASCII; zones never occur in addresses from DNS.
- EachPacketOnce, RunKeepsOrder, EarlyExitMissesNothing and
  PunctualIffNothingExpired hold until 2 to the 64 packets have been sent.
- The histogram's buckets: what is given to it is kept as a list.
- Maps in AUM metadata are lists of pairs, and the distinction between nil and
  empty slices is kept only where the code looks at it.
- A history of builders is one administrator's: updates by others in between, and
  verification of signatures when updates are applied, are not part of it.
- Storage, synchronisation and compaction of the tailnet-lock chain, and choosing
  between its forks.
- MultiLabelMap.Search: sorting and searching of the Go library are modelled by
  binary search and insertion.
- Values inside a metric, and its output formats.
- `Reset` removes all keys in one step; Go's range over the map under the lock
  may let an unlocked lookup see some of them longer.
- The textual rows of /proc/net and the walk over /proc: a scan starts from the
  accepted rows and the owners found.
- Other platforms' port lists, and everything else in the repository.
