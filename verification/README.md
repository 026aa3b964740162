# ElephantShrew telemetry pipeline: a verified model

ElephantShrew observes network traffic with eBPF programs and forwards samples to user space. This
project models the path of a packet from its raw bytes to the consumer of the sampled events, the
policy hook that shares its decoder, and the throttle in front of the Redis writer, and proves what
each part promises and what they promise together.

| file | models |
|---|---|
| `Shared.dfy` | constants, tuple, event, flag bytes, 64-bit wrap-around |
| `Parser.dfy` | the bounded frame decoder, as a method on 32-bit values with its two loops and as functions |
| `Grammar.dfy` | an unbounded reader of tag stacks and extension chains, and the decoder's agreement with it |
| `Frames.dfy` | described frames: their bytes, and the answer each calls for, in numbers and without the decoder |
| `ParserLaws.dfy`, `Padding.dfy`, `TupleShape.dfy`, `TagOffload.dfy`, `RoundTrip.dfy` | laws of the decoder: longer captures, padding, tuple shape, tag offload, encode and parse |
| `Events.dfy`, `EventLayout.dfy` | the 216-byte event layout, its offsets, and the validating reader |
| `Observer.dfy`, `Sampling.dfy`, `CounterLaws.dfy` | the observer hook, its sampling law with interleaved calls, what each counter counts |
| `Flows.dfy`, `FlowLaws.dfy` | the flow table under eviction and failure, and without them |
| `SpscQueue.dfy`, `SpscMemory.dfy` | the ring as a class over an array, and as release/acquire steps of two threads |
| `Callback.dfy`, `Telemetry.dfy` | the ring callback and the telemetry object with its drain loop |
| `Pipeline.dfy` | hooks, rings, poller, finisher, queue and consumer interleaving |
| `PipelineCancel.dfy` | abort, deadline and poll error in that system |
| `PipelineCounters.dfy` | conservation in that system, in terms of the counters the hooks keep |
| `QueueSimulation.dfy` | the two-thread ring as an implementation of that system's queue |
| `Throttle.dfy` | the Redis write throttle: critical sections as a class, threads as a transition system |
| `Policy.dfy` | the active policy hook while a controller switches rule generations |
| `Counting.dfy`, `Arithmetic.dfy` | counting in sequences; remainders and quotients |

`Frames` is the yardstick of the decoder and of the two hooks: it says byte by byte how a frame is laid
out (tags, ARP, IPv4 with options and fragments, IPv6 with extension chains, TCP, UDP and any other
protocol, and headers that are wrong or do not fit) and which status, tuple and number of bytes the
answer consists of.

How to read it: a component that changes state is a class or a set of methods proved against
functions; concurrency is a transition system (`Next`, `IsRun`) whose theorems hold in every state
of every run; `RunKeepsInv` is the induction in each. Frames are sequences of bytes; a capture is a
prefix of its frame.

Where the code says less, or something other, than one might expect:

- The guard `ext_len < 8` (bpf/packet_parser.bpf.h:136) can never hold, since both length formulas
  give at least 8. The decoder method asserts that instead of branching on it.
- Padding does not leave every MALFORMED frame unchanged: one that ends before bytes its own headers
  still announce is repaired by them. `Padding.EndsShort` is that condition on the bytes,
  `Padding.PaddingInvariance` proves that it is the exact one, and `Padding.CutToLinkHeader` gives
  frames that show it. Wrong versions and header lengths stay MALFORMED under any padding.
- A tag in band takes four bytes of the 128 that are captured. A frame whose last header byte is
  among bytes 125 to 128 is decoded with the tag stripped and TRUNCATED with the tag in band, and the
  policy may then decide differently; `TagOffload.TagOffloadEquivalence` and
  `Policy.TagOffloadKeepsVerdict` prove that these are the only frames, and `TagOffload.LATE` is one.
- With a third tag in sight both ways of delivering the outer tag end in UNSUPPORTED, but the
  Ethertype recorded differs.
- An event with interface index 0 is published and then refused by `DecodeEvent`;
  `Observer.PublishedEventIsAccepted` is an equivalence for that reason.
- A flow entry whose packet count wraps at 2^64 takes a new first timestamp; `Flows.Fold` says so.

## Model

| member | source | states |
|---|---|---|
| Parser.EsNeed | bpf/packet_parser.bpf.h:16-21 | on 32-bit values the bound test answers as over unbounded numbers, so neither subtraction wraps |
| Parser.EsParse | bpf/packet_parser.bpf.h:35-168 | the imperative decoder reads only below the clamped capture, never wraps, and returns the status and tuple of the decoding functions |
| Parser.EsTags | bpf/packet_parser.bpf.h:54-147 | the VLAN loop, limited to two tags, and the dispatch on the type behind them |
| Parser.EsArp | bpf/packet_parser.bpf.h:66-77 | ARP for Ethernet and IPv4 only; its two addresses |
| Parser.EsIpv4 | bpf/packet_parser.bpf.h:79-102 | IPv4 header, options and fragments; the total length replaces the frame's end |
| Parser.EsIpv6 | bpf/packet_parser.bpf.h:103-118 | IPv6 header; the payload length replaces the frame's end, zero is not decoded |
| Parser.EsExtensions | bpf/packet_parser.bpf.h:122-144 | the extension loop, limited to four headers, with the authentication header's own unit |
| Parser.EsTransport | bpf/packet_parser.bpf.h:149-167 | ports only behind a TCP or UDP header whose own length fits the packet |
| Grammar.ParseAnswers | bpf/packet_parser.bpf.h:31-168 | for every frame and capture: TRUNCATED exactly if the capture is shorter than what the unbounded reader needs, else the reader's status and tuple; UNSUPPORTED past two tags or four extension headers; a complete capture of at most 128 bytes is never TRUNCATED |
| Grammar.CaptureAnswers | bpf/packet_parser.bpf.h:45-168 | the same before the capture is clamped |
| Grammar.TagsAnswers | bpf/packet_parser.bpf.h:51-64 | the two-round tag loop against the recursive reading of the whole tag stack |
| Grammar.ScanExtsAnswers | bpf/packet_parser.bpf.h:122-141 | the four-round header loop, from any round, against the recursive reading of the whole chain |
| Grammar.ChainFacts | bpf/packet_parser.bpf.h:26-29 | a chain ends at a non-extension protocol with exactly the bytes behind it, at a header that does not fit, or at a fragment header |
| Grammar.V4Answers | bpf/packet_parser.bpf.h:79-102 | the IPv4 branch answers as the unbounded reader does |
| Grammar.V6Answers | bpf/packet_parser.bpf.h:103-144 | the IPv6 branch answers as the unbounded reader does |
| Grammar.TransportAnswers | bpf/packet_parser.bpf.h:149-167 | the transport branch answers as the unbounded reader does on the segment the IP length delimits |
| ParserLaws.CaptureStable | bpf/packet_parser.bpf.h:35-168 | two captures of growing frames, one a prefix of the other: what changes and what may not |
| ParserLaws.PrefixStability | bpf/packet_parser.bpf.h:15-21 | a longer capture of the same frame keeps every status but TRUNCATED with its identical tuple, and extends what a TRUNCATED run had recorded |
| Padding.PaddingInvariance | bpf/packet_parser.bpf.h:79-112 | every padding leaves status and tuple unchanged exactly if the frame does not end short of what its headers, as far as present, announce; a frame that does is MALFORMED |
| Padding.PaddingKeeps | bpf/packet_parser.bpf.h:79-112 | any bytes behind a frame that does not end short change neither status nor tuple |
| Padding.ShortChanges | bpf/packet_parser.bpf.h:45-111 | a frame that ends short is MALFORMED and some padding changes that |
| Padding.CutToLinkHeader | bpf/packet_parser.bpf.h:57-83 | any described frame that announces a header, cut behind its link header, ends short and is MALFORMED, and with its rest put back gives its description's answer |
| TupleShape.ParseWellFormed | bpf/packet_parser.bpf.h:42-167 | at every return: PORTS_VALID exactly if OK with protocol 6 or 17, FRAGMENT exactly with that status, ports imply addresses, at most two 12-bit VLAN IDs, unused fields zero |
| TagOffload.TagOffloadEquivalence | bpf/packet_parser.bpf.h:43-64 | for every capture of every frame, the outer tag in band or stripped gives the same status exactly if the last header byte is not among the four bytes of capture the tag costs; then the tuples agree exactly if no third tag is visible |
| TagOffload.LateFrames | bpf/packet_parser.bpf.h:43-44 | every described frame whose answer rests on bytes up to 125 to 128 is one where they differ |
| TagOffload.LateFrameExists | bpf/packet_parser.bpf.h:122-159 | one such frame: IPv6 with destination options and UDP, ending at byte 126 |
| TagOffload.TaggedShift | bpf/packet_parser.bpf.h:54-167 | everything behind the tags decodes alike four bytes further on |
| RoundTrip.EncodeParseRoundTrip | bpf/packet_parser.bpf.h:35-168 | any described frame (any number of tags; ARP; IPv4 with options or fragmented; IPv6 with any chain, fragment, ESP; TCP, UDP or any other protocol; wrong versions and lengths; padding), serialised and parsed, gives exactly its description's status and tuple, and TRUNCATED exactly if a byte they rest on is not captured |
| RoundTrip.WholeFrame | bpf/packet_parser.bpf.h:43-168 | the same for a whole frame through the 128-byte window |
| RoundTrip.ReadEncoded | tests/ebpf/parser_test.cpp:10-38 | the unbounded reader gives the description's own answer and rests it on the same bytes |
| RoundTrip.ReadPacket | bpf/packet_parser.bpf.h:66-167 | the same for every described packet behind its Ethertype |
| RoundTrip.ReadDescribedChain | bpf/packet_parser.bpf.h:122-147 | the answer for a chain and what it ends in: upper protocol, ESP, fragment, a header that does not fit, or more than four headers |
| RoundTrip.ReadSegment | bpf/packet_parser.bpf.h:149-167 | TCP and UDP with right and wrong length fields or no room for a header, and any other protocol without ports |
| RoundTrip.ReadExtBytes | bpf/packet_parser.bpf.h:122-141 | reading back serialised extension headers, of any number and mix, in front of any segment |
| RoundTrip.ReadTagBytes | bpf/packet_parser.bpf.h:54-62 | reading back serialised tags, of any number |
| Events.ReadWrittenEvent | bpf/elephantshrew_shared.h:80-96 | an event laid out in 216 bytes reads back as itself |
| Events.WriteReadEvent | bpf/elephantshrew_shared.h:117-120 | 216 bytes read as an event lay out as the same bytes |
| Events.ReadWrittenTuple | bpf/elephantshrew_shared.h:66-78 | the same for the 48-byte tuple |
| EventLayout.EventAt | bpf/elephantshrew_shared.h:42-120 | every field of an event at its byte offset, little-endian, and every flag at its bit |
| Events.ValidatedIsAcceptable | inc/TelemetryTypes.hpp:17-33 | the checks pass exactly the events a consumer may rely on, and change nothing |
| Events.DecodeExactly | inc/TelemetryTypes.hpp:13-34 | DecodeEvent returns an event exactly from that event's own layout, and only if it is acceptable |
| Observer.Hook.constructor | bpf/elephantshrew_tc.bpf.c:8-31 | settings fixed before load, tables empty |
| Observer.Hook.Observe | bpf/elephantshrew_tc.bpf.c:59-131 | one call moves counters, flow table and ring exactly as the step function; an event it adds has the frame's own tuple and status number, time, interface, CPU, direction, snapshot and sequence, and decodes to itself; without a counter slot it does nothing; the packet always passes |
| Observer.StepAppends | bpf/elephantshrew_tc.bpf.c:91-130 | what the step function adds to the ring, told by the packet: for every described frame its own tuple and status, 1 without bytes, 3 for a short frame, 5 without parsing; and when an event is due |
| Observer.Hook.Account | bpf/elephantshrew_tc.bpf.c:69-85 | the first half: packets, bytes, parse results, flow |
| Observer.Hook.Sample | bpf/elephantshrew_tc.bpf.c:91-130 | the second half: SELECTED, the sampling rule, EVENTS or RING_LOST, at most one event |
| Observer.Hook.CountFlow | bpf/elephantshrew_tc.bpf.c:33-57 | the key is in the table exactly if it was found or inserted and not evicted, its entry counts one more, other entries stay or are evicted, and counter 8 moves exactly if there is no entry |
| Observer.FlowsArrive | bpf/elephantshrew_tc.bpf.c:44-56 | the same of the function the flow laws are about |
| Observer.Hook.Classify | bpf/elephantshrew_tc.bpf.c:73-77 | capture of at most 128 bytes and parse; TRUNCATED when nothing can be loaded |
| Observer.Hook.Build | bpf/elephantshrew_tc.bpf.c:99-127 | the event filled field by field |
| Observer.Hook.TakeSnapshot | bpf/elephantshrew_tc.bpf.c:114-127 | the snapshot, and nothing of it after a failed copy |
| Observer.HalvesCompose | bpf/elephantshrew_tc.bpf.c:69-130 | the wrapping counter updates of the two halves add up to one change per counter |
| Observer.PublishedEventIsAccepted | bpf/elephantshrew_tc.bpf.c:94-130 | whatever the packet, settings and helper failures, the published bytes decode to the same event exactly if the interface index is not zero |
| Observer.SnapshotIsPrefix | bpf/elephantshrew_tc.bpf.c:114-127 | what a consumer decodes: the snapshot is the start of the packet and zeros, shorter than asked for only after a failed copy, and marked as truncated exactly if it is a proper part |
| Sampling.SequentialSequences | bpf/elephantshrew_tc.bpf.c:69-129 | without protocol selection, call after call, published sequence numbers are exactly the multiples of sample_every not lost |
| Sampling.RunKeepsInv | bpf/elephantshrew_tc.bpf.c:69-129 | for interleaved calls every counter is the number of calls that have passed its update, modulo 2^64 |
| Sampling.SamplingLaw | bpf/elephantshrew_tc.bpf.c:91-129 | for interleaved calls below 2^64: EVENTS + RING_LOST + in flight = floor(SELECTED / sample_every), 0 for 0; SNAPSHOT_FAILED at most EVENTS + in flight |
| Sampling.CallAlone | bpf/elephantshrew_tc.bpf.c:69-130 | whatever other calls are in flight, a call run to completion in the interleaved system moves its five counters and the ring as the hook's step does |
| CounterLaws.CountersMean | bpf/elephantshrew_tc.bpf.c:69-129 | below 2^64 calls, counter by number: packets, bytes, selected, events in the ring, ring-lost (with the floor law), partial and malformed parses, failed snapshots |
| CounterLaws.OnlySelectedPublished | bpf/elephantshrew_tc.bpf.c:87-90 | with a protocol selected, every published event has status 0 and that protocol |
| Flows.FlowAggregate | bpf/elephantshrew_tc.bpf.c:44-56 | under any eviction and insertion failure each entry is count, bytes, first and last of its packets, and accounted plus failed is all arrivals |
| Flows.BehindAreArrivals | bpf/elephantshrew_tc.bpf.c:44-48 | the packets behind an entry are the latest under its key without a gap |
| Flows.HookKeepsLedger | bpf/elephantshrew_tc.bpf.c:33-57 | after any run of hook calls the table is that aggregate, FLOW_UPDATE_FAILED the failed arrivals, and both together the port-valid packets seen |
| FlowLaws.AllArrivalsHeld | bpf/elephantshrew_tc.bpf.c:44-56 | without eviction and failed insertion the keys are exactly those that arrived, each entry folds all its arrivals, and none fails |
| FlowLaws.AllPacketsHeld | bpf/elephantshrew_tc.bpf.c:33-57 | the same over hook calls: an entry per tuple, interface and direction seen with ports, of all its packets; FLOW_UPDATE_FAILED stays 0 |
| FlowLaws.FoldIs | bpf/elephantshrew_tc.bpf.c:53-56 | below 2^64 packets an entry is first and last time, number of packets, and bytes modulo 2^64 |
| SpscQueue.Queue.Make | inc/SpscQueue.hpp:21-25 | refuses capacity zero and the largest size, else an empty queue of that capacity |
| SpscQueue.Queue.TryPush | inc/SpscQueue.hpp:28-35 | appends exactly if fewer than capacity items wait, across the array's end |
| SpscQueue.Queue.TryPop | inc/SpscQueue.hpp:36-42 | removes the oldest exactly if one waits |
| SpscMemory.FifoRefinement | inc/SpscQueue.hpp:28-42 | in every interleaving with stale views the popped values are a prefix of the pushed ones and at most capacity wait |
| SpscMemory.RaceFreedom | inc/SpscQueue.hpp:32-40 | no slot is read while written, and every reuse of a slot is ordered behind the access it follows by what the thread has acquired |
| SpscMemory.ExactOutcomes | inc/SpscQueue.hpp:31-38 | a push fails exactly if the tail it loaded leaves capacity items, a pop exactly if the head it loaded leaves none |
| SpscMemory.QueueRefinement | inc/SpscQueue.hpp:28-42 | each step is a push, a refused push or a pop of a bounded sequence, or invisible |
| SpscMemory.ReadsPublishedWrite | inc/SpscQueue.hpp:38-39 | the slot read can return one value only, the one published to it |
| SpscMemory.FullView | inc/SpscQueue.hpp:30-31 | comparing wrapped indices detects exactly capacity items, through wrap-around |
| SpscMemory.RunKeepsInv | inc/SpscQueue.hpp:28-42 | head and tail are the pushes and pops modulo the slots, and views are never ahead |
| QueueSimulation.RingSimulatesQueue | inc/SpscQueue.hpp:28-42 | every run of the two threads is, step by step, a run of the pipeline's queue: a push that returns true appends, one that returns false is dropped on a full view, a pop removes the oldest |
| Callback.AcceptedIsGenuine | src/EbpfTelemetry.cpp:43-49 | a record to queue passed the validator, has its source's interface, namespace and session, and is the bytes received |
| Callback.AcceptedExactly | src/EbpfTelemetry.cpp:43-49 | a record is queued exactly for the bytes of an acceptable event of its source's own interface |
| Telemetry.EbpfTelemetry.constructor | src/EbpfTelemetry.cpp:25-34 | no source, nothing lost, neither started nor finished |
| Telemetry.EbpfTelemetry.AddSource | src/EbpfTelemetry.cpp:57-75 | when a source is refused, when registration fails and is taken back, when it stays |
| Telemetry.EbpfTelemetry.Start | src/EbpfTelemetry.cpp:76-87 | starts once, with a ring, before the finish |
| Telemetry.EbpfTelemetry.OnEvent | src/EbpfTelemetry.cpp:35-53 | each record is discarded, a decode error, dropped or queued, and exactly one of them |
| Telemetry.EbpfTelemetry.Consume | src/EbpfTelemetry.cpp:100-100 | ring after ring, records leave in commit order; what of them was accepted fills the queue; a negative callback answer takes its record and ends the call, and a failure of the library is the one the call was bound to |
| Telemetry.EbpfTelemetry.Drain | src/EbpfTelemetry.cpp:98-104 | the drain loop ends by remaining time and ring contents, and only for an empty ring, the deadline, a cancelled callback past it, or a failing call, whose answer it keeps |
| Telemetry.EbpfTelemetry.FinishAfterDetach | src/EbpfTelemetry.cpp:88-109 | the drain runs exactly if not finished, with time and a ring; its deadline is the clock plus at most a minute; before it and without a failing call every record has left the rings and the accepted ones fill the queue; poll_error is a failing call's answer or unchanged, never -ECANCELED; at most one record discarded; a second call changes nothing |
| Telemetry.EbpfTelemetry.TryPop | src/EbpfTelemetry.cpp:110-110 | the oldest record or none |
| Pipeline.PipelineConservation | src/EbpfTelemetry.cpp:35-110 | sampled packets = ring-lost + in the rings + in the callback + decode errors + dropped + discarded + queued + popped, in every state of every run |
| PipelineCounters.CountersConserved | bpf/elephantshrew_tc.bpf.c:91-129 | below 2^64 calls, summed over objects, CPUs and directions: SELECTED / sample_every = RING_LOST + EVENTS, and EVENTS = in the rings + in the callback + decode errors + dropped + discarded + queued + popped |
| Pipeline.PipelineOrder | bpf/elephantshrew_tc.bpf.c:69-130 | below 2^64 calls, popped sequence numbers strictly increase per object, CPU and direction, through losses, poller and drain |
| Pipeline.LifecycleSafety | src/EbpfTelemetry.cpp:35-109 | one thread at most in the callback, none after the finish, at most two records ever discarded, poll_error never -ECANCELED, every queued or popped record genuine |
| Pipeline.NothingAfterFinish | src/EbpfTelemetry.cpp:106-110 | once finished nothing is queued, lost or discarded any more |
| Pipeline.DecodeErrorsAreForeign | src/EbpfTelemetry.cpp:44-47 | with the observer on the other end a decode error means an event of another interface |
| PipelineCancel.LatePollerDiscards | src/EbpfTelemetry.cpp:38-42 | a callback of the poller that begins after the abort or the deadline discards its record, whatever the other threads do meanwhile |
| PipelineCancel.LateDrainDiscards | src/EbpfTelemetry.cpp:38-42 | the same for a callback of the drain |
| PipelineCancel.DiscardsAreLate | src/EbpfTelemetry.cpp:38-42 | a record is discarded only after the abort or the deadline |
| PipelineCancel.DeadlineIsAsked | src/EbpfTelemetry.cpp:91-97 | the deadline is set once the poller is gone, to the time asked for but at most a minute |
| PipelineCancel.FinishDrains | src/EbpfTelemetry.cpp:95-107 | a finish with time and a source does not end without having set its deadline |
| PipelineCancel.PollErrorIsAnswer | src/EbpfTelemetry.cpp:80-103 | poll_error changes only to the answer of a failing call, never -EINTR or -ECANCELED |
| PipelineCancel.FailureIsKept | src/EbpfTelemetry.cpp:83-103 | a failing call leaves its answer and ends its loop |
| PipelineCancel.AbortEndsPoller | src/EbpfTelemetry.cpp:79-82 | once aborted the poller ends without an error |
| PipelineCancel.SourcesFixed | src/EbpfTelemetry.cpp:59-60 | no source is taken on after the start or the finish |
| Pipeline.RunKeepsInv | src/EbpfTelemetry.cpp:57-110 | the invariant behind these theorems holds in every state |
| Throttle.PendingWrites.Make | src/RedisPacketStore.cpp:27-28 | no store without a slot |
| Throttle.PendingWrites.TryReserve | src/RedisPacketStore.cpp:173-182 | one pass under the lock: granted exactly if accepting and fewer than max accepted stores are open, refused exactly if not accepting |
| Throttle.PendingWrites.Complete | src/RedisPacketStore.cpp:187-191 | one accepted store more has completed, if one was open |
| Throttle.PendingWrites.StopAccepting | src/RedisPacketStore.cpp:60-63 | clears the flag and nothing else |
| Throttle.PendingWrites.DrainPass | src/RedisPacketStore.cpp:198-200 | one pass of the drain's wait: success exactly if every accepted store has completed, failure exactly if time is up and one has not |
| Throttle.MutualExclusion | src/RedisPacketStore.cpp:171-206 | one thread at most is in a critical section |
| Throttle.Accounting | src/RedisPacketStore.cpp:171-193 | pending writes = accepted stores not completed, within 0..max, and the underflow guard is never needed |
| Throttle.NeverGrows | src/RedisPacketStore.cpp:60-63 | once the flag is cleared no store is accepted and the count never grows |
| Throttle.DrainedMeansCompleted | src/RedisPacketStore.cpp:195-206 | a successful drain means every accepted store has completed, then and later |
| Throttle.TimedOutMeansPending | src/RedisPacketStore.cpp:199-205 | a timed-out drain means some accepted store has not |
| Throttle.FailureNeedsTimeLimit | src/RedisPacketStore.cpp:198-205 | the drain reports failure only after its time limit was reached |
| Throttle.DroppedOnlyWhenClosing | src/RedisPacketStore.cpp:178-179 | a store is refused or dropped only after the destructor has cleared the flag |
| Throttle.CompletionHasCause | src/RedisPacketStore.cpp:73-122 | a slot is given back only after post threw, async_exec threw or the completion handler ran |
| Throttle.NoLostWakeup | src/RedisPacketStore.cpp:58-200 | while a thread sleeps un-notified with its predicate true, another is between its change and notify_all, past the unlock if the mutex is free |
| Throttle.NoDeadlock | src/RedisPacketStore.cpp:58-206 | until every call, write and destructor is finished some thread can go on, without spurious wakeups or the time limit |
| Throttle.RunKeepsInv | src/RedisPacketStore.cpp:58-206 | the invariant behind these theorems holds in every state |
| Policy.Classifier.constructor | bpf/elephantshrew_active_tc.bpf.c:15-20 | the template without rules is the generation active at first |
| Policy.Classifier.ActiveIngress | bpf/elephantshrew_active_tc.bpf.c:34-82 | whatever the controller does meanwhile, the rule is the flow's own, else the default, of the one generation active at the outer lookup, and verdict number, sending and every counter follow from it; nothing is sent out of interface 0 or the arrival interface; fail-open without rules or counters |
| Policy.Classifier.Select | bpf/elephantshrew_active_tc.bpf.c:47-60 | the exact rule, else the default rule, else none, all in one generation |
| Policy.Classifier.Act | bpf/elephantshrew_active_tc.bpf.c:61-81 | by the rule's action: -1, 2 or the redirect's answer, what is sent, and counters 9 to 12 |
| Policy.JudgedObeys | bpf/elephantshrew_active_tc.bpf.c:61-81 | the same, case by case in numbers, of the functions the verdict laws are about |
| Policy.RuleApplies | bpf/elephantshrew_active_tc.bpf.c:46-60 | for every described frame, the rule under its own tuple, interface and ingress if it has ports and there is one, else the all-zero key's |
| Policy.Classifier.ParseInto | bpf/elephantshrew_active_tc.bpf.c:46-49 | capture and parse into the key |
| Policy.VerdictsFollowFlows | bpf/elephantshrew_active_tc.bpf.c:50-60 | two packets from one interface get the same verdict in every generation exactly if they have the same flow, or neither has one |
| Policy.RuleIsolation | bpf/elephantshrew_active_tc.bpf.c:50-60 | rules under a key make no difference to a packet exactly if the key is neither its flow nor, where that has no rule, the default |
| Policy.ExactKeyIsCountedFlow | bpf/elephantshrew_active_tc.bpf.c:51-54 | the flow a rule is looked up for is the one the observer's step accounts the same packet to, and a packet without one leaves the flow table alone |
| Policy.PaddingKeepsVerdict | bpf/elephantshrew_active_tc.bpf.c:46-60 | trailing bytes change the verdict in no generation exactly if not both the frame ended short and the padded one is decoded to its ports |
| Policy.TagOffloadKeepsVerdict | bpf/elephantshrew_active_tc.bpf.c:45-60 | for every frame, the outer tag in band or stripped changes the verdict in no generation exactly if no transport header ends in the four bytes of capture the tag costs |
| Policy.LatePackets | bpf/elephantshrew_active_tc.bpf.c:45-49 | every described frame whose ports rest on bytes up to 125 to 128 is a packet on which some generation decides differently |
| Policy.CountersTally | bpf/elephantshrew_active_tc.bpf.c:63-80 | over any run of verdicts each policy counter is the number of packets so decided, and failed mirrorings are among the attempted |

## Left out

- Kernel and libbpf calls: byte loads, ring reservation, map lookups and eviction, redirects and polling are nondeterministic answers. Assumed: a byte load returns the start of the frame or fails; ring records arrive in commit order; a negative callback answer takes its record and ends the call; a failing call into the library takes some time.
- Pipeline.PipelineOrder: one hook call is one step, that is, calls run to completion on their CPU; interleaved calls on one slot are in module Sampling only.
- Pipeline: each loaded object has one ring, registered at most once and empty when loaded; the flow table is not part of its state (module Flows has it).
- Telemetry.EbpfTelemetry.Start: the thread it starts and the poller's own loop are steps of module Pipeline; alone it has no bound.
- Telemetry.EbpfTelemetry: the time that passes before each reading of the clock, and which library calls fail where, are given; the loss counters and the clock are unbounded there; the 64-bit counters of the hooks do wrap.
- SpscMemory: of the C++ memory model only coherent stale loads and release/acquire visibility.
- Throttle: what XADD writes, the connection, PING validation and the stopping of the I/O context; a write whose handler never comes is one that takes no further step. Assumed: post and async_exec each throw or run their handler once.
- Policy.Classifier.ActiveIngress: a generation is not edited once published, and stays readable by a hook that has looked it up.
- TagOffload.TagOffloadEquivalence: where both runs are TRUNCATED on a capture of more than 124 bytes their partial tuples are not compared.
- Addresses and ports are the bytes of the frame; other integers of an event are laid out little-endian, as on the hosts the program is built for.
- `inc/TcAttachment.hpp`, `src/EbpfObject.cpp`, `src/EbpfCapabilities.cpp`: kernel attachment.
- `bpf/elephantshrew_xdp.bpf.c`, `bpf/elephantshrew_xsk.bpf.c`: one or two branches each.
- `src/ThreadPool.cpp`: not built, and weaker claims than the queue's.
- `src/PcapReceiver.cpp`, `src/ElephantShrew.cpp`, `src/NetworkInterfaceScanner.cpp`: wrappers and logging.
- `src/RuntimeConfig.cpp`, `src/ElephantShrewMain.cpp`: flat checks of settings and arguments.
