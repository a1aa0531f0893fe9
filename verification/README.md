# A Dafny model of tunator

tunator is a websocket gateway to a tun device. A PAKT message that arrives over the websocket is put into
the queue `toTun`; packets coming back are taken from the queue `fromTun` and sent as PAKT messages. In
echo mode one thread moves packets from `toTun` to `fromTun`. This project models that packet path, the
statistics kept along it, the parser and printer for the output of `ip route list`, and the hash that
dispatches JSON commands, and proves properties of them with Dafny 4.11.

`dafny verify dfyconfig.toml` checks everything.

## How the model is laid out

**The packet pool and queue, call by call.** `PacketBuffer.dfy`, `PacketStatistic.dfy`, `PacketQueue.dfy`,
`TunDevice.dfy`, `WsPacket.dfy` and the second half of `TunaServer.dfy` are classes over the same fields as
the C++ classes: one flat byte array cut into slots, packets with `used`, `idx`, `size`, `maxSize` and
`buf`, a ring of packets, twelve counters. The methods carry contracts about the byte strings in the queue,
the exact counters and everything that stays unchanged; `TunaServers.EchoMessage` runs a message through a
new device.

**The same queue under concurrency.** `QueueProtocol.dfy` is a step system with a program counter for one
thread inside `push` and one inside `pop`: loop test, each look at a `used` flag, mark, every byte the
action writes, size, ring push, notify, ring pop, action result, free, every counter update, lock, wait,
wake, timeout. `collect` may happen anywhere. `QueueInvariants.dfy` proves the inductive invariant,
`QueueTheorems.dfy` what follows for all runs,
`QueueEvents.dfy` that the statistics record exactly what happened in the run and what callers have seen,
`PushTermination.dfy` and `PopTermination.dfy` how soon a
push or a pop ends, and `SoloRuns.dfy` that a thread running alone does exactly what the class methods' contracts say.

**The echo gateway.** `EchoGateway.dfy` composes two such queues with the message handler, the echo thread
(a push nested in a pop's action), the receive thread, start and stop. `EchoInvariants.dfy` and
`EchoPreservation.dfy` prove its invariant, `GatewayTheorems.dfy` the end-to-end statements, and
`GatewayRuns.dfy` that each queue of a gateway run makes a run of the queue protocol, what starting and
stopping do, and that a stopped device comes to rest.

**Route text.** `Text.dfy` holds decimal numerals, `stoi` and the tokenizer; `LinuxIpRoute.dfy` a
specification of the parser by pairs and last values, and the parser's flag machine proved to compute it;
`RouteTheorems.dfy` the concatenation law, reordering and the exact round-trip condition, for any address
library that meets `AddressLib.Laws`; `RouteMeaning.dfy` says by token positions what is printed and which
token decides what a line yields; `Ipv4.dfy` proves those laws for dotted-quad IPv4 with a prefix.

**Backoff.dfy** is the arithmetic of the waiting loop in `push`, **Common.dfy** general helpers.

## What is assumed

- One thread at a time pushes into a queue and one pops from it, as the ring in
  `boost/lockfree/spsc_queue.hpp` requires.
- Memory is sequentially consistent.
- The Boost ring is a bounded FIFO that holds exactly `size` entries.
- An action writes only inside its own slot and returns at most `maxSize` (`PacketQueues.Fits`, `Enabled`).
- `collect` is atomic. The code itself admits that it may lose a bit (packet_statistic.hpp:72).
- `size_t` is 64 bits wide and `int` 32; `char` is signed. Counters do not overflow.
- The size of an incoming message does not change while its stream is read.
- The address library parses what it prints and prints words (`AddressLib.Laws`).

## Where the code is not what one might expect

- `asJson` collects the statistics a queue hands out a second time, so the total in the report counts the
  last window twice (`DoubleCollect`, `AsJson`). The queue's own total is right.
- The command hash is exact for printable words of up to nine characters (`DispatchExact`). Neither bound can
  be dropped: the ten characters `v;BKE,-o.C` are taken for `init` (`NineIsSharp`), and so are four bytes with
  a control character or a byte above 127, and `init` followed by a NUL and anything (`PrintableIsSharp`).
  `DispatchCollisions` says for every byte string which branch it reaches.
- The notify in `push` is not under the mutex, so a wakeup can be missed. `MissedWakeups` says which: those
  issued between a pop's look at the empty ring and the beginning of its wait. `FailedPopLosesNothing` says
  that the packet stays first in line.
- A route list survives printing and parsing only if every name is one word, every metric fits an `int` and
  every via and src is a host address (`RoundTripExactly`). `to_s` drops the prefix of the last two.
- Joining the two listings in `read` means parsing each only at a line end (`ParseConcatExactly`).
- A line of blanks yields a route nobody assigned to, and a metric that is no number leaves `parse` by an
  exception instead of an `Err`; both are kept (`ParseTokens`, `Parsed.Throws`).
- A message shorter than its tag gets a length that has wrapped around (`From`), and `CopyOut` then claims more
  bytes than it copies; the empty tag keeps such a message from being used.

## Model

| member | source | states |
|---|---|---|
| PacketLayout.PacketSizeBounds | packet_buffer.hpp:17 | a slot takes the least multiple of the word size strictly above the mtu, so mtu < packetSize <= mtu + word |
| PacketLayout.WordIsEight | packet_buffer.hpp:17 | a slot takes the mtu rounded up past the next multiple of eight; 1313 bytes take 1320 |
| PacketLayout.OffsetIsProduct | packet_buffer.hpp:26 | the recursive offset used in proofs is the code's `i*packetSize` |
| PacketLayout.SlotsApart | packet_buffer.hpp:26 | for every mtu, a slot's mtu bytes end strictly before any later slot begins |
| PacketLayout.SlotInside | packet_buffer.hpp:19-26 | every slot of the pool lies inside the flat buffer |
| PacketLayout.WriteElsewhere | packet_buffer.hpp:26 | a write inside one slot leaves every other slot as it was |
| PacketBuffers.FirstFree | packet_buffer.hpp:34-44 | the scan's result is the lowest unused slot, and none only if all are used |
| PacketBuffers.NewPool | packet_buffer.hpp:20-27 | the constructor's loop makes `size` distinct unused packets with the right index, size limit and start |
| PacketBuffers.PacketBuffer.constructor | packet_buffer.hpp:14-28 | a new pool has the layout the other members rely on and no slot in use |
| PacketBuffers.Packet.Free | packet.hpp:11-13 | afterwards the packet is unused and nothing else has changed |
| PacketBuffers.PacketBuffer.Alloc | packet_buffer.hpp:34-44 | null exactly when every slot is used; otherwise the lowest free slot, which is the only one whose flag changes |
| PacketBuffers.PacketBuffer.Fill | packet_queue.hpp:54 | an action's writes reach its own slot and no other, although all share one array |
| PacketStatistics.PacketStatistic.constructor | packet_statistic.hpp:52-53 | all counters of a new object are zero |
| PacketStatistics.PacketStatistic.Add | packet_statistic.hpp:54-65 | an increment changes its own counter of the open window and nothing else |
| PacketStatistics.GetNames | packet_statistic.hpp:15-27 | each counter is the field of its name |
| PacketStatistics.PacketStatistic.Collect | packet_statistic.hpp:71-100 | the returned object holds the closed window, its start and the new total; the collected one starts an empty window |
| PacketStatistics.LifeSteps | packet_statistic.hpp:54-100 | lifetime counts (total plus window) see every increment and no collect |
| PacketStatistics.WindowedConservation | packet_statistic.hpp:54-100 | over any run of increments and collects, what happened is total plus window, and total is the sum of the windows handed out |
| PacketStatistics.WindowIsRecent | packet_statistic.hpp:79-80 | the window is exactly what happened since the last collect |
| PacketStatistics.DoubleCollect | tun_device.hpp:177-179 | collecting a collected copy adds its window to the total again; it is harmless only for an empty window |
| Backoff.SleptClosedForm | packet_queue.hpp:50-78 | after k failed attempts the sleep asked for is 5k(k-1) up to k = 11 and 550 + 100(k-11) from there |
| Backoff.AttemptsExact | packet_queue.hpp:50-81 | the number of attempts against a full pool is the least k whose sleep reaches `blockWait`; none for 0; the sleep overshoots by less than 100 |
| Backoff.OneMoreNap | packet_queue.hpp:75-78 | capping and adding 10 keeps `wait` and `tw` in step with the closed form |
| PacketQueues.PacketQueue.constructor | packet_queue.hpp:33-36 | a new queue is empty, uncounted and owns its memory |
| PacketQueues.PushCountedExactly | packet_queue.hpp:49-82 | what a push adds to each of the twelve counters, for every outcome |
| PacketQueues.PopCountedExactly | packet_queue.hpp:84-109 | what a pop adds to each of the twelve counters, for every outcome |
| PacketQueues.PacketQueue.UsedAreQueued | packet_queue.hpp:49-109 | between calls the used slots are exactly the queued ones, each once |
| PacketQueues.PacketQueue.FullExactly | packet_queue.hpp:33-34 | the pool is exhausted exactly when the ring is full |
| PacketQueues.PacketQueue.Push | packet_queue.hpp:49-82 | the action's bytes are appended exactly if a slot was free, `blockWait` is positive and the action reports some; every counter, exactly; other packets untouched; it terminates |
| PacketQueues.PacketQueue.GrantsExactly | packet_queue.hpp:50-51 | a push gets a slot exactly if the ring is not full and `blockWait` is positive |
| PacketQueues.PacketQueue.Acquire | packet_queue.hpp:50-81 | the back-off loop gets the lowest free slot and counts it, or gives up after exactly the attempts the arithmetic predicts, all counted |
| PacketQueues.PacketQueue.Reserve | packet_queue.hpp:51 | allocation touches no queued packet and leaves room in the ring |
| PacketQueues.PacketQueue.Deliver | packet_queue.hpp:54-71 | what the action left in the slot is queued, or the slot is given back, and counted; a refused ring push is impossible |
| PacketQueues.PacketQueue.Enqueue | packet_queue.hpp:56-61 | the packet joins the end of the queue with its bytes and size |
| PacketQueues.PacketQueue.GiveBack | packet_queue.hpp:68-70 | freeing changes no queued packet |
| PacketQueues.PacketQueue.Take | packet_queue.hpp:87-89 | the oldest packet leaves the ring still owned, with its bytes intact |
| PacketQueues.PacketQueue.Await | packet_queue.hpp:85-107 | the loop of pop hands over the oldest packet, or counts each look and the timeout and has taken nothing |
| PacketQueues.PacketQueue.Pop | packet_queue.hpp:84-109 | true exactly when something was queued; the oldest string goes to the action, whose result is counted; an empty queue is counted once per look and times out |
| TunDevices.TunDevice.constructor | tun_device.hpp:142-151 | two disjoint, newly allocated, empty queues of the given mtu and size with a `blockWait` of 100 and zero counters; not running |
| TunDevices.CopyIntoFits | tun_device.hpp:125-128 | a copy of at most mtu bytes stays inside the target slot and reports its length |
| TunDevices.TunDevice.PushCopy | tun_device.hpp:125-128 | the copy is queued byte for byte or, if the pool is full, the push times out with the exact counts |
| TunDevices.TunDevice.Forward | tun_device.hpp:125-128 | the nested push changes neither the packet being echoed nor the rest of `toTun` |
| TunDevices.TunDevice.Echo | tun_device.hpp:124-130 | the packet taken is copied byte for byte if `fromTun` has room and dropped if not, and its slot is freed; both queues' counters, exactly |
| TunDevices.TunDevice.EchoOnce | tun_device.hpp:122-131 | one turn of the loop for any state of both queues: the oldest packet moves or is dropped, an empty queue times out |
| TunDevices.TunDevice.AsJson | tun_device.hpp:163-180 | the report shows the new sequence number, the state and the windows; each queue is collected once; each reported total is the running total plus the last window again |
| WsPackets.TagsAre | tuna_server.hpp:64-220 | the tags are the four bytes of PAKT and of JSON, and four bytes are read for one |
| WsPackets.HeaderExact | ws_packet.hpp:3-16 | the tag comparison succeeds exactly for messages that start with the tag |
| WsPackets.FrameRoundTrip | tuna_server.hpp:64-66 | a framed packet is recognised and gives back its payload; nothing else is recognised |
| WsPackets.Message.GetHeader | ws_packet.hpp:3-16 | what the header read returns, and how much of the stream it consumes, short messages included |
| WsPackets.WsPacket.From | ws_packet.hpp:17-25 | header, payload length and stream position for every message, with the wrapped length of a short one |
| WsPackets.WsPacket.CopyOut | ws_packet.hpp:30-38 | the bytes left in the stream, cut to the length, land at the start of the slot, the slot's other bytes stay, the stream advances by them; with a proper length they are the payload's first `lenDst` bytes |
| TunaServers.HashIsNumeral | tuna_server.hpp:32-35 | for every byte string, wrapping in every round is reducing once the base-101 numeral with signed digits that ends at the first NUL |
| TunaServers.NumeralInjective | tuna_server.hpp:32-35 | over unbounded integers the hash is injective on printable words |
| TunaServers.HashInjective | tuna_server.hpp:32-35 | with 64-bit wrap-around it is still injective up to nine characters |
| TunaServers.HashCollides | tuna_server.hpp:32-35 | any two byte strings have the same hash exactly if their numerals differ by a multiple of 2^64 |
| TunaServers.CommandsAre | tuna_server.hpp:153-156 | the two commands are init and pong |
| TunaServers.DispatchExact | tuna_server.hpp:150-162 | within nine printable characters the switch reaches init or pong exactly for that word |
| TunaServers.DispatchCollisions | tuna_server.hpp:150-162 | exactly which byte strings reach init and which reach pong |
| TunaServers.PrintableCollisions | tuna_server.hpp:150-162 | a printable word of any length reaches a command exactly if it is that word or its numeral is larger by a multiple of 2^64 |
| TunaServers.NineIsSharp | tuna_server.hpp:150-162 | a ten-character word that is dispatched as init |
| TunaServers.PrintableIsSharp | tuna_server.hpp:150-162 | four-byte words with an unprintable byte, and init before a NUL and anything, are dispatched as init |
| TunaServers.OnMessage | tuna_server.hpp:203-225 | a PAKT message appends its payload, cut to the mtu, unless that is empty or the pool is full, with every counter; no other message touches a queue, and none touches `fromTun` |
| TunaServers.ProcessPacket | tuna_server.hpp:164-176 | with copyOut as the push action: which payloads are queued, as which bytes, every counter, and how far the message's stream is read |
| TunaServers.ReceiveOnce | tuna_server.hpp:62-77 | the oldest packet of `fromTun` is sent framed, counted and removed; from an empty queue nothing is sent, however often the wait is woken |
| TunaServers.EchoMessage | tun_device.hpp:113-135 | a new device returns a PAKT message with its payload cut to the mtu, if that is not empty and there are slots, and returns nothing else |
| QueueInvariants.RingHasRoom | packet_queue.hpp:33-34 | a producer that holds a slot leaves at most `size` - 1 entries in the ring |
| QueueInvariants.KeepsOwnership | packet_queue.hpp:51-95 | every step keeps: the used slots are the disjoint union of the consumer's slot, the ring and the producer's slot |
| QueueInvariants.KeepsPackets | packet_queue.hpp:54-95 | no step changes the bytes or size of a packet between its ring push and its free |
| QueueInvariants.KeepsContents | packet_queue.hpp:49-109 | every step keeps: the ring's slots hold the accepted strings not yet handed out, in order |
| QueueInvariants.KeepsAccounts | packet_queue.hpp:49-109 | every step keeps the counter equations, whoever collects |
| QueueInvariants.KeepsInv | packet_queue.hpp:49-109 | the whole invariant is inductive over every step of both threads and `collect` |
| QueueTheorems.RunInv | packet_queue.hpp:49-109 | it holds in every state of every interleaved run |
| QueueTheorems.RefinesFifo | packet_queue.hpp:49-109 | every step of the protocol is a step of a bounded FIFO of byte strings, or none |
| QueueTheorems.HistoryStep | packet_queue.hpp:58-87 | strings are accepted and handed out only by the ring push and the ring pop |
| QueueTheorems.ByteFifo | packet_queue.hpp:49-109 | in every interleaving the strings handed to pop actions are a prefix of those accepted, and the rest is what the ring's slots hold |
| QueueTheorems.HistoryGrows | packet_queue.hpp:49-109 | what has been accepted or handed out is never taken back |
| QueueTheorems.ActionSeesHanded | packet_queue.hpp:89-90 | while a pop action runs its slot holds exactly the string handed out, which is not empty and at most mtu long |
| QueueTheorems.PacketsAreStable | packet_queue.hpp:58-95 | over any stretch of a run, a packet keeps bytes and size as long as it is in the ring or with the consumer |
| QueueTheorems.SlotsAccounted | packet_queue.hpp:51-95 | as many slots are used as there are owners; between calls exactly the queued ones |
| QueueTheorems.PushNeverRefused | packet_queue.hpp:58-66 | `pushFailed` stays 0 and its branch is never entered |
| QueueTheorems.AllocLinearizes | packet_buffer.hpp:34-44 | while slots are freed under the scan: null means all were used when it began; success marks a slot nobody owns, with no lower slot free when it began |
| QueueTheorems.ScanBegan | packet_buffer.hpp:34-44 | the flags a scan is judged by are those of the state in which it began |
| QueueTheorems.CounterConservation | packet_queue.hpp:49-109 | lifetime allocations, bytes and packets balance with the ring and what is in flight, under any interleaving with collect |
| QueueEvents.FreshState | packet_queue.hpp:33-36 | there is a run to start for every mtu, size, `blockWait` and buffer |
| QueueEvents.NothingIsBlocked | packet_queue.hpp:49-109 | a thread inside a call always has a step to take; an action may write any byte of its slot and return anything up to the mtu; a wait may end in any way; anybody may collect |
| QueueEvents.StatisticsOfRun | packet_queue.hpp:47-109 | the statistics are, at every moment of every run, what the run's counted events and collects make of a fresh object |
| QueueEvents.CollectedRun | packet_statistic.hpp:71-100 | under any interleaving each total is the sum of the windows the run's collects have closed, and total and window together are what has happened |
| QueueEvents.WindowSinceCollect | packet_statistic.hpp:79-80 | the open window is what has happened since the run's last collect |
| QueueEvents.CountersAreOutcomes | packet_queue.hpp:49-109 | lifetime counters against the interface: pushes and pops that returned true and false, actions that gave nothing, pop actions that reported success and failure, waits that timed out, looks at an empty ring |
| QueueTheorems.PushBegan | packet_queue.hpp:49-50 | a push in its back-off loop is traced to its call, and its mark is what allocFailed was then |
| QueueTheorems.TimedOutPush | packet_queue.hpp:50-81 | between the call of a push that times out and its timeout, allocFailed grows by the exact number of attempts, and the sleep asked for is within [blockWait, blockWait + 100) |
| QueueTheorems.FailedPopLosesNothing | packet_queue.hpp:84-109 | a pop that returns false handed out nothing since its call, found the ring empty at its last look, and what has been accepted since that look is exactly what the ring holds |
| QueueTheorems.PopBegan | packet_queue.hpp:84-85 | a pop that has found nothing is traced to its own call, in which it has been ever since |
| QueueTheorems.LookBegan | packet_queue.hpp:87-98 | its mark is traced to its last look, when the ring was empty |
| QueueTheorems.WaitBegan | packet_queue.hpp:100-101 | a wait in progress is traced to where it began, with the notifies issued until then |
| QueueTheorems.MissedWakeups | packet_queue.hpp:58-101 | the packets in front of a waiting consumer are those accepted since its look, as many as notifies were issued between the look and the wait, up to one whose notify was or is still to come; no notify comes during a wait that goes on |
| QueueTheorems.WakesHappened | packet_queue.hpp:59-101 | the counts of notifies and spurious wakeups are those of the steps of the run |
| QueueTheorems.WakeAccounting | packet_queue.hpp:98-105 | in every run popEmpty <= popTimeout + notifies + spurious wakeups + 1 |
| PushTermination.PushAdvances | packet_queue.hpp:50-81 | each own step of a push brings its end nearer, no step of another thread takes it away |
| PushTermination.PushTerminates | packet_queue.hpp:50-81 | a push returns within attempts * (size + 4) + 10 steps of its own, whatever the consumer does |
| PopTermination.PopTerminates | packet_queue.hpp:84-109 | a pop returns within fourteen steps of its own and four more for each spurious wakeup since its call, however much is pushed meanwhile |
| PopTermination.FoundReturns | packet_queue.hpp:87-96 | a pop that has found a packet returns within five more steps of its own |
| SoloRuns.SoloPush | packet_queue.hpp:50-81 | alone, the interleaved push grants the lowest free slot or gives up, as the sequential one does |
| SoloRuns.SoloDeliver | packet_queue.hpp:54-71 | alone, it queues the action's bytes or frees the slot, with the sequential one's counters |
| SoloRuns.SoloPop | packet_queue.hpp:87-96 | alone, the interleaved pop hands out the oldest string, counts it and frees its slot |
| SoloRuns.SoloPopEmpty | packet_queue.hpp:97-105 | alone, in front of an empty ring, it returns false with the sequential pop's counters for any number of wakes |
| EchoInvariants.ProduceKeepsCopying | tun_device.hpp:125-128 | a copying action ends with exactly its source queued, however the push is interleaved |
| EchoPreservation.GKeeps | tun_device.hpp:113-135 | every step of every thread keeps the gateway's invariant |
| GatewayTheorems.GRunInv | tun_device.hpp:113-135 | it holds in every state of every run |
| GatewayTheorems.ReceivedAre | tuna_server.hpp:203-225 | the payloads counted as received are those of the PAKT messages that arrived |
| GatewayTheorems.EchoEndToEnd | tuna_server.hpp:164-176 | in every state of every run the outgoing messages are an in-order subsequence of the incoming payloads, mtu-cut and framed, none empty; each missing one lies byte for byte in a queue or in the slot a thread has popped, is the one the handler is pushing, or is lost and counted as a push timeout; a thread holds one exactly between its pop and its send or the end of its nested push |
| GatewayTheorems.LosslessEcho | tun_device.hpp:113-135 | with both queues empty and no packet in a thread's hand (the threads may be waiting in their pops) and without a push timeout, the output is exactly the cut, framed, non-empty payloads in order |
| GatewayTheorems.NobodyIsBlocked | tun_device.hpp:113-135 | in every state of every run a handler inside its push, a running echo thread and the receive thread each have a step of their own to take; an idle handler takes any message, a device at rest can be started, anybody may stop or collect |
| GatewayTheorems.EchoConservation | tun_device.hpp:116-131 | between echo pops, toTun's popOk is fromTun's pushOk, popActionFailed is pushTimeout, and fromTun never fails an action or a ring push |
| GatewayRuns.SentIsCounted | tuna_server.hpp:62-77 | fromTun's popOk is the number of messages sent, up to the one just sent, and its popActionFailed stays 0 |
| GatewayRuns.MessagesAreCounted | tuna_server.hpp:164-176 | every PAKT message is counted once by toTun, as queued, empty or timed out, up to the one being pushed |
| GatewayRuns.FreshGateway | tun_device.hpp:142-151 | there is a gateway run to start for any two fresh queues of one size |
| GatewayRuns.QueuesRun | tun_device.hpp:113-135 | each queue of a gateway run makes a run of the queue protocol with exactly the steps the threads take on it, collects included, so every theorem about such runs applies |
| GatewayRuns.RunningIs | tun_device.hpp:207-235 | the device runs exactly if started and not stopped since; while it runs the echo thread does; it is started only at rest |
| GatewayRuns.StopStops | tun_device.hpp:122-234 | after a stop and until a start the device does not run, the echo loop's next test ends it, and no pop of toTun begins |
| GatewayRuns.StopEnds | tun_device.hpp:227-235 | after a stop the echo thread ends within a bounded number of its own steps, whatever the handler and the receive thread do; only spurious wakeups add to the bound |
| GatewayTheorems.RestartLeaksNothing | tun_device.hpp:207-256 | after any starts and stops, once all threads are out of their calls, the slots in use are exactly those in the ring, in both pools |
| Decimals.PrintSpells | linux_ip_route.hpp:45 | numbers are printed in decimal, most significant digit first |
| Decimals.ValuePrint | linux_ip_route.hpp:45 | a printed number reads back as itself |
| Decimals.StoiReads | linux_ip_route.hpp:136 | for every text: white space and one sign are skipped, digits are read, the rest is ignored; no digits or more than 32 bits is an exception |
| Decimals.StoiPrint | linux_ip_route.hpp:136 | `stoi` reads a printed number back exactly if it fits an `int`, and throws if not |
| Tokenizers.TokensAreClean | linux_ip_route.hpp:82-94 | tokens are not empty and hold no separator |
| Tokenizers.TokensConcat | linux_ip_route.hpp:85 | tokenizing distributes over concatenation at a seam |
| Tokenizers.TokensJoin | linux_ip_route.hpp:82-94 | words joined by a separator are found again |
| LinuxIpRoutes.SeparatorsAre | linux_ip_route.hpp:82-83 | tokens end at a blank or a tab, lines at a line feed or a carriage return |
| LinuxIpRoutes.SerializeRoutes | linux_ip_route.hpp:150-160 | the loop prints every route in order, one a line |
| LinuxIpRoutes.Assign | linux_ip_route.hpp:115-138 | a value that parses overwrites the field its key names and nothing else; one that does not is an error or an exception |
| LinuxIpRoutes.ParseLine | linux_ip_route.hpp:89-147 | the flag machine computes: destination from the first token, each field from the last value paired with its key, the first failing value decides |
| LinuxIpRoutes.RouteSnoc | linux_ip_route.hpp:115-138 | in the specification a further pair overwrites just its own field |
| LinuxIpRoutes.ParseText | linux_ip_route.hpp:79-149 | the line loop computes the list of parsed lines or the earliest failure |
| LinuxIpRoutes.ParseLinesConcat | linux_ip_route.hpp:87-148 | parsing a list of lines is a homomorphism |
| RouteTheorems.ParseConcat | linux_ip_route.hpp:75-149 | at a seam, parsing a + b is parsing a and then b, or the failure of the earliest failing part |
| RouteTheorems.ParseConcatExactly | linux_ip_route.hpp:75-149 | for parts that parse, exactly then |
| RouteTheorems.Read | linux_ip_route.hpp:69-78 | a failed command is an error; otherwise the two listings are parsed as one text, which is the v4 and then the v6 list if they meet at a seam |
| RouteTheorems.ReorderPairs | linux_ip_route.hpp:109-147 | reordering the pairs of a line that gives each field once changes nothing |
| RouteTheorems.UnknownIgnored | linux_ip_route.hpp:109-139 | pairs with unknown keys and a trailing key are ignored |
| RouteTheorems.ParseIsWordy | linux_ip_route.hpp:95-139 | whatever the text, names in parsed routes are single words |
| RouteTheorems.SerializedLine | linux_ip_route.hpp:21-48 | a printed route is one line, whose tokens are its destination, keys and values |
| RouteMeaning.PrintedRoute | linux_ip_route.hpp:21-48 | the printed text, word by word: default or the destination, then each field that is set behind its key, in the order via, dev, proto, scope, src, metric, one blank between |
| RouteMeaning.PrintedList | linux_ip_route.hpp:150-160 | printing distributes over concatenation, and a route's line ends in one line feed |
| RouteMeaning.LineVerdict | linux_ip_route.hpp:89-145 | exactly when a line parses: an empty one; else its destination must, and every value behind via, src and metric; a bad destination is an error, and the first bad value decides between error and exception |
| RouteMeaning.LineFields | linux_ip_route.hpp:95-139 | each field of a parsed line is read from the value behind the last place its key is given, and unset if it is nowhere given; a negative metric wraps around |
| RouteMeaning.LinesVerdict | linux_ip_route.hpp:87-148 | a text parses exactly if all lines do, to one route a line in order; else its first failing line decides |
| RouteTheorems.ParsePrinted | linux_ip_route.hpp:21-48 | it reads back with via and src as hosts, or fails for a metric too large |
| RouteTheorems.RoundTripExactly | linux_ip_route.hpp:79-160 | parse after serialize gives the list back if and only if names are words, metrics fit an `int` and via and src are hosts; names may equal keywords |
| RouteTheorems.ReprintExactly | linux_ip_route.hpp:79-160 | the same for lists that came out of parse, where names are words anyway |
| RouteTheorems.PrintedTextIsCanonical | linux_ip_route.hpp:79-160 | without the host condition, printing what was read from a printed list gives the same text |
| Ipv4Addresses.ToStringRoundTrip | linux_ip_route.hpp:23 | dotted quads with a prefix read back as themselves, without one as hosts |
| Ipv4Addresses.Ipv4Lawful | linux_ip_route.hpp:99-129 | IPv4 addresses meet every law asked of the address library |
| Ipv4Routes.Ipv4RoundTripExactly | linux_ip_route.hpp:79-160 | for IPv4 routes the exact round-trip condition rests on no assumption |
| Ipv4Routes.DefaultRoute | linux_ip_route.hpp:23-28 | the default route on eth0 is printed as `default dev eth0` and read back |

## Left out

- Kernel I/O of the real tun device (`tun_alloc`, `tun_read`, `tun_write`, `select`, `fcntl`) and `startOnTun`; such actions are arbitrary values within the assumptions above.
- Thread creation and joining, `tunFd` and the mtu checks of `start`; the steps `Start`, `Stop` and `EchoLoop` of the gateway model only the `running` flag and the echo loop's test of it.
- The receive loop's test of `running` (tuna_server.hpp:62-78): the gateway's receive thread may call `pop` at any time, so its runs include those in which the loop ends with `running`.
- `start` while an earlier echo thread is still running after `stop` has returned: `join` excludes it, and the model takes that as given.
- The websocket library, SSL, argument handling, logging and `main`.
- The connection map, the statistics thread and JSON messages; `OnMessage` is for a connection that has a device.
- The lifetime of the C++ string behind `action` in `processJson`; the model takes its value.
- `AppleIpRoute`, which has no settled meaning: it pushes a default record for every header line.
- `IfAddrs`, `Message` and the `add`, `del` and `command` strings: straight mappings over JSON and text.
- The insides of Boost's ring and tokenizer and of the address library; IPv6 addresses.
- Weak memory, several producers on one queue, counter overflow and wall-clock time.
- `getBlockTimeval`, which only serves the real tun device.
- PacketQueues.PacketQueue.Push: calls are not interleaved here, and an action is a function from the slot's bytes to its new bytes and its result; interference is in `QueueProtocol`.
- PacketQueues.PacketQueue.Pop: how often the wait is woken without a packet is a parameter, and an action is a function of the packet's bytes.
- TunDevices.TunDevice.AsJson: without the constant type tag and the interface addresses; the formatted local time is a parameter.
- GatewayTheorems.EchoEndToEnd: message handlers of one connection run one after another, so that `toTun` has one producer.
