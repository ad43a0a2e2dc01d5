# BadVPN packet core, modelled and proved in Dafny

BadVPN's client is event driven: packets are cut up and put together again, queued fairly, routed to peers directly or
through a relay, and steered by what the client learns from the frames it sees. This project models the parts of it
where correctness depends on many handlers at once, and proves what holds in every run.

- **Fragmentation and reassembly** (`FragmentWire`, `Disassembler`, `DisassemblerRuns`, `InOrderLog`, `IntervalCover`,
  `PacketTiming`, `Assembler`, `Reassembly`, `FrameHistory`, `IdReuse`, `CancelRuns`, `CancelTrap`,
  `ReorderedDelivery`, `AnyOrder`, and the objects `DisassemblerObject`, `AssemblerObject`): frames are cut into chunks
  and rebuilt under loss and reordering in a bounded pool with a 32-bit packet clock.
- **Fair scheduling on a job stack** (`FairQueue`, `FairQueueRuns`, `FairQueueClamp`, `JobStack`, `SendCredit`,
  `PacketInterface`, `FairQueueObject`): virtual time with deliberate 64-bit wrap-around, compared with unbounded time;
  fairness, no starvation, and the order of jobs that fairness rests on; one done for every send, with cancelling.
- **Flows, links and relays** (`DataProto`, `DataProtoObject`, `RelayPeers`, `RelayEffects`, `ClientObject`): buffers
  that move between sinks while a packet is in flight, relay assignment, safe teardown of links.
- **Negotiation** (`Negotiation`, `NegotiationObject`): how two peers agree on an offer or fall back to a relay.
- **Frame decider** (`RecentSlots`, `MacCache`, `GroupIndex`, `GroupTable`, `GroupDelivery`, `GroupRuns`,
  `FrameDeciderObject`, `Routing`): the MAC cache with its recency lists and the multicast index with elected masters,
  refining simple models, and where frames go.
- **bproto** (`BProto`, `BProtoLayout`, `BProtoObject`): the generated writers and parsers, for every schema at once.
- **DHCP lease machine** (`DhcpOptions`, `DhcpLease`, `DhcpReplies`, `DhcpObject`): options, states and timers.

Each operation has a specification as a function on values; theorems about runs are about these functions. Where the
source updates fields in place, a class does the same step by step, and its methods are proved to compute the
specification. Linked lists are sequences, trees are maps, timers are due times, jobs are a sequence with the top first.
Time, random numbers, port availability and the order of events are parameters.

Three findings about the source itself:

- A cancel in mid-frame leaves the frame id unchanged, so the next frame shares its id with half of the cancelled one.
  Without a chunk limit, which is how the client uses it, this is harmless exactly if the part sent is not a whole number
  of packet capacities (`CancelTrap.CancelIsSafeIff`); otherwise the receiver can be made to emit the beginning of one
  frame with the end of any longer one sent next (`CancelTrap.OnGridCancelMixesFrames`).
- Clamping idle flows at zero changes who is served: `FairQueueClamp.IdleSendAgreesIff` says exactly when the 64-bit queue
  goes on to send the same flows as one with unbounded time after an idle moment, `FairQueueClamp.ClampBreaksAgreement`
  gives a run after which they send different ones.
- In `DataProtoFlow_Free` and `DataProtoFlow_Attach`, the branches for a buffer held by a sink that is not sending from
  it, while the flow wants no sink, are never taken (`DataProtoObject.HeldIsBusy`).

## Model

| member | source | states |
|---|---|---|
| `FragmentWire.ParseEncodedChunks` | app/src/main/cpp/badvpn/protocol/fragmentproto.h:55-80 | parsing a packet of encoded chunks gives back exactly those chunks |
| `FragmentWire.ParseChunks` | app/src/main/cpp/badvpn/client/FragmentProtoAssembler.c:285-324 | whatever is parsed from any bytes has 16-bit fields and payloads of the stated length |
| `FragmentWire.ChunkLayout` | app/src/main/cpp/badvpn/protocol/fragmentproto.h:55-80 | the bytes of a chunk one by one: frame id, start and length with the low byte first, the mark, the payload |
| `FragmentWire.ParsedChunkIsEncoded` | app/src/main/cpp/badvpn/client/FragmentProtoAssembler.c:285-324 | whatever is read from any bytes is how that chunk is written, so an unknown mark or a length beyond the packet is malformed |
| `DisassemblerObject.FragmentProtoDisassembler.constructor` | app/src/main/cpp/badvpn/client/FragmentProtoDisassembler.c:164-199 | starts with no frame, no output buffer and frame id 0 |
| `DisassemblerObject.FragmentProtoDisassembler.WriteChunks` | app/src/main/cpp/badvpn/client/FragmentProtoDisassembler.c:39-102 | the loop writes the next chunks of the frame into the output packet as the write_chunks specification does, with the 16-bit id bump and the finished packet |
| `DisassemblerObject.FragmentProtoDisassembler.InputSend` | app/src/main/cpp/badvpn/client/FragmentProtoDisassembler.c:104-120 | a new frame is taken and cut into the packet at hand, if there is one |
| `DisassemblerObject.FragmentProtoDisassembler.RequestCancel` | app/src/main/cpp/badvpn/client/FragmentProtoDisassembler.c:122-132 | the frame is dropped and its id is kept, even if a part of it was sent |
| `DisassemblerObject.FragmentProtoDisassembler.OutputRecv` | app/src/main/cpp/badvpn/client/FragmentProtoDisassembler.c:134-149 | a new output buffer is filled from the frame in progress |
| `DisassemblerObject.FragmentProtoDisassembler.TimerHandler` | app/src/main/cpp/badvpn/client/FragmentProtoDisassembler.c:151-162 | a packet that waited for the latency is handed out as it is |
| `PacketTiming.WhenPacketsLeave` | app/src/main/cpp/badvpn/client/FragmentProtoDisassembler.c:39-162 | in every run: with a latency of 0 or more what is written leaves at once exactly if it fills the packet and otherwise waits, with what was there, for the timer; with a negative latency it leaves at once; nothing else hands out a packet |
| `PacketTiming.CutIsGreedy` | app/src/main/cpp/badvpn/client/FragmentProtoDisassembler.c:50-82 | each chunk is as long as the frame, the room in the packet and the chunk limit allow, until the frame or the room ends |
| `PacketTiming.EveryPacketFits` | app/src/main/cpp/badvpn/client/FragmentProtoDisassembler.c:39-162 | in every run every packet is within the output MTU and no chunk above the chunk limit |
| `PacketTiming.FramesShareAPacket` | app/src/main/cpp/badvpn/client/FragmentProtoDisassembler.c:84-120 | frames sent into an empty buffer that has room for all of them leave together in one packet, whole and in order |
| `DisassemblerRuns.AdvanceConsistent` | app/src/main/cpp/badvpn/client/FragmentProtoDisassembler.c:39-162 | every event keeps the state consistent: input position inside the frame, packet within the output MTU |
| `DisassemblerRuns.LogIsInputInOrder` | app/src/main/cpp/badvpn/client/FragmentProtoDisassembler.c:39-162 | in every run without a mid-frame cancel, the chunks sent, read in order, reassemble to exactly the frames put in; frame k carries the id k modulo 65536, for runs of any length |
| `DisassemblerRuns.ChunksAreGenuine` | app/src/main/cpp/badvpn/client/FragmentProtoDisassembler.c:39-102 | in every run of at most 65536 contributing frames, each chunk is a true piece of the one frame its id names, and says truly whether it is the last |
| `DisassemblerRuns.ChunkCountBound` | app/src/main/cpp/badvpn/protocol/fragmentproto.h:82-98 | without a chunk limit each frame of n bytes takes at most ceil(n / (mtu - header)) + 1 chunks, in any run, and so none more than fragmentproto_max_chunks_for_frame |
| `IntervalCover.DisjointCover` | app/src/main/cpp/badvpn/client/FragmentProtoAssembler.c:197-268 | disjoint chunks inside [0, length) add up to at most the length, and if they add up to it each byte is in exactly one of them |
| `Assembler.SumWithinLength` | app/src/main/cpp/badvpn/client/FragmentProtoAssembler.c:195-268 | the number of bytes held never exceeds a known length: the assertions of process_chunk hold for any input |
| `Assembler.FindFrame` | app/src/main/cpp/badvpn/client/FragmentProtoAssembler.c:179-193 | looks a frame up by id and allocates one if there is none; pool and tree invariant kept |
| `FrameHistory.StaleStartsAfresh` | app/src/main/cpp/badvpn/client/FragmentProtoAssembler.c:179-193 | a chunk of a frame that is unknown or was not touched for more packets than the pool has entries emits its own payload if it is a whole frame, and nothing otherwise |
| `Assembler.StoreChunk` | app/src/main/cpp/badvpn/client/FragmentProtoAssembler.c:195-283 | any chunk, hostile or not, leaves the pool well-formed: free and used lists partition it, the tree holds exactly the used frames |
| `Assembler.ReduceTimesKeepsAges` | app/src/main/cpp/badvpn/client/FragmentProtoAssembler.c:110-152 | renormalising drops exactly the timed-out frames, keeps the age and content of every other, and leaves the clock below its maximum |
| `Assembler.TickAges` | app/src/main/cpp/badvpn/client/FragmentProtoAssembler.c:326-339 | one packet makes every surviving frame exactly one older, also when the 32-bit clock is renormalised |
| `Assembler.Receive` | app/src/main/cpp/badvpn/client/FragmentProtoAssembler.c:285-368 | receiving any packets at all keeps the assembler well-formed |
| `Assembler.InitialWf` | app/src/main/cpp/badvpn/client/FragmentProtoAssembler.c:370-432 | a fresh assembler is well-formed |
| `AssemblerObject.FragmentProtoAssembler.constructor` | app/src/main/cpp/badvpn/client/FragmentProtoAssembler.c:370-432 | all frames are on the free list |
| `AssemblerObject.FragmentProtoAssembler.FreeFrame` | app/src/main/cpp/badvpn/client/FragmentProtoAssembler.c:46-55 | the frame is in the free list and its id out of the tree, and free and used lists still partition the pool with the tree holding exactly the used frames |
| `AssemblerObject.FragmentProtoAssembler.AllocateNewFrame` | app/src/main/cpp/badvpn/client/FragmentProtoAssembler.c:57-103 | a free frame, or the oldest used one, is set up for the id and put in the tree |
| `AssemblerObject.FragmentProtoAssembler.PurgeTimedOut` | app/src/main/cpp/badvpn/client/FragmentProtoAssembler.c:119-134 | the first loop of reduce_times frees exactly the timed-out frames |
| `AssemblerObject.FragmentProtoAssembler.SubtractFromAll` | app/src/main/cpp/badvpn/client/FragmentProtoAssembler.c:142-151 | the second loop subtracts the amount from the time of every used frame and of no other |
| `AssemblerObject.FragmentProtoAssembler.ReduceTimes` | app/src/main/cpp/badvpn/client/FragmentProtoAssembler.c:117-152 | both loops together compute the specified renormalisation |
| `AssemblerObject.FragmentProtoAssembler.AdvanceClock` | app/src/main/cpp/badvpn/client/FragmentProtoAssembler.c:326-339 | the packet clock moves on, after renormalising at its maximum |
| `AssemblerObject.OverlapsAny` | app/src/main/cpp/badvpn/client/FragmentProtoAssembler.c:197-204 | true exactly if the new chunk overlaps one of those held |
| `AssemblerObject.FragmentProtoAssembler.ProcessChunk` | app/src/main/cpp/badvpn/client/FragmentProtoAssembler.c:154-193 | finds or allocates the frame and stores the chunk, as specified |
| `AssemblerObject.FragmentProtoAssembler.StoreChunk` | app/src/main/cpp/badvpn/client/FragmentProtoAssembler.c:195-283 | accepts, rejects or completes as specified, including the frame handed out |
| `AssemblerObject.FragmentProtoAssembler.ProcessInput` | app/src/main/cpp/badvpn/client/FragmentProtoAssembler.c:285-346 | the loop over a packet stops at a complete frame and goes on where it stopped |
| `AssemblerObject.FragmentProtoAssembler.InputSend` | app/src/main/cpp/badvpn/client/FragmentProtoAssembler.c:348-360 | a packet is accepted only when the last one is used up |
| `AssemblerObject.FragmentProtoAssembler.OutputDone` | app/src/main/cpp/badvpn/client/FragmentProtoAssembler.c:362-368 | processing resumes after a frame was passed on |
| `AssemblerObject.FragmentProtoAssembler.ReceivePacket` | app/src/main/cpp/badvpn/client/FragmentProtoAssembler.c:285-368 | a packet together with the done reports it causes emits exactly the frames the specification gives |
| `Reassembly.ReassemblySafety` | app/src/main/cpp/badvpn/client/FragmentProtoAssembler.c:154-346 | for packets of one disassembler, at most 65536 frames, no mid-frame cancel: under any loss, repetition and reordering every frame emitted is byte for byte one of the frames put in |
| `FrameHistory.EmittedFromLatest` | app/src/main/cpp/badvpn/client/FragmentProtoAssembler.c:154-346 | whatever arrives, an emitted frame is made of exactly the latest chunks that arrived under one id, each at most as many packets after the one before as the pool has entries, so that a rejected or stale frame contributes nothing |
| `IdReuse.SafeWhenFarApart` | app/src/main/cpp/badvpn/client/FragmentProtoAssembler.c:154-346 | for any number of frames: if chunks of different frames under one id are more packets apart than the pool has entries, only frames put in are emitted |
| `IdReuse.SafetyBeyondWrap` | app/src/main/cpp/badvpn/client/FragmentProtoAssembler.c:154-346 | reassembly safety without a bound on the number of frames: any loss, repetition and reordering is safe as long as packets that arrive within the tolerance are of frames fewer than 65536 apart |
| `Reassembly.LosslessRoundTrip` | app/src/main/cpp/badvpn/client/FragmentProtoDisassembler.c:39-162 | packets delivered in order yield exactly the input frames in order, for every interleaving and through id wrap-around |
| `Reassembly.PeerRoundTrip` | app/src/main/cpp/badvpn/client/DatagramPeerIO.c:197-226 | the same with the table size that DatagramPeerIO computes, with no assumption left about chunk counts |
| `CancelRuns.ChunksAreSound` | app/src/main/cpp/badvpn/client/FragmentProtoDisassembler.c:39-132 | in every run whose cancels are all off the grid of packet capacities, each chunk is a true piece of its frame or a stray that ends off the grid, and frames that share an id with strays stay on it |
| `Reassembly.SafetyDespiteCancels` | app/src/main/cpp/badvpn/client/FragmentProtoDisassembler.c:122-132 | without a chunk limit, every frame emitted is one of the frames put in even if partly sent frames are withdrawn, as long as what was sent of each is not a whole number of packet capacities |
| `CancelTrap.OnGridCancelMixesFrames` | app/src/main/cpp/badvpn/client/FragmentProtoDisassembler.c:122-132 | after any run, withdrawing a frame f when a whole number n of bytes on the grid was sent, and sending any longer frame g, some of the packets make the assembler emit f[..n] + g[n..] |
| `CancelTrap.MidFrameCancelMixesFrames` | app/src/main/cpp/badvpn/client/FragmentProtoDisassembler.c:122-132 | the instance for a first frame f and any g, both longer than one packet |
| `CancelTrap.CancelIsSafeIff` | app/src/main/cpp/badvpn/client/FragmentProtoDisassembler.c:122-132 | after any run with harmless cancels, a cancel leaves the receiver safe hereafter if and only if what was sent of the frame is nothing or not a whole number of packet capacities |
| `ReorderedDelivery.FrameGetsThrough` | app/src/main/cpp/badvpn/client/FragmentProtoAssembler.c:70-283 | all pieces of a frame, each once, in any order, mixed with any other chunks: if there are no more packets than the time tolerance and fewer other ids than frames in the pool, the frame is emitted |
| `AnyOrder.AnyOrderDelivery` | app/src/main/cpp/badvpn/client/FragmentProtoAssembler.c:70-346 | the same for the packets of a disassembler run: each chunk of the frame arriving once, in any order, is enough |
| `FairQueue.IncrementExact` | app/src/main/cpp/badvpn/flow/PacketPassFairQueue.c:79-116 | the wrapping 64-bit arithmetic gives exactly time + amount - subtrahend, within range; every queued flow loses exactly the subtrahend, only idle flows are clamped at 0 |
| `FairQueue.RenormalisesFully` | app/src/main/cpp/badvpn/flow/PacketPassFairQueue.c:79-116 | no time but the charged one changes unless it would overflow; if it would, the first queued flow comes down to 0 |
| `FairQueue.DoneEffect` | app/src/main/cpp/badvpn/flow/PacketPassFairQueue.c:182-217 | the time of every flow after a packet is done |
| `FairQueue.SendInv` | app/src/main/cpp/badvpn/flow/PacketPassFairQueue.c:153-180 | queueing a packet keeps the queue sorted, within range, and the sender's time least |
| `FairQueue.DoneInv` | app/src/main/cpp/badvpn/flow/PacketPassFairQueue.c:182-205 | finishing a packet keeps the invariant through an overflow |
| `FairQueueRuns.TwinStep` | app/src/main/cpp/badvpn/flow/PacketPassFairQueue.c:52-205 | one step of the 64-bit queue and of a queue with unbounded time keep them equal up to a common offset |
| `FairQueueRuns.BoundedAgrees` | app/src/main/cpp/badvpn/flow/PacketPassFairQueue.c:52-205 | over a whole busy period both queues make the same choices |
| `FairQueueRuns.OneBusyPeriod` | app/src/main/cpp/badvpn/flow/PacketPassFairQueue.c:52-205 | a queue and its own unbounded copy make the same choices from any state, idle or not, over any number of busy periods up to the first overflow, and to the end of the busy period it falls into |
| `FairQueueClamp.IdleSendAgreesIff` | app/src/main/cpp/badvpn/flow/PacketPassFairQueue.c:103-180 | after an idle moment the queues send the same flows in every continuation of the busy period if and only if the flow that ends the idle moment was not clamped or no flow has more unbounded time |
| `FairQueueClamp.Diverge` | app/src/main/cpp/badvpn/flow/PacketPassFairQueue.c:118-205 | from different leads of one flow over another, serving both leads to a moment where the two queues choose differently |
| `FairQueueClamp.ClampBreaksAgreement` | app/src/main/cpp/badvpn/flow/PacketPassFairQueue.c:103-110 | a run after which the 64-bit queue is sending flow 3 and the unbounded one flow 2 |
| `FairQueueRuns.LeadIsService` | app/src/main/cpp/badvpn/flow/PacketPassFairQueue.c:79-137 | the difference in service of two backlogged flows is the change of their time difference |
| `FairQueueRuns.FairnessBound` | app/src/main/cpp/badvpn/flow/PacketPassFairQueue.c:79-205 | two flows that stay backlogged keep within one maximum packet cost, so their service differs by at most two, forever |
| `FairQueueRuns.PotentialStep` | app/src/main/cpp/badvpn/flow/PacketPassFairQueue.c:79-180 | every packet served before a queued flow lowers the potential, raising and renormalising never raise it |
| `FairQueueRuns.JoinsAtLeast` | app/src/main/cpp/badvpn/flow/PacketPassFairQueue.c:52-77 | a flow that joins is brought up to the least time of the active flows and no further |
| `FairQueueRuns.ChargedForItsPacket` | app/src/main/cpp/badvpn/flow/PacketPassFairQueue.c:118-137 | in every run the length a flow is charged for is that of the packet it handed in last |
| `FairQueueRuns.NoStarvation` | app/src/main/cpp/badvpn/flow/PacketPassFairQueue.c:79-180 | while a flow waits, at most its potential many packets are sent |
| `FairQueueObject.PacketPassFairQueue.constructor` | app/src/main/cpp/badvpn/flow/PacketPassFairQueue.c:219-266 | an empty queue that satisfies the invariant |
| `FairQueueObject.PacketPassFairQueue.GetCurrentTime` | app/src/main/cpp/badvpn/flow/PacketPassFairQueue.c:52-77 | the time a flow that joins is raised to |
| `FairQueueObject.PacketPassFairQueue.SubtractFromAll` | app/src/main/cpp/badvpn/flow/PacketPassFairQueue.c:103-110 | the loop subtracts from every flow, clamping at 0 |
| `FairQueueObject.PacketPassFairQueue.IncrementSentFlow` | app/src/main/cpp/badvpn/flow/PacketPassFairQueue.c:79-116 | the state after the specified renormalising increment |
| `FairQueueObject.PacketPassFairQueue.Schedule` | app/src/main/cpp/badvpn/flow/PacketPassFairQueue.c:118-137 | the flow that starts sending comes before every other queued one, by time and then address, and the invariant of the queue holds again |
| `FairQueueObject.PacketPassFairQueue.ScheduleJobHandler` | app/src/main/cpp/badvpn/flow/PacketPassFairQueue.c:139-151 | the previous flow is forgotten and a flow is scheduled if one is queued |
| `FairQueueObject.PacketPassFairQueue.InputHandlerSend` | app/src/main/cpp/badvpn/flow/PacketPassFairQueue.c:153-180 | the flow is raised to the current time unless it was served last, and queued in order |
| `FairQueueObject.PacketPassFairQueue.OutputHandlerDone` | app/src/main/cpp/badvpn/flow/PacketPassFairQueue.c:182-217 | the sender is charged and remembered as the previous flow; its busy handler, if set, is unset and called |
| `FairQueueObject.PacketPassFairQueue.SetBusyHandler` | app/src/main/cpp/badvpn/flow/PacketPassFairQueue.c:386-398 | only the flow being sent has a handler |
| `FairQueueObject.PacketPassFairQueue.PrepareFree` | app/src/main/cpp/badvpn/flow/PacketPassFairQueue.c:281-287 | nothing changes but that flows may go in any order from now on |
| `FairQueueObject.PacketPassFairQueue.AllFlowsFreed` | app/src/main/cpp/badvpn/flow/PacketPassFairQueue.c:268-279 | when all flows are freed, in shutdown mode or not, nothing is queued, sending or previous: the assertions of PacketPassFairQueue_Free |
| `FairQueueObject.PacketPassFairQueue.FlowInit` | app/src/main/cpp/badvpn/flow/PacketPassFairQueue.c:296-321 | a new flow starts at time 0 |
| `FairQueueObject.PacketPassFairQueue.FlowFree` | app/src/main/cpp/badvpn/flow/PacketPassFairQueue.c:323-351 | the flow is forgotten everywhere; the one being sent only in shutdown mode, and otherwise the invariant of the queue holds again |
| `JobStack.BPendingGroup.Set` | app/src/main/cpp/badvpn/base/BPending.c:137-154 | the job goes on top of the stack, once |
| `JobStack.BPendingGroup.Unset` | app/src/main/cpp/badvpn/base/BPending.c:156-171 | the job leaves the stack, the others keep their order |
| `JobStack.BPendingGroup.TakeJob` | app/src/main/cpp/badvpn/base/BPending.c:66-88 | the top job is taken off before it runs |
| `JobStack.LastInFirstOut` | app/src/main/cpp/badvpn/base/BPending.c:66-88 | a job set and left alone runs exactly when every job set later, transitively, has run or been unset |
| `SendCredit.SendersKeepTheirCredit` | app/src/main/cpp/badvpn/flow/PacketPassFairQueue.c:139-205 | in every run, a source that sends again from its done handler is queued with its time not raised before the schedule job runs, while flows are created and freed, unless it is freed itself |
| `SendCredit.StepInv` | app/src/main/cpp/badvpn/flow/PacketPassFairQueue.c:139-205 | every job and every call, creating and freeing flows included, keeps interfaces, job stack and queue in step, and the credit of the flow served last |
| `SendCredit.NoJobRunsTooEarly` | app/src/main/cpp/badvpn/flow/PacketPassInterface.c:32-68 | in every run no job finds a state its assertions forbid |
| `PacketInterface.OneDonePerSend` | app/src/main/cpp/badvpn/flow/PacketPassInterface.h:149-227 | in every run with cancelling, each packet sent gets exactly one done, and the sender is idle exactly when all have had theirs |
| `PacketInterface.CancelIsHeard` | app/src/main/cpp/badvpn/flow/PacketPassInterface.h:200-226 | in every run the cancel handler is called, or its call is pending, while the provider has a packet whose sender asked for it, and only then |
| `PacketInterface.OrderlyBalance` | app/src/main/cpp/badvpn/flow/PacketPassInterface.h:149-227 | orderly exchanges balance sends against dones |
| `PacketInterface.StepInv` | app/src/main/cpp/badvpn/flow/PacketPassInterface.h:149-227 | calls, jobs and state keep in step |
| `PacketInterface.PacketPassInterface.SenderSend` | app/src/main/cpp/badvpn/flow/PacketPassInterface.h:181-198 | the operation job is set and the cancel flag cleared |
| `PacketInterface.PacketPassInterface.Done` | app/src/main/cpp/badvpn/flow/PacketPassInterface.h:149-162 | a pending cancel job is unset and done is scheduled |
| `PacketInterface.PacketPassInterface.SenderRequestCancel` | app/src/main/cpp/badvpn/flow/PacketPassInterface.h:200-227 | a pending operation turns into a done, a busy one gets a cancel job, a second request does nothing |
| `PacketInterface.PacketPassInterface.ExecuteJob` | app/src/main/cpp/badvpn/flow/PacketPassInterface.c:32-68 | the job bodies find the state they assert, and call the right handler |
| `DataProto.BufferLifecycle` | app/src/main/cpp/badvpn/client/DataProto.c:127-225 | in every run: a wanted sink has the buffer or the one detaching buffer's sink has it; detaching implies busy; an orphan buffer is being detached; each buffer is freed exactly once |
| `DataProto.Run` | app/src/main/cpp/badvpn/client/DataProto.c:127-566 | after every run the invariant of flows, sinks and buffers holds |
| `DataProto.HandleInv` | app/src/main/cpp/badvpn/client/DataProto.c:146-566 | every operation keeps the invariant of flows, sinks and buffers |
| `DataProto.SinkFreeInv` | app/src/main/cpp/badvpn/client/DataProto.c:297-337 | freeing a sink nobody wants lets go of the buffer it was sending from |
| `DataProto.VisibleEffect` | app/src/main/cpp/badvpn/client/DataProto.c:458-566 | what each operation changes of wishes and sinks, and that nothing else changes |
| `DataProto.SendingEffect` | app/src/main/cpp/badvpn/client/DataProto.c:168-225 | a sink is sending from when its queue begins until its queue is done, whatever happens to flows meanwhile |
| `DataProtoObject.DataProtoSystem.BufferFree` | app/src/main/cpp/badvpn/client/DataProto.c:127-144 | a buffer no sink holds is freed; it was not freed before, and every buffer allocated is still either live or freed once |
| `DataProtoObject.DataProtoSystem.BufferAttach` | app/src/main/cpp/badvpn/client/DataProto.c:146-158 | a buffer no sink holds is held by the sink afterwards, and no other buffer moves |
| `DataProtoObject.DataProtoSystem.BufferDetach` | app/src/main/cpp/badvpn/client/DataProto.c:160-178 | the buffer is let go; its queue flow may be busy only if the sink is going away |
| `DataProtoObject.DataProtoSystem.ScheduleDetach` | app/src/main/cpp/badvpn/client/DataProto.c:180-198 | the buffer becomes the one detaching buffer of its sink |
| `DataProtoObject.DataProtoSystem.FinishDetach` | app/src/main/cpp/badvpn/client/DataProto.c:200-216 | the detaching buffer of the sink is freed, or moves on to the sink its flow wants now; no buffer is freed twice |
| `DataProtoObject.DataProtoSystem.QueueDone` | app/src/main/cpp/badvpn/client/DataProto.c:218-225 | when the queue flow is no longer busy, the detach is finished |
| `DataProtoObject.DataProtoSystem.SinkInit` | app/src/main/cpp/badvpn/client/DataProto.c:227-295 | a fresh sink without buffers |
| `DataProtoObject.DataProtoSystem.SinkFree` | app/src/main/cpp/badvpn/client/DataProto.c:297-337 | the detaching buffer is let go, then the sink is gone |
| `DataProtoObject.DataProtoSystem.FlowFree` | app/src/main/cpp/badvpn/client/DataProto.c:458-484 | the buffer is freed, or left to its sink if that is sending from it |
| `DataProtoObject.DataProtoSystem.FlowAttach` | app/src/main/cpp/badvpn/client/DataProto.c:516-543 | the flow wants the sink; its buffer is attached unless an older sink still holds it |
| `DataProtoObject.DataProtoSystem.FlowDetach` | app/src/main/cpp/badvpn/client/DataProto.c:545-566 | the flow wants no sink; its buffer is let go or scheduled for it |
| `DataProtoObject.HeldIsBusy` | app/src/main/cpp/badvpn/client/DataProto.c:458-543 | a flow without a wish has its buffer held only by a sink that is sending: the other branches in the source are never taken |
| `DataProtoObject.DetachingIsBusy` | app/src/main/cpp/badvpn/client/DataProto.c:180-198 | the assertion that a sink has no second detaching buffer |
| `RelayPeers.RelayAssignment` | app/src/main/cpp/badvpn/client/client.c:1729-1898 | after every handler of every run: at most one of linked, relaying, waiting; relays are linked; user lists are exactly the peers relaying; nobody waits while there is a relay |
| `RelayPeers.Run` | app/src/main/cpp/badvpn/client/client.c:1729-1898 | after every run the relay invariant holds and nobody waits while there is a relay |
| `RelayPeers.HandleInv` | app/src/main/cpp/badvpn/client/client.c:1729-1898 | every handler keeps the relay invariant and leaves it settled |
| `RelayPeers.AssignRelays` | app/src/main/cpp/badvpn/client/client.c:2684-2709 | ends with no one waiting or no relay |
| `RelayPeers.DisableRelay` | app/src/main/cpp/badvpn/client/client.c:1771-1800 | the users of a relay are moved on before it stops being one |
| `RelayPeers.NeedRelay` | app/src/main/cpp/badvpn/client/client.c:1847-1868 | keeps the invariant; afterwards the state is settled if it was |
| `RelayPeers.Cleanup` | app/src/main/cpp/badvpn/client/client.c:1729-1748 | afterwards the peer is neither linked, relaying nor waiting |
| `RelayEffects.HandleEffect` | app/src/main/cpp/badvpn/client/client.c:1729-1898 | each handler gives its own peer the standing it should have (linked, relay, in need of a relay, detached) and changes the standing of no other peer |
| `RelayEffects.NeedyAreServed` | app/src/main/cpp/badvpn/client/client.c:2684-2709 | in every run a peer in need of a relay has one as soon as there is any |
| `RelayEffects.AssignEffect` | app/src/main/cpp/badvpn/client/client.c:2684-2709 | all who wait go to the first relay, in the order of waiting, and nobody else changes |
| `RelayEffects.RelaysInOrder` | app/src/main/cpp/badvpn/client/client.c:1750-1800 | relays are listed in the order they became relays, so the first is the oldest |
| `RelayEffects.NeedIsLast` | app/src/main/cpp/badvpn/client/client.c:1847-1883 | a peer that comes to need a relay is the last in line |
| `RelayEffects.DisableMoves` | app/src/main/cpp/badvpn/client/client.c:1771-1800 | the users of a relay that stops line up behind those waiting, in order, for the first relay left |
| `ClientObject.DesiredSinksAreLive` | app/src/main/cpp/badvpn/client/client.c:1695-1748 | in every state of the client every sink a flow wants is live |
| `ClientObject.WishIsLive` | app/src/main/cpp/badvpn/client/client.c:1802-1822 | the sink a peer's state calls for belongs to a linked peer |
| `ClientObject.OnlyOwnFlows` | app/src/main/cpp/badvpn/client/client.c:1695-1727 | only its own flow and the relay flows to it want the link of a peer that is no relay |
| `ClientObject.Client.FreeLink` | app/src/main/cpp/badvpn/client/client.c:1695-1727 | the link is freed when nothing wants its sink any more, and no buffer is left on it |
| `ClientObject.Client.CloseSink` | app/src/main/cpp/badvpn/client/client.c:1695-1727 | every flow following the peer lets go, no other wish changes, then the sink is freed |
| `ClientObject.Client.InitLink` | app/src/main/cpp/badvpn/client/client.c:1606-1693 | the sink is opened and the flows following the peer are attached |
| `ClientObject.Client.CleanupConnections` | app/src/main/cpp/badvpn/client/client.c:1729-1748 | link, relaying or waiting is ended, as specified |
| `ClientObject.Client.EnableRelayProvider` | app/src/main/cpp/badvpn/client/client.c:1750-1769 | the peer becomes a relay and waiting peers are assigned |
| `ClientObject.Client.DisableRelayProvider` | app/src/main/cpp/badvpn/client/client.c:1771-1800 | the loop moves every user on |
| `ClientObject.Client.InstallRelaying` | app/src/main/cpp/badvpn/client/client.c:1802-1822 | the peer's flow is attached to the relay's sink |
| `ClientObject.Client.FreeRelaying` | app/src/main/cpp/badvpn/client/client.c:1824-1845 | the peer's flow lets go of the relay's sink |
| `ClientObject.Client.NeedRelay` | app/src/main/cpp/badvpn/client/client.c:1847-1868 | the peer ends up waiting or relaying |
| `ClientObject.Client.RegisterNeedRelay` | app/src/main/cpp/badvpn/client/client.c:1870-1883 | the peer joins the end of the waiting list |
| `ClientObject.Client.UnregisterNeedRelay` | app/src/main/cpp/badvpn/client/client.c:1885-1898 | the peer leaves the waiting list |
| `ClientObject.Client.AssignRelays` | app/src/main/cpp/badvpn/client/client.c:2684-2709 | the loop computes the specified assignment |
| `ClientObject.Client.FreshLink` | app/src/main/cpp/badvpn/client/client.c:2348-2355 | cleanup and a new link |
| `ClientObject.Client.LinkUp` | app/src/main/cpp/badvpn/client/client.c:2626-2636 | a peer able to relay becomes a relay |
| `ClientObject.Client.LinkDown` | app/src/main/cpp/badvpn/client/client.c:2637-2645 | a relay stops being one |
| `ClientObject.Client.AddPeer` | app/src/main/cpp/badvpn/client/client.c:1324-1507 | a new peer has no connection |
| `ClientObject.Client.RemovePeer` | app/src/main/cpp/badvpn/client/client.c:1509-1568 | connections and relay flows of the peer are freed first |
| `ClientObject.Client.CreateRelayFlow` | app/src/main/cpp/badvpn/client/DPRelay.c:42-82 | the flow is on the lists of both peers and attached if the destination is linked |
| `ClientObject.Client.FreeRelayFlow` | app/src/main/cpp/badvpn/client/DPRelay.c:84-107 | the flow is off both lists and freed |
| `ClientObject.Client.FreeRelayFlowsOf` | app/src/main/cpp/badvpn/client/DPRelay.c:238-276 | all relay flows from and to the peer are freed |
| `ClientObject.Client.SubmitFrame` | app/src/main/cpp/badvpn/client/DPRelay.c:186-221 | a frame finds its flow or makes one |
| `ClientObject.Client.RelaySinkAttach` | app/src/main/cpp/badvpn/client/DPRelay.c:278-292 | the loop attaches every flow to the destination |
| `ClientObject.Client.QueueSends` | app/src/main/cpp/badvpn/flow/PacketPassFairQueue.c:118-137 | a packet that starts between two handlers leaves the client's invariant intact |
| `ClientObject.Client.QueueDone` | app/src/main/cpp/badvpn/client/DataProto.c:218-225 | so does the end of a packet, when a buffer to be let go moves on to the sink its flow wants or is freed |
| `ClientObject.Client.RelaySinkDetach` | app/src/main/cpp/badvpn/client/DPRelay.c:294-307 | the loop detaches every flow to the destination |
| `Negotiation.BindOutcome` | app/src/main/cpp/badvpn/client/client.c:2301-2340 | binding goes on to the next address that can be offered, skipping none that could be bound and agreed on, or ends |
| `Negotiation.StartsAtTheFirst` | app/src/main/cpp/badvpn/client/client.c:2293-2340 | whatever went before, binding offers the first address that has a scope and a free port, and reports failure exactly if there is none |
| `Negotiation.OutOfTurn` | app/src/main/cpp/badvpn/client/client.c:2087-2104 | a refusal of an offer that is not out is ignored |
| `Negotiation.OneStep` | app/src/main/cpp/badvpn/client/client.c:2001-2122 | every step leads from one phase of the negotiation to another of lower rank |
| `Negotiation.NegotiationOutcome` | app/src/main/cpp/badvpn/client/client.c:2001-2122 | every negotiation ends within 2(nA + nB) + 3 steps and nA + nB offers; at the end one side is connected to exactly the offer the other has out, or both need a relay and no address bindable throughout was in a scope the other side knows |
| `Negotiation.FreePort` | app/src/main/cpp/badvpn/client/client.c:2361-2374 | the port of the range that can be bound to with all lower ones taken, or none if all are taken |
| `NegotiationObject.PeerSetup.BindOneAddress` | app/src/main/cpp/badvpn/client/client.c:2342-2403 | the port loop binds the first free port and sends its offer |
| `NegotiationObject.PeerSetup.Bind` | app/src/main/cpp/badvpn/client/client.c:2301-2340 | the address loop does what the specification says |
| `NegotiationObject.PeerSetup.StartBinding` | app/src/main/cpp/badvpn/client/client.c:2293-2299 | binding starts from the first address |
| `NegotiationObject.PeerSetup.MsgYouConnect` | app/src/main/cpp/badvpn/client/client.c:2001-2085 | connects if any address is in a known scope, and answers that it cannot otherwise |
| `NegotiationObject.PeerSetup.MsgCannotConnect` | app/src/main/cpp/badvpn/client/client.c:2087-2104 | goes on binding, if it is binding |
| `NegotiationObject.PeerSetup.MsgCannotBind` | app/src/main/cpp/badvpn/client/client.c:2106-2122 | the slave starts binding, the master needs a relay |
| `GroupIndex.GroupMacSig` | app/src/main/cpp/badvpn/client/FrameDecider.c:120-131 | the signature of the MAC of a group (section 6.4 of RFC 1112) is the signature of the group |
| `GroupIndex.AddEntryInv` | app/src/main/cpp/badvpn/client/FrameDecider.c:133-164 | adding an entry keeps one master per signature and the lists exact |
| `GroupIndex.RemoveEntryInv` | app/src/main/cpp/badvpn/client/FrameDecider.c:166-197 | removing an entry, master or not, does too; the mastership passes to a neighbour |
| `GroupIndex.AddEntryMembers` | app/src/main/cpp/badvpn/client/FrameDecider.c:133-164 | the membership relation gains exactly the entry |
| `GroupIndex.RemoveEntryMembers` | app/src/main/cpp/badvpn/client/FrameDecider.c:166-197 | the membership relation loses exactly the entry |
| `GroupIndex.InsertAfterAt` | app/src/main/cpp/badvpn/client/FrameDecider.c:133-164 | a new entry stands right behind the master |
| `GroupIndex.NextOrPrevAt` | app/src/main/cpp/badvpn/client/FrameDecider.c:166-197 | the heir of a master is the entry behind it, or before it if it is the last |
| `GroupIndex.IndexIsMembership` | app/src/main/cpp/badvpn/client/FrameDecider.c:133-197 | the list found under a signature is exactly the entries of that signature, each once |
| `GroupIndex.OneMaster` | app/src/main/cpp/badvpn/client/FrameDecider.c:133-197 | a signature in use has exactly one master, the one in the tree; one not in use has none |
| `GroupTable.RenewOk` | app/src/main/cpp/badvpn/client/FrameDecider.c:199-252 | a group reported again becomes the newest, its end time is set, nothing else changes |
| `GroupTable.TakeFreeOk` | app/src/main/cpp/badvpn/client/FrameDecider.c:210-252 | a new group takes a free entry |
| `GroupTable.RecycleOk` | app/src/main/cpp/badvpn/client/FrameDecider.c:219-252 | with no free entry the group reported longest ago goes |
| `GroupTable.DropOk` | app/src/main/cpp/badvpn/client/FrameDecider.c:254-279 | exactly one membership ends |
| `GroupRuns.MembershipLasts` | app/src/main/cpp/badvpn/client/FrameDecider.c:199-321 | in every run with timers that fire when due, a peer is listed with a group only until an interval after its last report, less if there was a query since, and is listed until then unless it reported max_peer_groups others since |
| `GroupRuns.ListedWhilePromised` | app/src/main/cpp/badvpn/client/FrameDecider.c:199-321 | in every run a peer lists a group only up to the promised time, and lists it before that time unless max_peer_groups others were reported since |
| `GroupTable.LowerOk` | app/src/main/cpp/badvpn/client/FrameDecider.c:281-314 | a query lowers the end time of every membership in the group, of no other, and changes nobody's list |
| `GroupTable.ListedHasEnd` | app/src/main/cpp/badvpn/client/FrameDecider.c:199-252 | a group has an end time exactly while the peer lists it |
| `GroupDelivery.DeliveredPerMembership` | app/src/main/cpp/badvpn/client/FrameDecider.c:481-496 | a frame to the MAC of a group reaches a peer once for each of its groups with that signature |
| `GroupDelivery.MembersAreReached` | app/src/main/cpp/badvpn/client/FrameDecider.c:481-496 | every member of the group is reached |
| `GroupDelivery.QueryLowersGroup` | app/src/main/cpp/badvpn/client/FrameDecider.c:281-314 | lowering the entries found under the signature lowers every membership in the group and no other |
| `MacCache.AddMacOk` | app/src/main/cpp/badvpn/client/FrameDecider.c:69-118 | each way through add_mac_to_peer refines one step of the recency model: the MAC leaves every other peer, is newest at this one, whose oldest goes only if it is full |
| `MacCache.StealOk` | app/src/main/cpp/badvpn/client/FrameDecider.c:79-118 | taking the MAC from another peer is one such step |
| `MacCache.LookupIsOwner` | app/src/main/cpp/badvpn/client/FrameDecider.c:498-509 | the tree finds a MAC exactly if some peer lists it, and finds that peer |
| `MacCache.LeastRecentlySeen` | app/src/main/cpp/badvpn/client/FrameDecider.c:69-118 | in every run a peer lists a MAC only if it was the last to be seen with it, and does unless seen with max_peer_macs others since |
| `MacCache.LookupIsLastSeen` | app/src/main/cpp/badvpn/client/FrameDecider.c:69-118 | the same for the lookup in the tree |
| `MacCache.AddPeerOk` | app/src/main/cpp/badvpn/client/FrameDecider.c:580-593 | a new peer lists nothing and all its entries are free |
| `MacCache.DropPeerOk` | app/src/main/cpp/badvpn/client/FrameDecider.c:650-662 | only the MACs of that peer go |
| `FrameDeciderObject.FrameDecider.constructor` | app/src/main/cpp/badvpn/client/FrameDecider.c:323-351 | no peers, no entries, no decision |
| `FrameDeciderObject.FrameDecider.AddMacToPeer` | app/src/main/cpp/badvpn/client/FrameDecider.c:69-118 | refines the recency model |
| `FrameDeciderObject.FrameDecider.AddToMulticast` | app/src/main/cpp/badvpn/client/FrameDecider.c:133-164 | the index with the entry added; a decision under way visits it too if the master of its signature is still to come |
| `FrameDeciderObject.FrameDecider.RemoveFromMulticast` | app/src/main/cpp/badvpn/client/FrameDecider.c:166-197 | the index without the entry; an iterator at the entry moves on, and what is left to visit loses just that entry |
| `FrameDeciderObject.FrameDecider.AddGroupToPeer` | app/src/main/cpp/badvpn/client/FrameDecider.c:199-252 | refines the membership model; says what is left to visit of a decision under way in each case, recycling included, and that only the reporting peer's share of it can change |
| `FrameDeciderObject.OthersAfterReport` | app/src/main/cpp/badvpn/client/FrameDecider.c:199-252 | destinations to come other than the peer that reports are the same, in the same order |
| `FrameDeciderObject.FrameDecider.RemoveGroupEntry` | app/src/main/cpp/badvpn/client/FrameDecider.c:254-279 | refines the end of a membership; a decision under way loses just that entry |
| `FrameDeciderObject.FrameDecider.LowerGroupTimers` | app/src/main/cpp/badvpn/client/FrameDecider.c:281-314 | the loop brings exactly the end times of the group down |
| `FrameDeciderObject.FrameDecider.AnalyzeAndDecide` | app/src/main/cpp/badvpn/client/FrameDecider.c:361-510 | the calls to come will return exactly the destinations of the frame; nothing happens while an earlier multicast decision is not drained |
| `FrameDeciderObject.FrameDecider.NextDestination` | app/src/main/cpp/badvpn/client/FrameDecider.c:512-556 | returns the first destination left, and none when there is none |
| `FrameDeciderObject.FrameDecider.RouteDeviceFrame` | app/src/main/cpp/badvpn/client/client.c:2666-2682 | the loop routes the frame to each destination in turn, tells whether more follow, and always drains the decision |
| `FrameDeciderObject.GroupFrameDestinations` | app/src/main/cpp/badvpn/client/FrameDecider.c:474-496 | a frame that is no IGMP, to the MAC of a group, goes to each peer once per group of that signature |
| `Routing.HostFrames` | app/src/main/cpp/badvpn/client/FrameDecider.c:498-509 | a frame to a host goes to the one peer that lists its MAC, once, and if none does to every peer once |
| `Routing.HostIsReached` | app/src/main/cpp/badvpn/client/FrameDecider.c:498-509 | in every run it goes to the peer the host was last seen from, unless that peer was since seen with max_peer_macs others, and is flooded if it was seen from none |
| `Routing.BroadcastReachesAll` | app/src/main/cpp/badvpn/client/FrameDecider.c:471-479 | a broadcast or IGMP frame reaches every peer exactly once |
| `Routing.RuntReachesNone` | app/src/main/cpp/badvpn/client/FrameDecider.c:361-392 | a frame without a header reaches nobody |
| `Routing.GroupFrames` | app/src/main/cpp/badvpn/client/FrameDecider.c:481-496 | a frame to any multicast MAC goes to each peer once per group whose low 23 bits are those of the MAC |
| `FrameDeciderObject.FrameDecider.PeerInit` | app/src/main/cpp/badvpn/client/FrameDecider.c:558-624 | the loops put all entries on the free lists |
| `FrameDeciderObject.FrameDecider.LeaveAllGroups` | app/src/main/cpp/badvpn/client/FrameDecider.c:639-648 | the loop takes every group entry of the peer out of the index |
| `FrameDeciderObject.FrameDecider.ForgetMacs` | app/src/main/cpp/badvpn/client/FrameDecider.c:650-656 | the loop takes every MAC of the peer out of the tree |
| `FrameDeciderObject.FrameDecider.PeerFree` | app/src/main/cpp/badvpn/client/FrameDecider.c:626-669 | everything of the peer goes and nothing else; the destinations to come are those before without the freed peer |
| `FrameDeciderObject.FrameDecider.Analyze` | app/src/main/cpp/badvpn/client/FrameDecider.c:671-795 | the source MAC is learned and the reported groups are joined in order; a decision under way keeps all destinations other than the sender |
| `FrameDeciderObject.FrameDecider.RemainingArePeers` | app/src/main/cpp/badvpn/client/FrameDecider.c:512-556 | every destination to come is a peer that is there |
| `BProto.ParseEncodedItems` | app/src/main/cpp/badvpn/bproto_generator/bproto_functions.php:421-560 | parsing undoes encoding, for any items |
| `BProto.ParsedIsEncoded` | app/src/main/cpp/badvpn/bproto_generator/bproto_functions.php:421-560 | whatever is read from any bytes is how that item is written |
| `BProtoLayout.ItemLayout` | app/src/main/cpp/badvpn/bproto/BProto.h:41-85 | id and type in two bytes each, low byte first; data with its length in four |
| `BProtoLayout.AcceptedMessages` | app/src/main/cpp/badvpn/bproto_generator/bproto_functions.php:421-607 | a message conforms exactly if every item has the id, type and size of a field and each field occurs as often as its cardinality says |
| `BProtoObject.ValueLayout` | app/src/main/cpp/badvpn/bproto_generator/bproto_functions.php:340-419 | what is written for a value, byte by byte: 4 and 1, 2, 4 or 8 bytes for a number, 8 and its length for data |
| `BProtoObject.AddedValues` | app/src/main/cpp/badvpn/bproto_generator/bproto_functions.php:340-419 | each field of a message holds exactly the values added to it, in order |
| `BProtoObject.MessageRoundTrip` | app/src/main/cpp/badvpn/bproto_generator/bproto_functions.php:301-637 | for every schema with distinct ids, any additions that meet the cardinalities give an accepted message with exactly those values |
| `BProtoObject.RegionHolds` | app/src/main/cpp/badvpn/bproto_generator/bproto_functions.php:421-637 | the region remembered for a field in any accepted message consists of whole items, with all values of the field: no assertion of a getter can fail |
| `BProtoObject.RestStep` | app/src/main/cpp/badvpn/bproto_generator/bproto_functions.php:642-759 | after a value is read, the rest of the region holds the values left |
| `BProtoObject.MessageWriter.constructor` | app/src/main/cpp/badvpn/bproto_generator/bproto_functions.php:303-318 | nothing written |
| `BProtoObject.MessageWriter.Add` | app/src/main/cpp/badvpn/bproto_generator/bproto_functions.php:340-419 | the bytes written are the encoding of the values added so far; those appended are laid out as the format says |
| `BProtoObject.MessageWriter.Finish` | app/src/main/cpp/badvpn/bproto_generator/bproto_functions.php:320-338 | the finished message is one the parser accepts, with the values added |
| `BProtoObject.MessageParser.Init` | app/src/main/cpp/badvpn/bproto_generator/bproto_functions.php:421-607 | accepts exactly the byte strings that parse and meet the schema; then each field has all its values pending |
| `BProtoObject.MessageParser.Get` | app/src/main/cpp/badvpn/bproto_generator/bproto_functions.php:642-759 | returns the values of the field in order and then fails; other fields are not disturbed |
| `BProtoObject.MessageParser.GotEverything` | app/src/main/cpp/badvpn/bproto_generator/bproto_functions.php:609-637 | true exactly when no field has a value pending |
| `DhcpOptions.ParseEncoded` | app/src/main/cpp/badvpn/dhcpclient/BDHCPClientCore.c:277-388 | parsing encoded options gives what they stand for, with padding anywhere |
| `DhcpOptions.AcceptsExactlyEncodings` | app/src/main/cpp/badvpn/dhcpclient/BDHCPClientCore.c:277-392 | a byte string is accepted if and only if it is such an encoding of options that can be applied, and read as what they stand for |
| `DhcpReplies.OptionsSay` | app/src/main/cpp/badvpn/dhcpclient/BDHCPClientCore.c:277-388 | options are taken exactly if those the client reads have their lengths, and the last of each kind counts, addresses with the high byte first |
| `DhcpReplies.OptionBytes` | app/src/main/cpp/badvpn/dhcpclient/BDHCPClientCore.c:277-310 | kind, length and value of each option, zeros as padding, 255 at the end |
| `DhcpReplies.NakEndsLease` | app/src/main/cpp/badvpn/dhcpclient/BDHCPClientCore.c:406-464 | a NAK of the offering server leads to the reset state with just the reset timer, and is reported as DOWN if the client was up |
| `DhcpReplies.OfferIsTaken` | app/src/main/cpp/badvpn/dhcpclient/BDHCPClientCore.c:466-505 | an offer is answered by a request for the offered address |
| `DhcpReplies.AckIsTaken` | app/src/main/cpp/badvpn/dhcpclient/BDHCPClientCore.c:507-563 | the ACK stores lease, mask, router, name servers and sender and brings the client up; in renewal it renews the lease time only |
| `DhcpReplies.OthersAreIgnored` | app/src/main/cpp/badvpn/dhcpclient/BDHCPClientCore.c:208-563 | everything else changes nothing |
| `DhcpReplies.TimersMean` | app/src/main/cpp/badvpn/dhcpclient/BDHCPClientCore.c:565-678 | what each timer leads to in each state: messages, next timers with their times, transaction id and reports |
| `DhcpLease.ReceiveInv` | app/src/main/cpp/badvpn/dhcpclient/BDHCPClientCore.c:406-563 | every packet keeps timers, reports and lease clock in step |
| `DhcpLease.FireInv` | app/src/main/cpp/badvpn/dhcpclient/BDHCPClientCore.c:591-678 | every timer does too |
| `DhcpLease.LeaseSafety` | app/src/main/cpp/badvpn/dhcpclient/BDHCPClientCore.c:406-678 | in every run the state decides which timers run; UP and DOWN alternate, UP first; the address is unchanged while up; the client is up at most 1000 * lease ms after the last accepted ACK, plus twice what a timer may be late (section 4.4.5 of RFC 2131); it waits for an ACK at most as long as four requests take |
| `DhcpLease.MessagesAreSensible` | app/src/main/cpp/badvpn/dhcpclient/BDHCPClientCore.c:73-198 | a discover carries the transaction id in force; a request asks for the offered address and names the server only while there is no lease |
| `DhcpObject.ParseOptions` | app/src/main/cpp/badvpn/dhcpclient/BDHCPClientCore.c:277-392 | the option loop computes the specified parse |
| `DhcpObject.ReadOption` | app/src/main/cpp/badvpn/dhcpclient/BDHCPClientCore.c:316-387 | one option, with at most 16 name servers |
| `DhcpObject.DhcpClientCore.constructor` | app/src/main/cpp/badvpn/dhcpclient/BDHCPClientCore.c:685-791 | sends a discover and waits |
| `DhcpObject.DhcpClientCore.SendMessage` | app/src/main/cpp/badvpn/dhcpclient/BDHCPClientCore.c:73-198 | at most one message is out at any time: the number handed over exceeds the number done with by one exactly while sending |
| `DhcpObject.DhcpClientCore.SendHandlerDone` | app/src/main/cpp/badvpn/dhcpclient/BDHCPClientCore.c:200-206 | all messages handed over are done with, and the timers are still those of the state |
| `DhcpObject.DhcpClientCore.RecvHandlerDone` | app/src/main/cpp/badvpn/dhcpclient/BDHCPClientCore.c:208-563 | the state, messages and reports the specification gives for the packet; afterwards the running timers are those of the state, counters are in range and at most one message is out |
| `DhcpObject.DhcpClientCore.HandleNak` | app/src/main/cpp/badvpn/dhcpclient/BDHCPClientCore.c:406-464 | a NAK of the offering server resets, and is reported if the client was up; afterwards the running timers are those of the state, counters are in range and at most one message is out |
| `DhcpObject.DhcpClientCore.StartProcess` | app/src/main/cpp/badvpn/dhcpclient/BDHCPClientCore.c:565-589 | a discover with a fresh or reused transaction id; afterwards the running timers are those of the state, counters are in range and at most one message is out |
| `DhcpObject.DhcpClientCore.ResetTimerHandler` | app/src/main/cpp/badvpn/dhcpclient/BDHCPClientCore.c:591-599 | starts again, with a fresh id after a reset; afterwards the running timers are those of the state, counters are in range and at most one message is out |
| `DhcpObject.DhcpClientCore.RequestTimerHandler` | app/src/main/cpp/badvpn/dhcpclient/BDHCPClientCore.c:601-626 | repeats the request, or starts again after four; afterwards the running timers are those of the state, counters are in range and at most one message is out |
| `DhcpObject.DhcpClientCore.RenewTimerHandler` | app/src/main/cpp/badvpn/dhcpclient/BDHCPClientCore.c:628-646 | asks for renewal and starts the lease timer; afterwards the running timers are those of the state, counters are in range and at most one message is out |
| `DhcpObject.DhcpClientCore.RenewRequestTimerHandler` | app/src/main/cpp/badvpn/dhcpclient/BDHCPClientCore.c:648-660 | asks again; afterwards the running timers are those of the state, counters are in range and at most one message is out |
| `DhcpObject.DhcpClientCore.LeaseTimerHandler` | app/src/main/cpp/badvpn/dhcpclient/BDHCPClientCore.c:662-678 | the lease has run out: starts again and reports DOWN; afterwards the running timers are those of the state, counters are in range and at most one message is out |
| `DhcpObject.HandlersKeepTimers` | app/src/main/cpp/badvpn/dhcpclient/BDHCPClientCore.c:406-678 | every handler keeps the running timers a function of the state: the assertions at the head of the timer handlers hold |

## Left out

- Reassembly.ReassemblySafety: with a chunk limit, which the client never sets, the absence of a mid-frame cancel is only shown to be sufficient.
- CancelTrap.CancelIsSafeIff: assumes that some completion of the cancelled part was never sent; if all were, a mixed frame could not be told from a true one.
- DisassemblerRuns.ChunkCountBound: no bound is stated for a disassembler with a chunk limit.
- FairQueueClamp.IdleSendAgreesIff: a queue of weight above 1 that carries empty packets only is not covered; there the condition is sufficient (FairQueueClamp.UnharmedAgrees) but a smaller difference in leads may never show.
- FairQueueRuns.NoStarvation: bounds the packets sent while the flow waits, for a set of flows that does not grow meanwhile.
- MacCache.LeastRecentlySeen: that a peer drops a MAC after max_peer_macs others is not stated, since MACs taken over by other peers make room.
- Negotiation.NegotiationOutcome: messages are well formed and fit the buffers, link setup succeeds, and no link fails or reports up meanwhile, so resets do not occur; TCP listening is a port range with a free port.
- NegotiationObject.PeerSetup.BindOneAddress: the same.
- NegotiationObject.PeerSetup.MsgYouConnect: addresses that cannot be read and missing or wrong keys are left out.
- FrameDeciderObject.FrameDecider.RouteDeviceFrame: the client never comes with an undrained decision; for one, the model goes on with it.
- FrameDeciderObject.FrameDecider.Analyze: the same as for AnalyzeAndDecide.
- FrameDeciderObject.FrameDecider.AnalyzeAndDecide: frames come classified (destination, source, what IGMP asks or reports); IPv4 and IGMP headers are not parsed from bytes. The iterator that an early return leaves freed is not modelled beyond the decision being unchanged.
- DataProtoObject.DataProtoSystem.SinkInit: keep-alives, monitor and up reports are left out.
- ClientObject.Client.InitLink: the failure of a link setup and the reset after it are left out.
- ClientObject.Client.FreshLink: the same.
- DhcpObject.DhcpClientCore.SendMessage: the bytes of outgoing messages and of the fixed reply header are not modelled, only their fields.
- Buffers are values: that the buffer of a finished frame stays in a free pool entry while it is passed on, and other aliasing, is not captured.
- AVL trees and linked lists are represented by maps and sequences, and allocation succeeds.
- PacketPassFairQueue: asking the output to cancel the packet in service; flow inputs have no cancel handler, so a queued packet cannot be cancelled. Shutdown mode is part of FairQueueObject only.
- DataProto: up and down reports, keep-alives, inactivity monitors and the packet router.
- DPRelay: the inactivity timer of relay flows and buffer sizes.
- client.c: argument handling, certificates, OTP seeds, chat and server connection, peer resets.
- bproto: the Reset and Forward calls of parsers, and the schema compiler in front of the generator.
- BDHCPClientCore: the getters of the acknowledged parameters, and the choice of random numbers.
- SPProto encryption, peer sockets, DHCP sockets, stream transports, the reactor and all programs around the packet core.
- PacketPassPriorityQueue, PacketPassFifoQueue, connectors and copiers: simpler relatives of what is modelled.
