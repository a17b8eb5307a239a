# DRackSim: a verified model

DRackSim simulates, cycle by cycle, a rack in which compute nodes borrow memory from memory pools over a switched
interconnect. It exists as a detailed simulator (`DRACKSim-Detailed`, with out-of-order cores, caches and TLBs) and as
a trace simulator (`DRackSim-Trace`). Their results rest on four deterministic state machines. This project models the
four in Dafny, keeping the simulator's branches, constants and in-place updates, and proves what must hold in every run
for the figures to mean anything. Sizes, widths, delays and capacities are parameters; pages are of 4096 bytes and cache
lines of 64 throughout.

Each machine comes in three layers: functions on values that say what one stage does; theorems about all runs of those
functions; and classes whose methods update arrays, queues and counters in place, each proved to leave exactly the
state that its function gives. So the theorems are about what the classes do.

**The out-of-order core** (`RobRing`, `Ooo*`). A re-order buffer in a ring, a register alias table, reservation
stations with wake-up lists, ready queues and execution units. The instruction stream, the decoder's timing and the
store queue's answers are arbitrary. Proved: renaming is exact despite slot reuse, no wake-up is lost, every
instruction is dispatched once and only after its producers, and commits are in order; exactly how many instructions a
cycle issues and which it dispatches, executes and commits; that every branch charges its penalty once and every
stalled cycle is accounted for; and that a stream of register instructions commits entirely within an explicit bound.
The dispatch width has no effect.

**The interconnect** (`Net*`). Six queue stages from a sender to a memory pool, with a rotating crossbar arbiter.
Requests may be made at any node in any cycle. Both simulators contain this pipeline; the lines cited are the trace
simulator's. Proved: nothing is lost, duplicated, reordered or misrouted; no packet falls behind the clock, exactly
unless an output head falls due while its destination NIC is full; the crossbar's transfers are a matching, never idle
when something fits, exactly which heads the turns let through, and how of two ports one starves the other; buffers keep
to their sizes, and exactly when an output does not; a credit condition under which nothing is ever blocked; a floor
under every latency, which a lone request meets exactly; bounds on the time from source queue to switch and from output
to delivery; and a bound on bandwidth.

**Address spaces and page tables** (`Paging`, `PageTables`, `Addr*`, `Rack*`). Nodes borrow chunks of pages from pools,
with region tables on both sides, and translate virtual page to node page to pool page. Proved: the counters of one
simulator refine the free lists of the other, the four-level table refines a flat map, lookups find the unique region,
pools accept exactly what they lent, and no two lines of virtual memory in the rack share a line of physical memory;
exactly the touched pages are mapped, each to the frame that the order of first touches gives it, and a node borrows
exactly the chunks it needs, from the pools picked.

**Caches, TLBs and the miss path** (`RotatingSet`, `Cache*`, `Miss*`). Proved: a k-way set with a rotating index holds
exactly its last k fills with exact dirty bits, and caches and TLBs hit exactly for these; TLBs always agree with the
page table; page table, faults and pending translations are exactly what the questions of the run make of them; no load
or store is lost or duplicated between issue and completion; and when each place on the way is left: the buffer, the
miss buffers, the responses, and the MSHR, for which no bound on completion is lower.

`dafny verify dfyconfig.toml` checks the whole project.

## Where the code differs from what is written about it

- The output stage means to let waiting packets wait another cycle when the destination NIC is full
  (`DRackSim-Trace/inter_connect.cpp:552`), but that branch belongs to the test for an empty queue. A due head that
  finds the NIC full keeps its stamp, and is never looked at again. The model follows the code; `NetClock` gives the
  exact condition, `NetBlocked` runs in which it happens and `NetCredit` a condition on the requests that excludes it.
- `has_size` of the re-order buffer (`DRACKSim-Detailed/OOO_core.cpp:147-153`) is right only from three slots on.
- `dispatch_width` has no effect beyond one instruction per type and cycle, since only the head of a ready queue ages
  (`DRACKSim-Detailed/OOO_core.cpp:867-874`): `OooWidth` shows that every width gives the run of width one.
- Page faults alternate between local and borrowed memory in both simulators, starting with local in the trace
  simulator (even fault counts go local, `DRackSim-Trace/mem_defs.cpp:490`) and with borrowed in the detailed one (odd
  counts, `DRACKSim-Detailed/TLB_Cache.cpp:1559`).
- The crossbar's arbiter moves on twice after a transfer (`DRackSim-Trace/inter_connect.cpp:433` and `:464`), so no two
  adjacent ports send in one cycle, and with two ports the same one keeps the turn: `NetArbiter`, `NetStarve`.
- Removing an answered MSHR entry passes over the entry that moves up until the next cycle
  (`DRACKSim-Detailed/TLB_Cache.cpp:874`). `MissLate` says exactly when, and how often.
- With the detailed simulator's 64-byte RDMA packets (`DRACKSim-Detailed/mem_defs.cpp:153`) the crossbar's admission
  check can overfill an output queue: `NetOverfill` gives a run, and the exact condition for runs of any packet size.
- The ITLB's miss is served only in the very cycle its translation falls due (`DRACKSim-Detailed/TLB_Cache.cpp:379`),
  that of the DTLB in any cycle from then on (`:739`). `MissBuffer` shows that a fetch looked at too late waits for
  ever.

## Model

| member | source | states |
|---|---|---|
| RobRing.HasSizeIsCapacity | DRACKSim-Detailed/OOO_core.cpp:147-153 | `has_size` answers exactly "fewer than n entries" in every pointer state iff the buffer has at least three slots (C++'s truncating `%` is written out) |
| RobRing.CircularQueue.DoIssue | DRACKSim-Detailed/OOO_core.cpp:118-137 | The new entry joins the end of the queue in the next slot, which was free; nothing else moves |
| RobRing.CircularQueue.DoCommit | DRACKSim-Detailed/OOO_core.cpp:100-112 | The oldest entry leaves, the order of the others is kept; an empty queue stays empty |
| RobRing.CircularQueue.HasRoom | DRACKSim-Detailed/OOO_core.cpp:147-153 | True exactly when fewer than all slots are live |
| RobRing.BetweenUnique | DRACKSim-Detailed/OOO_core.cpp:84-112 | The two pointers determine the live slots: one list of slots only fits them |
| OooIssue.IssueKeepsInv | DRACKSim-Detailed/OOO_core.cpp:730-839 | Issuing an instruction keeps renaming, waiting operands, wake-up lists, ready queues and history right |
| OooDispatch.DispatchKeepsInv | DRACKSim-Detailed/OOO_core.cpp:318-356 | Moving a ready head to an idle unit keeps the invariant |
| OooDispatch.ChargeKeepsInv | DRACKSim-Detailed/OOO_core.cpp:318-356 | Charging a mispredicted branch its penalty keeps the invariant |
| OooExecute.ReleaseKeepsInv | DRACKSim-Detailed/OOO_core.cpp:373-395 | Freeing a unit whose latency has run out keeps the invariant, with one more result to announce |
| OooExecute.MarkKeepsInv | DRACKSim-Detailed/OOO_core.cpp:398-438 | Marking a result executed keeps the invariant while its consumers are still to be told |
| OooExecute.WakeOneKeepsInv | DRACKSim-Detailed/OOO_core.cpp:398-438 | Waking one consumer keeps the invariant: each list entry clears one operand |
| OooExecute.WakeKeepsInv | DRACKSim-Detailed/OOO_core.cpp:398-438 | After the whole list is gone through nobody waits for the slot any more |
| OooExecute.RetireKeepsInv | DRACKSim-Detailed/OOO_core.cpp:441-450 | Retiring the oldest instruction keeps renaming exact although its slot may be reused |
| OooTheorems.StepKeepsInv | DRACKSim-Detailed/OOO_core.cpp:897-921 | A whole cycle, any arrivals and any store-queue answers, keeps the invariant |
| OooTheorems.Reachable | DRACKSim-Detailed/OOO_core.cpp:897-921 | Every state of every run satisfies the invariant |
| OooResults.Renaming | DRACKSim-Detailed/OOO_core.cpp:441-450 | In every reachable state an alias is -1 iff no live entry writes the register, and otherwise names the youngest live writer |
| OooResults.NoLostWakeups | DRACKSim-Detailed/OOO_core.cpp:398-438 | Every waiting operand waits for a live, unexecuted, youngest older writer whose list holds the station once per operand that waits |
| OooResults.QueuedIffCleared | DRACKSim-Detailed/OOO_core.cpp:318-356 | A station is in a ready queue, in one place only, exactly when none of its operands waits |
| OooResults.NothingForgotten | DRACKSim-Detailed/OOO_core.cpp:318-395 | Every live instruction is in a station, in a unit, or executed |
| OooResults.HistoryIsLegal | DRACKSim-Detailed/OOO_core.cpp:318-438 | Each instruction is issued, dispatched, executed and committed at most once, dispatched only after every producer has executed, committed after its predecessor |
| OooResults.CommitsInOrder | DRACKSim-Detailed/OOO_core.cpp:699-729 | After any run exactly the first `committed` instructions have committed, once each, in stream order |
| OooWidth.OneDispatchPerType | DRACKSim-Detailed/OOO_core.cpp:318-356 | In every cycle of every run, whatever the dispatch width, no two dispatched instructions are of one type |
| OooWidth.DispatchWidthHasNoEffect | DRACKSim-Detailed/OOO_core.cpp:867-874 | For every stream and environment, a core of any dispatch width passes through exactly the states of a core of width one |
| OooWidth.TypeSame | DRACKSim-Detailed/OOO_core.cpp:318-356 | One type's turn: since only heads age, more attempts than one change nothing |
| OooDrain.OldestNeverWaits | DRACKSim-Detailed/OOO_core.cpp:398-438 | In every run the oldest live instruction waits for no register: before its dispatch its own station is cleared and queued for its type, then a unit runs its slot, until it has executed |
| OooDrain.CycleLowers | DRACKSim-Detailed/OOO_core.cpp:897-921 | With nothing to issue and only register instructions in flight, every cycle strictly lowers a potential |
| OooDrain.DrainsWithin | DRACKSim-Detailed/OOO_core.cpp:897-921 | The re-order buffer is empty after as many cycles as the potential, and stays empty |
| OooDrain.PotentialBound | DRACKSim-Detailed/OOO_core.cpp:358-395 | The potential is at most the penalty plus latency+3 per live instruction plus the branch penalty and one more cycle per flagged branch |
| OooDrain.DrainBound | DRACKSim-Detailed/OOO_core.cpp:897-921 | In every run, the buffer drains within that explicit linear bound |
| OooExact.CycleIssues | DRACKSim-Detailed/OOO_core.cpp:876-895 | An unstalled cycle issues exactly the least of the issue width, the free stations, the free slots and the due instructions at the front of the decode buffer; a stalled one none |
| OooExact.DispatchIsExact | DRACKSim-Detailed/OOO_core.cpp:318-356 | In every run an unstalled cycle dispatches exactly the instructions that stood at the head of their queue, aged, with an idle unit and without a misprediction flag; it leaves the branch penalty exactly if a flagged branch stood so, else none; a stalled cycle only works the penalty off |
| OooExact.ExecutesAfterLatency | DRACKSim-Detailed/OOO_core.cpp:358-395 | In every run an instruction has executed exactly when more unstalled cycles than the latency of its type have begun since its dispatch, that of the dispatch included |
| OooExact.CycleCommits | DRACKSim-Detailed/OOO_core.cpp:699-729 | In every run an unstalled cycle commits executed instructions from the front of the stream, each with room if it is a store, and stops only at the commit width, at one that has not executed, or for want of room |
| OooAging.QueuesInOrder | DRACKSim-Detailed/OOO_core.cpp:867-874 | In every run an unstalled cycle keeps each ready queue first in, first out: the head leaves exactly if dispatched, newcomers join the end, and only the head ages, by the queue's length |
| OooPenalty.BranchChargesOnce | DRACKSim-Detailed/OOO_core.cpp:318-356 | A mispredicted branch has charged its penalty exactly once when it is dispatched, never twice, and nothing else charges any |
| OooPenalty.StallsAccountedFor | DRACKSim-Detailed/OOO_core.cpp:897-921 | In every run stalled cycles so far and the penalty still to come are the branch penalty times the cycles in which a branch charged it |
| OooThroughput.StreamCommits | DRACKSim-Detailed/OOO_core.cpp:897-921 | A stream of register instructions that has arrived and is due commits entirely within an explicit bound, from any reachable state |
| OooCore.Core.constructor | DRACKSim-Detailed/OOO_core.cpp:84-98 | The core starts empty |
| OooCore.Core.FreeStation | DRACKSim-Detailed/OOO_core.cpp:233-240 | The first free reservation station, or -1 |
| OooCore.Core.FreeUnit | DRACKSim-Detailed/OOO_core.cpp:175-187 | The first idle unit of a type, or -1 |
| OooCore.Core.DependenciesCleared | DRACKSim-Detailed/OOO_core.cpp:295-316 | True exactly when no operand waits |
| OooCore.Core.JoinWakeupLists | DRACKSim-Detailed/OOO_core.cpp:760-839 | Each operand gets the slot it must wait for, and joins that slot's list as often as it waits |
| OooCore.Core.AddToRs | DRACKSim-Detailed/OOO_core.cpp:760-839 | In place, the station and the wake-up lists become what the issue stage says |
| OooCore.Core.AddToRob | DRACKSim-Detailed/OOO_core.cpp:730-755 | In place, the new entry takes the next slot and its registers alias it |
| OooCore.Core.IssueInstruction | DRACKSim-Detailed/OOO_core.cpp:876-895 | In place, the issue stage |
| OooCore.Core.DispatchAll | DRACKSim-Detailed/OOO_core.cpp:318-356 | In place, the dispatch stage |
| OooCore.Core.CheckExecuted | DRACKSim-Detailed/OOO_core.cpp:373-395 | In place, the completion check; the finished slots are collected in order |
| OooCore.Core.BroadcastComplete | DRACKSim-Detailed/OOO_core.cpp:398-438 | In place, the broadcast of all finished slots |
| OooCore.Core.UpdateRat | DRACKSim-Detailed/OOO_core.cpp:441-450 | In place, the aliases of a retiring slot are dropped, the others kept |
| OooCore.Core.CommitReady | DRACKSim-Detailed/OOO_core.cpp:699-729 | In place, the commit stage |
| OooCore.Core.UpdateReadyQueue | DRACKSim-Detailed/OOO_core.cpp:867-874 | In place, the heads of the ready queues age |
| OooCore.Core.UpdateExecUnits | DRACKSim-Detailed/OOO_core.cpp:358-371 | In place, the busy units age |
| OooCore.Core.UpdateCore | DRACKSim-Detailed/OOO_core.cpp:897-921 | In place, the whole cycle: its new state is the one the theorems are about |
| NetSpec.Bump | DRackSim-Trace/inter_connect.cpp:165-171 | The scan changes stamps only, each by at most one |
| NetStamps.BumpPasses | DRackSim-Trace/inter_connect.cpp:165-171 | On a queue in stamp order the early stop misses nothing: every stamp ends above the clock |
| NetSpec.TriedGrows | DRackSim-Trace/inter_connect.cpp:399-468 | The arbiter's round counter never goes back, so the arbitration loop ends |
| NetSystem.Simulate | DRackSim-Trace/inter_connect.cpp:653-668 | After any cycle every packet is in a queue of its own source and destination |
| NetFlow.SourceForwards | DRackSim-Trace/inter_connect.cpp:137-209 | At most one packet goes from the head of the source queue to the tail of the NIC queue; nothing else moves |
| NetFlow.NicKeepsFlow | DRackSim-Trace/inter_connect.cpp:240-323 | The NIC and virtual queue of a flow together keep its requests and their order |
| NetFlow.TransferKeepsFlow | DRackSim-Trace/inter_connect.cpp:428-440 | A crossbar transfer keeps a flow's requests and their order |
| NetFlow.OutputForwards | DRackSim-Trace/inter_connect.cpp:488-563 | At most one packet goes from the head of an output queue to the tail of the destination NIC |
| NetFlow.DestForwards | DRackSim-Trace/inter_connect.cpp:565-620 | At most one packet goes from the destination NIC to the collector |
| NetSystem.DeliverSplits | DRackSim-Trace/inter_connect.cpp:622-651 | Delivery takes a prefix of the collector, in order |
| NetFlow.SimulateKeepsTransit | DRackSim-Trace/inter_connect.cpp:653-668 | A cycle keeps each flow's requests, delivered or in transit, in order |
| NetFlow.Conservation | DRackSim-Trace/inter_connect.cpp:653-668 | Over every run and for every flow: delivered packets followed by those in the collector, destination NIC, output, virtual, source NIC and source queues are the requests made, in order |
| NetFlow.DeliveredInOrder | DRackSim-Trace/inter_connect.cpp:653-668 | The delivered requests of a flow are a prefix of those made |
| NetStamps.SourceOnTime | DRackSim-Trace/inter_connect.cpp:137-209 | A source queue and its NIC stay in stamp order and pass the clock, counters within their delays |
| NetStamps.NicOnTime | DRackSim-Trace/inter_connect.cpp:240-323 | Everything in a source NIC carries the current stamp and moves on to the next |
| NetStamps.OutputOnTime | DRackSim-Trace/inter_connect.cpp:488-563 | An output queue passes the clock unless its due head finds the destination NIC full |
| NetStamps.DestOnTime | DRackSim-Trace/inter_connect.cpp:565-620 | A destination NIC passes the clock |
| NetClock.SimulateOnTime | DRackSim-Trace/inter_connect.cpp:653-668 | A cycle without a blocked output keeps every queue ordered and up to date |
| NetClock.NoPacketFallsBehind | DRackSim-Trace/inter_connect.cpp:653-668 | If no output is ever blocked, before cycle n every stamp is at least n and every queue is in stamp order |
| NetClock.UpToDateIffNeverBlocked | DRackSim-Trace/inter_connect.cpp:503-561 | Exactly when: all packets of a run are up to date iff no output head ever fell due with its destination NIC full |
| NetClock.StuckForGood | DRackSim-Trace/inter_connect.cpp:552-561 | A head behind the clock stays where it is through any further cycles, and its destination receives nothing more |
| NetBlocked.PairFallsBehind | DRackSim-Trace/inter_connect.cpp:503-561 | For every NIC bandwidth: two requests for a receiver whose NIC has room for one, and in every long enough run the second is left behind the clock |
| NetBlocked.PacketFallsBehind | DRackSim-Trace/inter_connect.cpp:503-561 | Such a run of six cycles |
| NetCredit.CreditSuffices | DRackSim-Trace/inter_connect.cpp:503-561 | If in every cycle the bytes asked of each destination and not yet delivered fit its NIC, no output is ever blocked and no packet falls behind |
| NetCredit.FewRequestsSuffice | DRackSim-Trace/inter_connect.cpp:503-561 | A check on the requests alone: if all those for a destination fit its NIC together, no packet falls behind |
| NetCrossbar.TransferApplies | DRackSim-Trace/inter_connect.cpp:428-440 | A transfer extends the matching by a port and an output not matched before |
| NetProgress.CrossbarIsAMatching | DRackSim-Trace/inter_connect.cpp:399-468 | The transfers of a cycle are a matching (at most one per input port and per output); each took a due head that fitted; exactly those heads moved |
| NetProgress.CrossesIffSomethingFits | DRackSim-Trace/inter_connect.cpp:399-468 | Some packet crosses iff some due head fits its output queue |
| NetArbiter.ArbiterIsAlmostMaximal | DRackSim-Trace/inter_connect.cpp:399-468 | Senders are in the order of the turns, no two in adjacent turns; a port whose head fits an output sends unless the output is taken or the port before it sent |
| NetArbiter.ArbiterRotates | DRackSim-Trace/inter_connect.cpp:399-468 | A sender sends the first queue in its rotation whose head fits an output not yet taken, its rotation then stands there, all others stay; the turn moves on by as many as were had, two for a sender |
| NetStarve.TurnsCarryOver | DRackSim-Trace/inter_connect.cpp:399-468 | Over every run turn and rotations carry over: the first cycle starts at port 0 and queue 0, the next one where this one's turns and senders left them |
| NetStarve.KeepsItsTurn | DRackSim-Trace/inter_connect.cpp:431-467 | With two ports the one whose turn it is sends if it can, alone, and has the next turn again |
| NetStarve.OtherPortStarves | DRackSim-Trace/inter_connect.cpp:431-467 | So in every run, as long as it can send in every cycle, the other port sends nothing to any output |
| NetProgress.OnceRound | DRackSim-Trace/inter_connect.cpp:405-460 | Going once round the virtual queues from any start sees each exactly once |
| NetCapacity.OverfilledIff | DRackSim-Trace/inter_connect.cpp:326-357 | Exactly which admissions overfill an output: a 128-byte packet where only a smaller RDMA packet was checked for |
| NetCapacity.AdmittedHasRoom | DRackSim-Trace/inter_connect.cpp:326-357 | With RDMA packets of at least 128 bytes a due head is admitted exactly when it has room |
| NetCapacity.SmallRdmaOverfills | DRACKSim-Detailed/mem_defs.cpp:153 | The admission check alone: with 64-byte RDMA packets, for every output size there are queue contents for which it admits a packet that overfills the output |
| NetCapacity.CrossbarWithinIff | DRackSim-Trace/inter_connect.cpp:326-357 | Exactly when a crossbar step overfills an output, for every RDMA size: a 128-byte head crosses where an RDMA packet fits and it does not |
| NetOverfill.WithinIffNeverOverfills | DRackSim-Trace/inter_connect.cpp:326-357 | In every run and for every RDMA size: all buffers are within their sizes right after the crossbar in every cycle iff no such head ever crosses |
| NetOverfill.PairOverfills | DRACKSim-Detailed/inter_connect.cpp:326-357 | For every NIC bandwidth: two requests made in cycle 0 leave an output over its size when it has room for one and an RDMA packet but not for two |
| NetOverfill.OutputOverflows | DRACKSim-Detailed/mem_defs.cpp:153 | Such a run with 64-byte RDMA packets: after five cycles an output of 192 bytes holds 256 |
| NetCapacity.BuffersNeverOverflow | DRackSim-Trace/mem_defs.cpp:29 | Over every run, with RDMA packets of at least 128 bytes, no NIC, input port or output port holds more bytes than its size |
| NetTiming.LatencyBound | DRackSim-Trace/inter_connect.cpp:85-107 | Over every run: a request reaches memory no earlier than packetisation at both ends, two NIC processing delays, both transmissions, two propagations, switch processing and switching after it was made, with nondecreasing stage times |
| NetTiming.SimulateTimed | DRackSim-Trace/inter_connect.cpp:653-668 | Each stage adds at least its delay to the recorded times |
| NetLatency.ServesInTime | DRackSim-Trace/inter_connect.cpp:488-620 | A cycle of an output port or destination NIC moves no packet's time of leaving back, and a head that leaves does so on time |
| NetLatency.CycleExpects | DRackSim-Trace/inter_connect.cpp:653-668 | A cycle without a blocked output keeps the deadline of every packet at the receiving end, and its place in the order of arrival |
| NetLatency.DeliveredWithin | DRackSim-Trace/inter_connect.cpp:488-651 | In a run that is never blocked the p-th packet of an output queue is delivered, in order, before an explicit bound: transmissions of the p + 1 packets, NIC turns of these and those in the NIC, propagation, packetisation |
| NetEntry.SourceServes | DRackSim-Trace/inter_connect.cpp:137-209 | While the NIC has room a source queue moves no request's time of leaving back, and a head that leaves does so on time, to the end of the NIC |
| NetEntry.LinkServes | DRackSim-Trace/inter_connect.cpp:240-323 | While the input port has room the same for a NIC and its link |
| NetEntry.LeavesWithin | DRackSim-Trace/inter_connect.cpp:137-323 | In every run, while there is room, the p-th request of a source queue has left its NIC, in order, before an explicit bound: NIC turns of the p + 1 requests, transmissions of these and of those in the NIC |
| NetEntry.EntersWithin | DRackSim-Trace/inter_connect.cpp:137-323 | And by then it has entered its virtual queue |
| NetLone.FloorIsMet | DRackSim-Trace/inter_connect.cpp:137-668 | The latency floor is exact: in every configuration with room for one packet, a request that is the only one of a run is delivered exactly the floor after it was made, and nothing before |
| NetTiming.DelaysAreWhole | DRackSim-Trace/inter_connect.cpp:264-270 | A transmission takes the whole cycles that the link needs for the bits, rounded down; packetisation loses at most a cycle to halving |
| NetTiming.DataTravelsOnce | DRackSim-Trace/inter_connect.cpp:117-130 | Of a request and its answer one has 64 bytes and the other has the data with it; only accesses numbered 0 send data there |
| NetBandwidth.RecordedIsSent | DRackSim-Trace/inter_connect.cpp:264-285 | The recorded departures are the packets that entered the input port |
| NetBandwidth.PortKeepsPace | DRackSim-Trace/inter_connect.cpp:264-310 | Two departures are at least the second packet's transmission time plus one cycle apart |
| NetBandwidth.BandwidthBound | DRackSim-Trace/inter_connect.cpp:240-323 | Over every run: the bits a NIC sends in a window of W cycles are fewer than bandwidth times W plus one packet |
| NetMachine.BumpQueue | DRackSim-Trace/inter_connect.cpp:165-171 | In a loop with an early exit, the scan |
| NetMachine.QueueHasSize | DRackSim-Trace/inter_connect.cpp:117-135 | True exactly when the bytes fit the NIC queue |
| NetMachine.RowHasSpace | DRackSim-Trace/inter_connect.cpp:213-238 | True exactly when the bytes fit the input port |
| NetMachine.Network.constructor | DRackSim-Trace/inter_connect.cpp:49-70 | The network starts empty |
| NetMachine.Network.Request | DRackSim-Trace/inter_connect.cpp:85-114 | A request enters its source queue with half the packetisation time added twice |
| NetMachine.Network.SourceToNic | DRackSim-Trace/inter_connect.cpp:137-209 | In place, the first stage of every port |
| NetMachine.Network.SourceToSwitch | DRackSim-Trace/inter_connect.cpp:240-323 | In place, the second stage of every port |
| NetMachine.Network.TotalReady | DRackSim-Trace/inter_connect.cpp:360-375 | Counts the virtual queues whose head is due |
| NetMachine.Network.FindFree | DRackSim-Trace/inter_connect.cpp:326-357 | The status of every output and how many are not full |
| NetMachine.Network.PortTurn | DRackSim-Trace/inter_connect.cpp:403-461 | In place, one input port's turn: first virtual queue that can send, rotating |
| NetMachine.Network.ArbitratePorts | DRackSim-Trace/inter_connect.cpp:399-468 | In place, the arbitration loop |
| NetMachine.Network.SwitchInputToOutput | DRackSim-Trace/inter_connect.cpp:379-485 | In place, the arbitration and the waiting of the others |
| NetMachine.Network.SwitchToDest | DRackSim-Trace/inter_connect.cpp:488-563 | In place, the output stage |
| NetMachine.Network.DestToCollector | DRackSim-Trace/inter_connect.cpp:565-620 | In place, the destination stage |
| NetMachine.Network.RemoteMemoryAdd | DRackSim-Trace/inter_connect.cpp:622-651 | In place, delivery |
| NetMachine.Network.SimulateNetwork | DRackSim-Trace/inter_connect.cpp:653-668 | In place, one cycle: its new state is the one the theorems are about |
| Paging.SplitJoins | DRACKSim-Detailed/MMU.cpp:221-240 | Every address is its four nine-bit indices and offset put back together, bits from 48 on ignored; and the indices are those of its page number |
| Paging.JoinSplits | DRACKSim-Detailed/MMU.cpp:221-240 | Conversely every four indices and offset are the split of one 48-bit address: a bijection |
| Paging.GuardNeverDrops | DRACKSim-Detailed/MMU.cpp:59-65 | The size guard never drops an entry: a new index always finds fewer than 512 |
| Paging.AccessFinds | DRACKSim-Detailed/MMU.cpp:67-74 | The search finds an entry exactly when one has the index |
| PageTables.InstallsInTable | DRACKSim-Detailed/TLB_Cache.cpp:1584-1621 | After a fault the walk finds the frame (the old one if the page was there), and every other page's walk is unchanged |
| PageTables.InstallRefinesMap | DRACKSim-Detailed/TLB_Cache.cpp:1584-1621 | The four-level table refines a flat map from pages to frames |
| PageTables.LevelsFit | DRACKSim-Detailed/MMU.cpp:46-211 | No level of a table ever has more than 512 entries |
| PageTables.PageTable.PageTableWalk | DRACKSim-Detailed/TLB_Cache.cpp:1490-1536 | Found iff the flat map has the page, and then its frame |
| PageTables.PageTable.AddPage | DRackSim-Trace/mem_defs.cpp:519-545 | In place, the flat map gains the page unless it had it |
| AddrSpec.RegionsPartition | DRACKSim-Detailed/mmap.cpp:217-236 | The regions partition the borrowed pages: each is in exactly one, other pages in none |
| AddrSpec.LookupIsRegion | DRACKSim-Detailed/mmap.cpp:160-193 | The two first-match searches give the offset in the unique region that holds the page; -1 exactly for pages not borrowed |
| AddrSpec.SharedPartition | DRACKSim-Detailed/mmap.cpp:392-409 | A pool's entries partition its allocated pages, in order |
| AddrSpec.ValidateIff | DRACKSim-Detailed/mmap.cpp:376-389 | An access is accepted iff some entry of that node holds the page |
| AddrSpec.RequestKeeps | DRACKSim-Detailed/mmap.cpp:455-489 | A request, granted or refused, keeps both partitions and allocated plus free constant |
| AddrSpec.AllocationKeeps | DRackSim-Trace/mmap.cpp:107-122 | A page handed out was free, local below the local pages, borrowed within the space |
| AddrSpec.RefusedPageHasNoPool | DRackSim-Trace/mmap.cpp:420-449 | A borrowed page handed out after a request has no pool iff the request was refused |
| AddrSpec.LocalRefined | DRACKSim-Detailed/mmap.cpp:137-145 | The front of the local list is the page the counter hands out, and the list stays its interval |
| AddrSpec.RemoteRefined | DRACKSim-Detailed/mmap.cpp:148-156 | The same for borrowed pages |
| AddrSpec.RequestRefined | DRACKSim-Detailed/mmap.cpp:455-489 | The pages pushed on the list are the interval the counters gain |
| AddrSpec.CountersRefineLists | DRACKSim-Detailed/mmap.cpp:53-156 | Under the same calls, however many, counters and lists hand out the same pages and leave the same state |
| AddrMachine.CounterSpace.AllocateLocalPage | DRackSim-Trace/mmap.cpp:107-113 | In place, the counter allocation |
| AddrMachine.CounterSpace.AllocateRemotePage | DRackSim-Trace/mmap.cpp:116-122 | In place, the counter allocation of a borrowed page |
| AddrMachine.CounterSpace.FindRemotePool | DRackSim-Trace/mmap.cpp:126-137 | The loop computes the first-match pool |
| AddrMachine.CounterSpace.RemotePageAddr | DRackSim-Trace/mmap.cpp:140-159 | The loop computes the first-match page |
| AddrMachine.MemoryPool.ValidateAddr | DRackSim-Trace/mmap.cpp:341-354 | The loop decides the check |
| AddrMachine.RequestRemoteMemory | DRackSim-Trace/mmap.cpp:420-449 | In place, both sides of a request; refused requests change nothing |
| AddrMachine.HandlePageFault | DRackSim-Trace/mem_defs.cpp:467-552 | In place, space, pool, table and fault count become what the fault says; the page is mapped afterwards |
| AddrMachine.ListedSpace.AllocateLocalPage | DRACKSim-Detailed/mmap.cpp:137-145 | In place, the front of the list, which is the counter's page |
| AddrMachine.ListedSpace.AllocateRemotePage | DRACKSim-Detailed/mmap.cpp:148-156 | In place, the front of the list of borrowed pages, which is the counter's page |
| AddrMachine.ListedSpace.FindVictimPage | DRACKSim-Detailed/mmap.cpp:77-90 | In place, a local page if there is one, else -1 and no change |
| AddrMachine.RequestListedMemory | DRACKSim-Detailed/mmap.cpp:455-489 | In place, pushes the new pages and then does what the counter version does |
| AddrMachine.HandleListedFault | DRACKSim-Detailed/TLB_Cache.cpp:1540-1633 | On lists, with the same result as on counters, when the chunk request can be met |
| RackSafety.LendKeeps | DRACKSim-Detailed/mmap.cpp:455-489 | Lending a chunk keeps regions inside their pools, disjoint, and recorded on both sides |
| RackSafety.MapKeeps | DRACKSim-Detailed/TLB_Cache.cpp:1605-1621 | Mapping a page keeps frames handed out and mapped once |
| RackSafety.TouchKeeps | DRackSim-Trace/main.cpp:70-76 | An access (walk, and fault on a miss) keeps the rack's invariant |
| RackSafety.RunKeeps | DRackSim-Trace/main.cpp:66-76 | Every run whose chunk requests can be met keeps it |
| RackSafety.NoAliasing | DRACKSim-Detailed/TLB_Cache.cpp:1319-1373 | After any run, two mapped addresses meet in one 64-byte line of one memory only if node, process and virtual line are the same |
| RackSafety.PoolsAgree | DRACKSim-Detailed/mmap.cpp:376-389 | A borrowed page is found at the pool that lent it, whose table accepts this node's access; other pages have no pool |
| RackSafety.ValidIffLent | DRACKSim-Detailed/mmap.cpp:376-389 | A pool accepts a node's access exactly to the pages of that node's regions |
| RackShare.LocalShare | DRackSim-Trace/mem_defs.cpp:490-503 | In every run a node that has mapped m pages took min(ceil(m/2), local pages) of them locally when even faults go local, min(floor(m/2), local pages) when odd ones do |
| RackShare.TranslationStable | DRackSim-Trace/main.cpp:70-105 | A translation, once made, holds for the rest of the run |
| RackDemand.MappedIffTouched | DRackSim-Trace/main.cpp:66-76 | In every run, requests granted or refused, a page is mapped exactly if it has been touched |
| RackDemand.FaultsAreTouches | DRackSim-Trace/mem_defs.cpp:488-490 | A node has faulted once per page it has touched |
| RackDemand.FrameFollowsOrder | DRackSim-Trace/mem_defs.cpp:490-545 | Every touched page keeps the frame that its number in its node's order of first touches gives, in closed form |
| RackDemand.PickedPoolLends | DRackSim-Trace/mem_defs.cpp:501-516 | In every run an access borrows a chunk exactly if its page is new and due to be borrowed, every borrowed page is used and the picked pool has a chunk: the next pages of that pool; no other node or pool changes |
| RackBorrow.BorrowsOnlyWhenNeeded | DRackSim-Trace/mem_defs.cpp:501 | In every run, requests granted or refused, a node has borrowed whole chunks and less than a chunk more than it uses |
| RackBorrow.BorrowsExactly | DRACKSim-Detailed/TLB_Cache.cpp:1574 | In runs whose requests are met a node has borrowed exactly its borrowed pages in use over the chunk, rounded up |
| RotatingSet.FillPushes | DRACKSim-Detailed/ID_Cache.h:161-179 | A replacement pushes on a queue of the last k fills |
| RotatingSet.NextIsOldest | DRACKSim-Detailed/ID_Cache.h:161-179 | The way whose turn it is holds the oldest fill |
| RotatingSet.FindChooses | DRACKSim-Detailed/ID_Cache.h:141-159 | A search finds a way exactly when the queue has the line, and which one if several match |
| RotatingSet.MarkRenews | DRACKSim-Detailed/ID_Cache.h:141-159 | Marking the found way marks the queue's line |
| CacheSpec.SetHoldsLastFills | DRACKSim-Detailed/ID_Cache.h:105-179 | After any accesses and allocating replacements a set holds each of its last k fills, dirty iff a store hit it since |
| CacheSpec.HitsAgree | DRACKSim-Detailed/ID_Cache.h:141-159 | A store finds, in the cache, the way that holds the m-th fill of the set iff the queue of the last k fills has that line for it |
| CacheSpec.SetHoldsOnlyFills | DRACKSim-Detailed/ID_Cache.h:105-179 | And nothing else |
| CacheSpec.FilledTagsIndexHere | DRACKSim-Detailed/ID_Cache.h:285-289 | Every address whose line was filled into a set indexes to that set |
| CacheSpec.ReplaceReportsOldest | DRACKSim-Detailed/ID_Cache.h:535-557 | A replacement in a full set reports the fill made k fills ago: modified iff a store hit it since, and where the line of the fetched address begins |
| CacheHits.AccessHitsIff | DRACKSim-Detailed/ID_Cache.h:506-529 | After any accesses and replacements an access reports a hit exactly if the line, for the address space, is among the last k fills of its set |
| CacheCapacity.CapacityIsExact | DRACKSim-Detailed/ID_Cache.h:285-289 | After any operations and then fetches of n successive lines an access to the j-th hits exactly if n - j is at most sets times ways: lines spread evenly over the sets |
| CacheHits.MultiHitsIff | DRACKSim-Detailed/ID_Cache.h:429-466 | The j-th report of a multi-line access is a hit exactly if the j-th line is among the last k fills of its set |
| CacheHits.OnlyAllocatingCount | DRACKSim-Detailed/ID_Cache.h:535-557 | Replacements for stores in a cache that does not allocate for them are as if they had not been, all others fill: a run is the run of its effective operations |
| CacheSpec.VictimAddressIsBase | DRACKSim-Detailed/ID_Cache.h:554 | A tag shifted back is the first address of its line, 64-byte aligned, whichever address of the line brought it |
| CacheSpec.MultiTouchesLines | DRACKSim-Detailed/ID_Cache.h:429-466 | A multi-line access touches each line its bytes lie in, once, in order, with a report for each |
| CacheSpec.TwoLinesSuffice | DRACKSim-Detailed/TLB_Cache.cpp:784-791 | At most two reports, exactly when offset and size fit two lines |
| CacheMachine.RoundRobin.constructor | DRACKSim-Detailed/ID_Cache.h:118-131 | An empty set, ways filled from the highest index down |
| CacheMachine.RoundRobin.FindWay | DRACKSim-Detailed/ID_Cache.h:145-155 | The loop finds the highest matching way |
| CacheMachine.RoundRobin.FindAndAccess | DRACKSim-Detailed/ID_Cache.h:141-159 | In place, a store that hits marks its way |
| CacheMachine.RoundRobin.Replace | DRACKSim-Detailed/TLB.h:207-221 | In place, fills the next way and reports what it held |
| CacheMachine.DataCache.AccessSingleCacheLine | DRACKSim-Detailed/ID_Cache.h:506-529 | In place, one access |
| CacheMachine.DataCache.AccessMultiCacheLine | DRACKSim-Detailed/ID_Cache.h:429-466 | In place, the do-while over lines |
| CacheMachine.DataCache.ReplaceLine | DRACKSim-Detailed/ID_Cache.h:535-557 | In place, a replacement; a store into a cache that does not allocate for stores changes nothing |
| CacheMachine.FloorLog2 | DRACKSim-Detailed/TLB.h:22-55 | The position of the highest bit of a 32-bit value, all ones for zero |
| MissTlb.ResolveBacked | DRACKSim-Detailed/TLB_Cache.cpp:696-732 | A resolved miss carries the page table's frame |
| MissTlb.RunBacked | DRACKSim-Detailed/TLB_Cache.cpp:314-391 | In every run TLBs, miss buffers and page faults under way agree with the page table |
| MissTlb.TlbHitsAgree | DRACKSim-Detailed/TLB.h:471-487 | A TLB hit gives the frame that walking the page table gives |
| MissTlb.PendingFramesAgree | DRACKSim-Detailed/TLB_Cache.cpp:314-359 | So does every pending miss and every page fault under way |
| MissHits.TlbHitsIff | DRACKSim-Detailed/TLB.h:471-507 | In every run a lookup in the ITLB or DTLB of a core hits exactly if the page, for the address space, is among the last refills of its set, as many as there are ways, and gives such a refill's frame |
| MissFaults.MemoryIsHistory | DRACKSim-Detailed/TLB_Cache.cpp:327-372 | In every run a page is mapped exactly if a core has asked for it, to the frame of the first answer, and faulting exactly from then until the first clearing at or after the end of its latency, a page fault's or a chunk's |
| MissFaults.WaitsAsExpected | DRACKSim-Detailed/TLB_Cache.cpp:327-359 | In every step of every run the core that asks, and no other, waits for the frame of the first answer until the fault under way ends, or for a walk, or for its own fault |
| MissFaults.PendingsOriginate | DRACKSim-Detailed/TLB_Cache.cpp:696-732 | In every run each translation waited for is the expected one of a step that asked for it |
| MissFlow.StepConserves | DRACKSim-Detailed/TLB_Cache.cpp:632-881 | A step moves accesses between places, and only an issue adds one |
| MissFlow.AccessesConserved | DRACKSim-Detailed/TLB_Cache.cpp:632-881 | Over every run an access is in as many of buffer, DTLB miss buffer, MSHR entries, merge lists, responses and completions as it was issued: exactly one if issued once |
| MissFlow.MshrBounded | DRACKSim-Detailed/TLB_Cache.cpp:672-692 | Over every run, for every size, the MSHR has at most that many entries and one per line, the DTLB miss buffer at most that many and one per page |
| MissLines.MergedOnTheirLine | DRACKSim-Detailed/TLB_Cache.cpp:808-828 | In every run every id merged into an MSHR entry was issued for an access to the entry's line |
| MissBuffer.BufferIsQueue | DRACKSim-Detailed/TLB_Cache.cpp:632-694 | In every run the load/store buffer is the accesses issued, in order, without the first ones, one for each search that takes one |
| MissBuffer.TakenGoesOn | DRACKSim-Detailed/TLB_Cache.cpp:632-694 | Such a search sends its access to the responses for a cache latency, into the MSHR or to the end of the miss buffer, as DTLB and cache answer |
| MissBuffer.PassedIff | DRACKSim-Detailed/TLB_Cache.cpp:651-657 | In every run the next search that finds its access in the DTLB is spent for nothing exactly if a refill has come since the last such one |
| MissBuffer.ServedWithin | DRACKSim-Detailed/TLB_Cache.cpp:734-772 | In every run a translation in place i of the miss buffer lets its access go on, to responses or MSHR, within i + 1 updates with room after it has arrived |
| MissBuffer.FetchServedIff | DRACKSim-Detailed/TLB_Cache.cpp:374-391 | An outstanding fetch waits until its core looks at it in the very cycle its translation is due; then the page is in the ITLB |
| MissBuffer.OverdueFetchIsStuck | DRACKSim-Detailed/TLB_Cache.cpp:378 | So a fetch whose translation was due before waits for ever, in any run whose clocks do not go back |
| MissServe.HitCompletesIff | DRACKSim-Detailed/OOO_core.cpp:679-697 | An access that hits the data cache has completed, once, exactly if a completion step has come a cache latency after the hit or later |
| MissLate.CompletesAllIff | DRACKSim-Detailed/TLB_Cache.cpp:830-881 | A cycle completes every answered miss iff no two answered ones are neighbours in the MSHR |
| MissLate.PassedOverIff | DRACKSim-Detailed/TLB_Cache.cpp:830-881 | With one entry per line, as in every run, an answered miss is left for a later cycle iff an odd number of answered ones lie directly before it; otherwise it completes |
| MissLate.SecondIsPassedOver | DRACKSim-Detailed/TLB_Cache.cpp:874 | Two answered neighbours: only the first completes in this cycle, the second in the next |
| MissLate.CompletesWithin | DRACKSim-Detailed/TLB_Cache.cpp:830-881 | In every run an answered miss in place i completes within i + 1 completion cycles of its core after its answer has arrived, unless it is answered anew |
| MissLate.BoundIsReached | DRACKSim-Detailed/TLB_Cache.cpp:830-881 | For every i there are MSHR contents whose i-th entry, answered from the start, is passed over in i cycles running |
| MissReached.BoundIsMet | DRACKSim-Detailed/TLB_Cache.cpp:632-881 | For every node and every place i of its MSHR a run, clocks never going back, in which a miss in place i is answered and after i completion cycles has not completed: the bound is met |
| MissMachine.Translations.ResolveMiss | DRACKSim-Detailed/TLB_Cache.cpp:696-730 | In place, the walk or fault behind a TLB miss |
| MissMachine.Translations.ExpireFaultEntries | DRACKSim-Detailed/TLB_Cache.cpp:361-372 | In place, drops the faults whose latency has run out |
| MissMachine.LoadStorePath.DcacheMiss | DRACKSim-Detailed/TLB_Cache.cpp:808-828 | In place, merges into the line's entry or opens one |
| MissMachine.LoadStorePath.DtlbSearch | DRACKSim-Detailed/TLB_Cache.cpp:632-732 | In place, the search with its hit, miss and wait cases |
| MissMachine.LoadStorePath.DtlbMshrUpdate | DRACKSim-Detailed/TLB_Cache.cpp:734-772 | In place, the first arrived translation refills the TLB and goes on |
| MissMachine.LoadStorePath.ItlbMiss | DRACKSim-Detailed/TLB_Cache.cpp:314-359 | In place, one outstanding instruction miss |
| MissMachine.LoadStorePath.ItlbMshrUpdate | DRACKSim-Detailed/TLB_Cache.cpp:374-391 | In place, refills the instruction TLB |
| MissMachine.LoadStorePath.UpdateDcacheMshr | DRACKSim-Detailed/TLB_Cache.cpp:830-881 | In place, the scan that erases as it goes and passes over the entry that moves up |
| MissMachine.LoadStorePath.LoadStoreCompletion | DRACKSim-Detailed/OOO_core.cpp:679-697 | In place, completes the responses whose time has come |

## Left out

- OooDrain.DrainBound: is for register instructions, because stores wait for the store queue, whose answers are arbitrary here.
- OooThroughput.StreamCommits: is for register instructions for the same reason, and for an issue width of at least one; with none nothing is ever issued (`OooExact.CycleIssues`).
- OooResults.HistoryIsLegal: is for streams without loads, because with loads the same station can enter a ready queue twice (`DRACKSim-Detailed/OOO_core.cpp:593-600`, `:650-663`).
- OooCore.Core.CommitReady: stops when the re-order buffer is empty, where the source reads slot -1 (`DRACKSim-Detailed/OOO_core.cpp:703-704`).
- OooCore.Core.IssueInstruction: takes the decoded instructions and their due cycles as arbitrary input in place of `decode_ins`, and does not model the address-generation type, which only loads and stores use; register numbers are below the alias table's size.
- OooCore.Core.DependenciesCleared: leaves out memory-read dependencies, since loads are not modelled.
- OooCore.Core.AddToRs: leaves out memory operands and their entries in the address-generation queue.
- OooCore.Core.DispatchAll: leaves out the address-generation branch that keeps the station.
- OooCore.Core.CheckExecuted: leaves out the completion of address generation.
- OooCore.Core.UpdateCore: decode and the stages of the load/store queue are inputs.
- NetSpec.Bump: propagation and the other delays are whole cycles, where the source has a floating-point propagation delay.
- NetClock.NoPacketFallsBehind: assumes that requests carry the cycle in which they are made, as the trace reader's do.
- NetProgress.CrossesIffSomethingFits: says nothing about which packet crosses; `NetArbiter` does, for each cycle. Over time no port is guaranteed a turn: `NetStarve` shows how of two ports one passes the other over.
- NetCapacity.SmallRdmaOverfills: speaks of queue contents that no run need reach; `NetOverfill.PairOverfills` is about runs, of two senders and one receiver.
- NetLatency.DeliveredWithin: begins when a packet has reached its output queue, and `NetEntry.EntersWithin` ends when it has reached its virtual queue; for the wait between the two there is no bound of this kind: a port waits for as long as another keeps its turn (`NetStarve.OtherPortStarves`).
- NetEntry.LeavesWithin: assumes room in the sender's NIC and input port in every cycle of the wait, since a full input port waits for the crossbar.
- NetLone.FloorIsMet: needs room for a packet of any kind at the output, where the admission check wants it.
- NetCredit.CreditSuffices: is sufficient, not necessary; the exact condition, on the run's states, is `NetClock.UpToDateIffNeverBlocked`.
- NetMachine.Network.RemoteMemoryAdd: appends the delivered packets to a list; the memory simulator behind it, the RDMA expansion into 64 line accesses and the delay statistics are not modelled.
- AddrMachine.HandleListedFault: requires that a chunk request made for an unmapped page can be met, because the detailed simulator takes the front of an empty list otherwise, which has no defined meaning.
- RackSafety.NoAliasing: assumes that every chunk request is met, and address spaces of at most 2^36 pages, which is what the page mask of `get_page_addr` keeps.
- RackSpec: the pool that an allocation policy picks is arbitrary; the policies (`round_robin_pool_select` and the others) are not modelled.
- CacheSpec.SetHoldsLastFills: is for accesses and allocating replacements; `CacheHits.OnlyAllocatingCount` extends it to replacements that do not allocate; `Flush` and `Invalidate`, which leave dirty bits as they are, are not in the histories.
- CacheSpec.ReplaceReportsOldest: lines are 64 bytes, as all four caches have them; the source shifts a victim's tag by six bits whatever the line size.
- CacheMachine.DataCache.AccessSingleCacheLine: the cache's sets are values in an array, not objects; the set as an object is `RoundRobin`. Hit and miss counters are not modelled.
- MissServe.HitCompletesIff: is for ids issued once; the latency of a hit is one number, where the source takes the larger of the TLB's and the cache's.
- MissBuffer.ServedWithin: counts only updates that find room in the MSHR or hit the cache.
- MissFaults.WaitsAsExpected: the answers of the page-fault handler, frame, local or not, chunk borrowed or not, are inputs; `RackDemand` has them.
- MissMachine.LoadStorePath.DtlbSearch: whether the data cache hits is an input, and so are the answers of the lower levels; the TLBs are values in its fields; the frame that the page-fault handler hands out is an input here and is computed in `AddrMachine`.
- MissMachine.Translations.ResolveMiss: the frame that the page-fault handler hands out and whether it borrowed a chunk are inputs.
- MissMachine.LoadStorePath.DtlbMshrUpdate: whether the data cache hits is an input.
- MissMachine.LoadStorePath.ItlbMiss: the frame of a page fault is an input.
- MissMachine.LoadStorePath.UpdateDcacheMshr: the data-cache replacement of each completed miss, and the write-back of its victim, are not modelled here; `CacheSpec` has the replacement.
- MissMachine.LoadStorePath.LoadStoreCompletion: completions are collected in a list; the updates of the load/store queue and of waiting stations are not modelled.
- TLB victims: the victim tag is passed by value in the source, so its callers never see it.
- The load/store queue and forwarding, instruction fetch and branch prediction.
- L2 and L3 miss handling and write-backs, which match entries by bare ids while erasing.
- RDMA page transfers and responses; the reverse direction's completion bookkeeping.
- Physical pages shared between nodes, page migration, threads, locks and barriers.
- DRAM timing, the Pin tracers, trace files, statistics and output.
