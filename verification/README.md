# Flow monitor and libbpf type tools: a Dafny model

The model covers four parts of the repository.

* **The flow monitor** (`flujos/src`). A process thread turns packets into flows: it looks a 5-tuple with VLAN up
  in a chained hash table, updates the live flow or opens a new one, keeps an active list ordered by last packet, and
  once a second moves expired flows to a queue. An export thread pops the queue, writes records and returns sessions
  and nodes to two preallocated pools.
* **BTF deduplication** (`btf__dedup` of the vendored libbpf), from the string pass to the remapping of type IDs, on
  possibly cyclic type graphs.
* **The hash map of libbpf** and **the order of definitions in `btf_dump.c`**.
* **The incremental checksum** of `af_xdp_user.c` (section 1 of RFC 1071, section 3 of RFC 1624).

## How the flow monitor is modelled

`FlowState` is a state machine of both threads. A step is one locked section of the program, or one unlocked access to
data the threads share, together with the thread's private work. A schedule is any sequence of events (a packet
arrives, the process thread moves, the export thread moves, shutdown), so every theorem of `FlowTheorems` and
`FlowIntake` holds in every interleaving. `FlowInvariant` is the inductive invariant: an ownership certificate for all
nodes and sessions, the links between the structures, the pools' books, the order of records in time, and what each
program counter knows. The modules `FlowExport` to `FlowRuns` show that every step keeps it.

`FlowState` holds every list as a sequence. The program holds them as circular lists of nodes. `FlowMachine` is the
same machine on those: one memory of `prev` and `next`, a head for each bucket, the active list and the two expired
lists, and two pools with their own wrapper nodes. `Rings` are the pointer writes of `list.c` on such a memory, with
the lemmas that they build the right ring and leave every ring on other nodes alone. `FlowRefinement` proves, step by
step, that the machine represents the state: the ownership certificate says which rings are disjoint. So after every
schedule all lists are well-formed rings and hold what the theorems speak of (`FlowMemory.ListsAreRings`).

Three modules say when the monitor acts, not only that it acts rightly. `FlowTimely`: the cleanup runs in every new
second, so no flow stays on the table more than a second beyond the limit. `FlowDrops`: a frame is dropped exactly when
all sessions but one are held, and every frame is accounted for. `FrameOutcome`: what the parser answers on every
input, read off the bytes.

`FlowMonitor` is the program in its own form: a class whose methods write those pointers, each locked section proved
to do its step of `FlowMachine`, and the functions `cleanup_flows`, `process_packet`, `reset_flow_table` and the loop
of `exportThread` proved to be runs of these steps. `CircularList` and `Pools` are `list.c` and the pools on nodes of
the heap. `FrameParser` is the parser's loop; `FrameEncoding` builds well-formed frames and proves the round trip.
`FlowProgram.Capture` is the whole program on a trace, with one theorem from frames to records.

The reference for flows is `Sessionization`: the packets of a key, cut wherever two neighbours are more than 90
seconds apart. `SegmentsCutExactlyAtGaps` and `SplitIsUnique` show that this is the only such cut.

Assumptions about the environment, all visible in `WellTimed` and `GoodTrace`: packets arrive in order of their
timestamps, the first not before one second, none within 90 seconds of the largest time; one process thread, one
export thread. `INFINITY` stored into an unsigned 64-bit clock is taken as its largest value, as the comment beside it
intends. Pools hold N sessions and 2N nodes, for any N of at least one. A pointer outside its array reads as a default
and writes nothing; the invariant shows that none occurs.

## How deduplication is modelled

Types are records in place; `Unfold` is what a type means: its tree, cut at any depth, every field kept and every
reference followed. Two types mean the same when all their trees agree. The maps of `btf_dedup` are fields of the
class `Dedup`, and its passes are methods with loops and recursion. The central lemma is `BisimulationIsSound`: pairs
recorded by the hypothetical check, together with existing canonical equalities, relate only types with the same
trees. `Btf.Dedup` runs the string pass and the type passes; its contract compares trees with all names spelled out.
`BtfFounded` shows that a successful run leaves no cycle of reference types behind, so success is characterised both
ways. `BtfIndex` puts the candidate table on the hash map of `HashMaps`.

That much would also hold of a pass that merges no struct. `BtfCopies` says when the graph check must succeed: whenever
a function from canonical to candidate types pairs equal shells whose references are equal already or paired again. A
struct stays canonical exactly if no canonical type has such a function to it. Two structs with functions both ways,
as isomorphic ones have, are copies of each other: at most one of them is kept, and where all structs with one tree are
copies of each other, all get one new ID. `BtfSpelledCopies` carries this over the string pass.

## How the order of definitions is modelled

`Dumper` is the recursion of `btf_dump.c` with its states and its queue. `BtfTraversal.Traverse` is what one call
computes, and `TraverseInduction` the induction principle for its properties: what is queued is in order
(`BtfDumpSteps`), when it fails (`BtfOutcome`, in terms of the loops of `BtfLoops`), what can be queued twice and that
nothing is queued without need (`BtfOnce`), and that members are served in the order of their fields (`BtfInOrder`).

## Where the code and its documentation differ

The model follows the code.

* `hashmap.h` says that `hashmap__find` returns the entry inserted last when keys repeat. Growing reverses every chain,
  so this fails on the fourth insertion into a new table (`FindReturnsOldest`), and also for a value stored with SET
  (`FindReturnsOldestAfterSet`); `FindAfterInsert` says exactly when it holds.
* The rule in the comment of `btf_dump_order_type` calls a link weak as soon as a pointer and one named type are on the
  way, which would make its own example (a pointer to an anonymous struct that embeds a named one) weak. The code treats
  that link as strong, and so does `Next`.
* `getIPSession` is documented as stopping the program when no session is left. It returns `NULL` and the packet is
  dropped and counted.
* The comment of `btf_dump_mark_referenced` speaks of types referenced from any other type. The code does not count
  the return type of a function prototype, nor the unused word of a forward declaration (`ReferencedMeans`): the enum
  of `enum { } (*fp)(void)` is treated as a definition of its own (`ReturnedEnumIsTopLevel`).
* A typedef can be put on the emission queue twice; structs, unions and enums cannot. Dumping T of
  `typedef int T(struct S); struct S { T *f; };` queues T, S, T (`TypedefQueuedTwice`). One call queues its typedef
  twice exactly when ordering what it names has ordered it (`QueuedTwice`). On the graph alone: a typedef queued twice
  names a function and leads to itself behind a pointer (`TraverseOnce`). That condition is not sufficient, as it also
  depends on what was dumped before: once a pointer to T was dumped, the same typedef is queued once
  (`TypedefQueuedOnce`).
* A checksum updated to an all-zero message is the other representation of zero (`ReplaceIsFresh`).

## Model

| member | source | states |
|---|---|---|
| FlowTheorems.FlowsAreTheSplit | flujos/src/IPflow.c:272-327 | In every interleaving, for every key, the records written, queued and live are exactly the split of the key's accepted packets at gaps of more than 90 s, with first and last time, packet count and byte sum, though expired duplicates may still be in the bucket. |
| FlowIntake.AcceptedIsIntake | flujos/src/dp.c:330-502 | The accepted packets, with the one in work, are those that arrived and parsed to a flow, in order, with at most as many missing as `unprocessed_packets` counts. |
| FlowIntake.NothingDropped | flujos/src/dp.c:347-357 | If no session was ever missing, the accepted packets are exactly the traffic. |
| FlowIntake.FlowsAreTheTraffic | flujos/src/dp.c:523-562 | Then the records of every key are the split of that key's traffic. |
| FlowDrops.StepDrops | flujos/src/pool.c:81-109 | A step counts a packet as unprocessed exactly when a frame with an Ethernet header is about to be parsed, there is no scratch session, and all sessions but one are held by flows that are live, expired, queued or in the export thread's hand. |
| FlowDrops.DropsAreCounted | flujos/src/pool.c:81-109 | Over any run the counter is the number of times that happened. |
| FlowDrops.NothingDroppedWithRoom | flujos/src/dp.c:347-357 | A run whose flows never hold all sessions but one drops nothing: what is accepted or in work is all that came in. |
| FlowDrops.EveryFrameIsAccountedFor | flujos/src/dp.c:347-502 | In every interleaving the accepted packets are exactly those of the frames that arrived and were not dropped, in order, the malformed ones among them are those counted, and one frame is missing for each drop. |
| FlowTheorems.ExportIsInOrder | flujos/src/IPflow.c:424-441 | The records written come first, and all records, across batches, are in nondecreasing order of last packet. |
| FlowTheorems.CountersAreConserved | flujos/src/IPflow.c:251-253 | Packets and bytes over live, queued and written records equal those accepted, modulo the width of the counters. |
| FlowTheorems.NodesArePartitioned | flujos/src/list.c:293-333 | In every interleaving each node is in exactly one place (free pool, one bucket, active list, expired flags, expired queue, a thread's hand) and in no list twice. |
| FlowTheorems.SessionsArePartitioned | flujos/src/pool.c:81-144 | Each session is in exactly one of the free pool, the scratch variable, the active flows, the expired flags, the expired queue and the exporter's hand, once. |
| FlowTheorems.PoolsNeverFail | flujos/src/IPflow.c:181-197 | No reachable state has a failed `getNodel`, a null dereference or the second loop of `cleanup_flows`: `unprocessed_flows` stays 0 and the session pool keeps its last element. |
| FlowTheorems.WrapperStillHolds | flujos/src/pool.c:96-109 | The session read from the wrapper after the mutex was dropped is the one that was popped. |
| FlowTheorems.StructuresAgree | flujos/src/IPflow.c:199-208 | Active nodes, table nodes and sessions are in bijection through `data` and `active_node`, and every table node is in the bucket of its key. With `ListsAreRings` this is the whole cross-structure invariant. |
| FlowMemory.ListsAreRings | flujos/src/list.c:138-260 | In every interleaving every list of the program is a well-formed circular list, `prev` inverse to `next` and entered at its head: all buckets, the active list and both expired lists over one memory of nodes, and both lists of both pools; they hold what the lists of the state machine hold. |
| FlowMemory.RunRefines | flujos/src/dp.c:523-562 | After every schedule the linked structures represent the state of the state machine. |
| FlowRefinement.StepRefines | flujos/src/IPflow.c:171-441 | Each step of either thread, made with the pointer writes of `list.c`, is the step of the state machine: relinking one list leaves all others intact. |
| FlowMemory.TailMovesToPrev | flujos/src/IPflow.c:353-385 | The node the scan goes on with, read before the tail is unlinked, is the tail afterwards. |
| FlowMemory.RingIsClosed | flujos/src/list.c:138-159 | Walking a list visits its nodes in order and comes back to the head after as many steps as it has nodes. |
| FlowCleared.StepClears | flujos/src/pool.c:121-144 | Every step keeps all unused sessions cleared, in the pool, in the wrappers and in the scratch variable. |
| FlowCleared.ParsesAfresh | flujos/src/dp.c:368-502 | So the parser always starts from a cleared flow, whatever the session held before. |
| FlowTheorems.SearchIsGlobal | flujos/src/IPflow.c:276-324 | Searching one bucket succeeds exactly when some record of the key is unexpired, finds that record, and there is at most one. |
| FlowTheorems.FirstMatchIsNewest | flujos/src/list.c:192-209 | The first match in a bucket is the newest record of its key, written ones included. |
| FlowTheorems.CleanupIsExact | flujos/src/IPflow.c:353-393 | When the scan from the tail stops, exactly the records beyond the limit are off the table and the list. |
| FlowTimely.ExpiryIsTimely | flujos/src/dp.c:249-275 | In every interleaving, whenever the process thread is not cleaning up, no record on the table has been idle for the limit and a second more, and no expired flow is held back from the export queue. |
| FlowTimely.NewSecondCleansUp | flujos/src/dp.c:539-542 | When the first packet of a second comes to be parsed, no record on the table is beyond the limit. |
| FlowTimely.LatePacketRollsBack | flujos/src/dp.c:543-553 | A packet of an earlier second starts no cleanup and moves no flow; whether the next packet starts one depends on the second it set the clock back to. |
| FlowTheorems.FinishedIsClean | flujos/src/export.c:249-281 | Once the export thread has finished, every record is written, the log is the split of the accepted packets, all buckets are empty and all nodes are back in the pool, once each. |
| FlowTheorems.ClosingAlwaysEnds | flujos/src/dp.c:200-211 | After shutdown began, each step of either thread does one unit of the remaining work or nothing, some thread can move until it is done, and then the export thread has finished. |
| FlowRuns.RunHolds | flujos/src/dp.c:523-562 | Every schedule keeps the invariant. |
| FlowRuns.StepKeeps | flujos/src/dp.c:523-562 | Every step of either thread keeps the invariant, given times in order. |
| FlowExport.ExportKeeps | flujos/src/export.c:161-200 | Each step of the export thread keeps the invariant. |
| FlowProcess.ParsingKeeps | flujos/src/dp.c:347-365 | Taking or reusing the scratch session keeps the invariant. |
| FlowProcess.SearchFails | flujos/src/IPflow.c:272-324 | When the bucket has no match, or an expired one, every record of the key anywhere is expired. |
| FlowInsert.UpdateKeeps | flujos/src/IPflow.c:229-260 | Updating a flow and moving it to the front keeps the invariant. |
| FlowOpen.PoolSuffices | flujos/src/IPflow.c:181-197 | With N sessions and 2N nodes at least two nodes are free whenever a flow is opened, also while the exporter has returned a session but not its node. |
| FlowOpen.JoinKeeps | flujos/src/IPflow.c:199-214 | Linking a new flow into bucket, active list and session keeps the invariant. |
| FlowCleanup.ExpireKeeps | flujos/src/IPflow.c:353-385 | Moving the tail flow off the table and the list keeps the invariant. |
| FlowCleanup.StopIsExact | flujos/src/IPflow.c:386-390 | When the tail is live, all live records are. |
| FlowCleanup.SpliceKeeps | flujos/src/IPflow.c:424-441 | Splicing the expired flows into the shared queue keeps the invariant. |
| FlowCleanup.ArriveKeeps | flujos/src/dp.c:523-556 | A packet's arrival keeps the invariant; the wipe of `initData` happens only on empty structures. |
| Sessionization.SegmentsCutExactlyAtGaps | flujos/src/IPflow.c:306-324 | The reference split loses and reorders nothing and cuts exactly at gaps beyond the limit. |
| Sessionization.SplitIsUnique | flujos/src/IPflow.c:306-324 | There is no other such split. |
| Sessionization.AcceptOpening | flujos/src/IPflow.c:171-172 | Opening a record for a packet whose key has only expired records keeps the records the split. |
| Sessionization.AcceptUpdating | flujos/src/IPflow.c:251-253 | Counting a packet in the newest record of its key, still unexpired, keeps the records the split. |
| FlowTypes.CompareTupleFlow | flujos/src/IPflow.c:109-127 | 0 exactly for equal keys. |
| FlowTypes.GetIndex | flujos/src/pool.c:181-188 | The sum in 32-bit arithmetic is a valid index of the table. |
| FlowTypes.DirectionsShareBucket | flujos/src/pool.c:181-188 | Both directions of a connection fall into one bucket. |
| FlowTypes.NextPortNextBucket | flujos/src/pool.c:181-188 | Keys that differ by one in a port fall into neighbouring buckets, unless the 32-bit sum wraps. |
| FlowState.FirstMatch | flujos/src/list.c:192-209 | The first position of the key in a bucket, or its length. |
| FlowMonitor.Monitor.constructor | flujos/src/list.c:269-285 | The pools start full, highest element first, all links empty. |
| FlowMonitor.Monitor.AllocPool | flujos/src/list.c:275-279 | Prepending a wrapper for every element links the pool in descending order. |
| FlowMonitor.Monitor.InitData | flujos/src/dp.c:287-308 | The clocks shift and all structures are emptied. |
| FlowMonitor.Monitor.ArriveSection | flujos/src/dp.c:523-556 | `process_packet` up to the cleanup or the parser is the step `Arriving` of the machine, which represents `Arrive`; `ExpiryIsTimely` and `NewSecondCleansUp` are what that step achieves. |
| FlowMonitor.Monitor.IsExpired | flujos/src/IPflow.c:353-365 | The loop test on the tail of the active list, reached through the head. |
| FlowMonitor.Monitor.ExpireSection | flujos/src/IPflow.c:366-385 | One turn of the scan: the tail is unlinked from its bucket and the active list and appended to the flags, and the scan goes on with what was before it. |
| FlowMonitor.Monitor.SpliceSection | flujos/src/IPflow.c:424-443 | The splice under the mutex and the return to its caller are one step. |
| FlowMonitor.Monitor.CleanupFlows | flujos/src/IPflow.c:340-443 | Run alone, `cleanup_flows` ends, and is a number of steps of the process thread. |
| FlowMonitor.Monitor.GetIPSession | flujos/src/pool.c:81-105 | Takes the first free wrapper, or drops the packet when only one is left, which is when all sessions but one are held (`StepDrops`). |
| FlowMonitor.Monitor.ReadingSection | flujos/src/pool.c:109-109 | Reads the session of the wrapper as it is now. |
| FlowMonitor.Monitor.Search | flujos/src/list.c:192-209 | The walk around the ring of a bucket ends and returns the first node that matches. |
| FlowRefinement.SearchAgrees | flujos/src/list.c:192-209 | Walking the ring finds what searching the sequence finds. |
| FlowMonitor.Monitor.FillingSection | flujos/src/dp.c:368-502 | The parser writes into the flow of the held session, as it is; its outcome ignores, counts as malformed, or inserts the packet, as the step does. |
| FlowMonitor.Monitor.InsertFlow | flujos/src/IPflow.c:272-327 | Search, then update, or open a flow when there is no match or an expired one. |
| FlowMonitor.Monitor.UpdateFlowTable | flujos/src/IPflow.c:229-260 | Counts the packet in 32 and 64 bits, and moves the active node to the front. |
| FlowMonitor.Monitor.GetNodel | flujos/src/list.c:293-313 | The first free node, or -1 when only one is left. |
| FlowMonitor.Monitor.InsertFlowTable | flujos/src/IPflow.c:159-188 | Up to the first `getNodel`: the table node, or the packet is counted as unprocessed. |
| FlowMonitor.Monitor.SecondNodeSection | flujos/src/IPflow.c:191-214 | From the second `getNodel` on: the flow is linked, or the first node is given back. |
| FlowMonitor.Monitor.LinkNew | flujos/src/IPflow.c:197-208 | The new flow is prepended to its bucket and to the active list, and session and node know each other. |
| FlowMonitor.Monitor.ReleaseNodel | flujos/src/list.c:321-333 | The used wrapper carries the node to the end of the free list. |
| FlowMonitor.Monitor.PopSection | flujos/src/export.c:161-173 | Pops the head of the queue, or finishes when it is empty and the thread was told to stop. |
| FlowMonitor.Monitor.WriteSection | flujos/src/export.c:175-181 | Writes the record of the node in hand. |
| FlowMonitor.Monitor.ReleaseSessionSection | flujos/src/pool.c:121-144 | Clears the session and gives it to the wrapper used longest. |
| FlowMonitor.Monitor.Take | flujos/src/dp.c:523-562 | On any event the program does the step of the machine and still represents the state of the state machine. |
| FlowMonitor.Monitor.ProcessPacket | flujos/src/dp.c:523-562 | Run alone, `process_packet` is the arrival and a number of steps, and returns. |
| FlowMonitor.Monitor.ResetFlowTable | flujos/src/dp.c:164-168 | Run alone, the shutdown flushes every flow and stops the threads. |
| FlowMonitor.Monitor.ExportOne | flujos/src/export.c:163-194 | One turn of the export loop writes the record of the head of the queue and takes it off. |
| FlowProgram.RunSchedule | flujos/src/export.c:161-200 | Under any interleaving the imperative program is in the state the linked structures reach, which represents the state of the state machine. |
| FlowProgram.Capture | flujos/src/dp.c:185-230 | From the frames of a trace to the records: the log is the split of the accepted packets, which are all packets of the trace unless a session was missing, and the table ends empty. |
| CircularList.List.Prepend | flujos/src/list.c:138-159 | Relinks so that the node is in front and the list is a ring in both directions. |
| CircularList.List.Append | flujos/src/list.c:171-178 | As Prepend, then the head moves on: the node is last. |
| CircularList.List.Last | flujos/src/list.c:87-96 | The last node, without walking. |
| CircularList.List.Next | flujos/include/list.h:33-33 | The node after, or null after the last. |
| CircularList.List.Prev | flujos/include/list.h:34-34 | The node before, or null before the first. |
| CircularList.List.Search | flujos/src/list.c:192-209 | The first node whose data compares equal, or null if none does. |
| CircularList.List.Unlink | flujos/src/list.c:220-240 | The neighbours are linked to each other, the head moves if it was the node, and the rest keep their order. |
| CircularList.List.PopFirst | flujos/src/list.c:249-260 | Takes the first node off, or null from an empty list. |
| CircularList.List.Splice | flujos/src/IPflow.c:424-440 | Four pointer writes join two rings, the expired flags after the queue; an empty queue takes the list over. |
| CircularList.BypassedIsRing | flujos/src/list.c:226-235 | A ring with one node bypassed is a ring of the others. |
| CircularList.JoinedIsRing | flujos/src/IPflow.c:430-435 | Two lists that lead into each other are one ring. |
| Rings.PrependRing | flujos/src/list.c:138-159 | On indices into one memory: the node becomes the head, and only the nodes of the list are written. |
| Rings.AppendRing | flujos/src/list.c:171-178 | The node becomes the last of the ring; only the nodes of the list are written. |
| Rings.RemoveRing | flujos/src/list.c:220-240 | The ring without the node; only the nodes of the list are written. |
| Rings.PopRing | flujos/src/list.c:249-260 | The head is taken off. |
| Rings.SpliceRing | flujos/src/IPflow.c:424-440 | Two rings become one, in order. |
| Rings.RingFrame | flujos/src/list.c:138-240 | A ring on other nodes than those written is still a ring, entered at the same head. |
| Pools.Pool.constructor | flujos/src/pool.c:48-73 | All elements are free, in reverse order. |
| Pools.Pool.Get | flujos/src/pool.c:81-111 | The first free wrapper becomes the last used one, but the last free element is never given out. |
| Pools.Pool.Release | flujos/src/list.c:321-333 | The wrapper used longest carries the returned element to the end of the free list. |
| FrameParser.ParsePacket | flujos/src/dp.c:368-502 | On every input the tag loop ends, at most one IP header is consumed, and outcome and flow fields are those of the parsing function, which `OutcomeIs` gives in terms of the bytes. |
| FrameOutcome.OutcomeIs | flujos/src/dp.c:368-502 | On every frame with its number of tags: a flow packet, with its key, exactly if it is a datagram with possible lengths that carries TCP or UDP with possible lengths, or ICMP, or has type word 1; malformed exactly if one of these length checks fails or the type word is 6 or 17; else ignored. |
| FrameOutcome.TagsExist | flujos/src/dp.c:397-406 | Every frame has a number of tags. |
| FrameOutcome.TagsAreUnique | flujos/src/dp.c:397-406 | It has only one. |
| FrameOutcome.OtherTypesAreIgnored | flujos/src/dp.c:498-499 | A frame whose type after the tags is none of 0x0800, 1, 6 and 17 is ignored. |
| FrameOutcome.OtherProtocolsAreIgnored | flujos/src/dp.c:498-499 | A datagram with possible lengths of a protocol other than 1, 6 and 17 is ignored. |
| FrameOutcome.FlowsAreTransport | flujos/src/dp.c:452-496 | Every flow packet is of protocol 1, 6 or 17 and has the identifier of the innermost tag. |
| FrameParser.ProcessL4Flow | flujos/src/IPflow.c:462-566 | Ports or ICMP type and code, or malformed by the length checks. |
| FrameEncoding.RoundTrip | flujos/src/dp.c:368-502 | Parsing an encoded frame with any number of tags gives its key with the innermost VLAN identifier, or 65535, exactly when a byte of the transport header was captured. |
| FrameEncoding.ParseTags | flujos/src/dp.c:397-406 | Any number of tags is skipped; the last one leaves its identifier. |
| FrameEncoding.ParseDatagram | flujos/src/dp.c:412-452 | A well-formed IPv4 header is read to its addresses, lengths and protocol. |
| FrameEncoding.ParseSegment | flujos/src/IPflow.c:475-560 | A well-formed TCP (any reserved bits), UDP or ICMP header gives the encoded ports. |
| FrameEncoding.OneIpHeader | flujos/src/dp.c:412-452 | On every input at most one IP header is consumed. |
| BtfFile.Btf.Dedup | flujos/libs/xdp/libbpf/src/btf.c:1223-1268 | Every old type has a new ID that unfolds to the same type tree with the same names, to any depth; the new IDs are dense and in order; the strings are shared and no longer. Of structs that are copies of each other, names spelled out, at most one is kept, and all get one new ID when no other struct has their tree. Where only sections refer to variables, it succeeds exactly when name offsets are good and no cycle consists of reference types only. |
| BtfDedup.Dedup.Run | flujos/libs/xdp/libbpf/src/btf.c:1223-1268 | The passes after the strings keep every type's tree, leave dense IDs in the order of the canonical types and no two equal types; types share an ID exactly if they share the canonical type; of structs that are copies of each other at most one is canonical, and all get one new ID when no other struct has their tree. They succeed only when every cycle passes through a struct or union, and always then if only sections refer to variables. |
| BtfFounded.RanksMeanEnds | flujos/libs/xdp/libbpf/src/btf.c:2533-2538 | Reference types can be ranked, as `Run` needs, exactly when every path along them ends. |
| BtfFounded.CycleHasNoRanks | flujos/libs/xdp/libbpf/src/btf.c:2557-2558 | A cycle of reference types rules ranks out, so the run fails. |
| BtfFounded.EndsThenRanks | flujos/libs/xdp/libbpf/src/btf.c:2548-2654 | When all paths of reference types end, their lengths rank them. |
| BtfDedup.Dedup.constructor | flujos/libs/xdp/libbpf/src/btf.c:1385-1441 | Void, variables and sections are canonical at once, nothing else is mapped. |
| BtfDedup.Dedup.Resolve | flujos/libs/xdp/libbpf/src/btf.c:2099-2104 | Following the canonical map ends, at the canonical type. |
| BtfDedup.Dedup.Canon | flujos/libs/xdp/libbpf/src/btf.c:2099-2104 | The canonical type found has the same tree. |
| BtfDedup.Dedup.IsEquiv | flujos/libs/xdp/libbpf/src/btf.c:2225-2386 | Ends on cyclic graphs; when positive, every pair recorded since the call is justified by its fields and by recorded or canonical pairs; and it is positive whenever a function that agrees with the recorded pairs takes the canonical type to the candidate and pairs equal shells with children equal already or paired again. |
| BtfCanon.BisimulationIsSound | flujos/libs/xdp/libbpf/src/btf.c:2225-2386 | If every recorded pair is justified, related types unfold to the same trees: the pairs are a bisimulation. |
| BtfCanon.RelatedMeansSame | flujos/libs/xdp/libbpf/src/btf.c:2388-2432 | The same, at all depths. |
| BtfCopies.JustifiedEmbeds | flujos/libs/xdp/libbpf/src/btf.c:2225-2386 | A check that succeeds has recorded such a function. |
| BtfCopies.CopyIsSame | flujos/libs/xdp/libbpf/src/btf.c:2106-2224 | A copy has the same tree, to any depth. |
| BtfCopies.IsomorphicAreTwins | flujos/libs/xdp/libbpf/src/btf.c:2106-2224 | Isomorphic types are copies of each other. |
| BtfRenumber.CopiesAreMerged | flujos/libs/xdp/libbpf/src/btf.c:1223-1268 | Where the structs with one tree are copies of each other, they share a canonical type and a new ID. |
| BtfSpelledCopies.CopyAfter | flujos/libs/xdp/libbpf/src/btf.c:1581-1595 | Copies with the same spelled names are copies by name offsets after the string pass. |
| BtfCopies.TwoCopies | flujos/libs/xdp/libbpf/src/btf.c:2475-2502 | The struct `s` of one `int`, twice, is an instance: both get one new ID. |
| BtfCanon.MapOne | flujos/libs/xdp/libbpf/src/btf.c:2093-2104 | Mapping an unmapped type to a canonical one of the same tree keeps the map flat and meaning-preserving. |
| BtfDedup.Dedup.PrimType | flujos/libs/xdp/libbpf/src/btf.c:1991-2072 | Settles a type on an equal canonical one or on itself, keeping map and table sound. |
| BtfDedup.Dedup.MergeHypotMap | flujos/libs/xdp/libbpf/src/btf.c:2388-2432 | Merging justified pairs keeps the canonical map sound, maps only composite types anew, and maps the composite candidate of every pair whose canonical type was settled. |
| BtfDedup.Dedup.FindStruct | flujos/libs/xdp/libbpf/src/btf.c:2475-2502 | The search leaves a struct or union to itself exactly if it is a copy of no canonical type. |
| BtfDedup.Dedup.TryCandidate | flujos/libs/xdp/libbpf/src/btf.c:2475-2490 | The check of one candidate succeeds exactly on a copy of it. |
| BtfDedup.Dedup.StructType | flujos/libs/xdp/libbpf/src/btf.c:2456-2510 | A struct or union not settled yet is mapped to an equivalent candidate exactly if it is a copy of a canonical type; so of two copies never both become canonical. |
| BtfDedup.Dedup.RefType | flujos/libs/xdp/libbpf/src/btf.c:2548-2654 | The recursion ends, keeps all trees, settles the type, and fails only on a cycle of reference types. |
| BtfDedup.Dedup.CompactTypes | flujos/libs/xdp/libbpf/src/btf.c:2682-2725 | Canonical types slide to 1, 2, ... in order, and the numbers are recorded. |
| BtfDedup.Dedup.RemapType | flujos/libs/xdp/libbpf/src/btf.c:2759-2850 | Every reference of a type becomes the new number of its canonical type. |
| BtfRenumber.RemapKeepsMeaning | flujos/libs/xdp/libbpf/src/btf.c:2738-2862 | After compaction and remapping every type has the tree it had. |
| BtfRenumber.ResultIsUnique | flujos/libs/xdp/libbpf/src/btf.c:2538-2547 | No two types of the result that are compared exactly are equal records. |
| BtfTypes.RedirectKeepsMeaning | flujos/libs/xdp/libbpf/src/btf.c:2548-2560 | Redirecting one reference to a type of the same tree changes no type's tree. |
| BtfTypes.EqualIsIdentity | flujos/libs/xdp/libbpf/src/btf.c:1734-1961 | The exact comparisons hold exactly for identical records. |
| BtfTypes.ShallowEqualMeans | flujos/libs/xdp/libbpf/src/btf.c:2262-2320 | What the graph check compares before it follows references is everything else. |
| BtfStringDedup.DedupStrings | flujos/libs/xdp/libbpf/src/btf.c:1609-1722 | Fails exactly when a reference is not to the start of a string; else every reference denotes the same string, is to the start of a stored one, stored strings are distinct and referenced apart from the empty one at 0, and the section is no longer. |
| BtfStringDedup.BuildIndex | flujos/libs/xdp/libbpf/src/btf.c:1624-1644 | One entry per string of the section, in order. |
| BtfStringDedup.Find | flujos/libs/xdp/libbpf/src/btf.c:1555-1574 | The binary search finds the entry at an offset exactly when there is one. |
| BtfStringDedup.MarkAll | flujos/libs/xdp/libbpf/src/btf.c:1653-1657 | Marks every referenced string and no other, or meets a bad reference. |
| BtfStringPass.Emit | flujos/libs/xdp/libbpf/src/btf.c:1662-1701 | Each group of equal strings with a referenced member is written once, and its members know where. |
| BtfStringPass.SortedGroup | flujos/libs/xdp/libbpf/src/btf.c:1659-1680 | In a sorted list, neighbours that differ bound all copies of a string. |
| BtfStringDedup.RenameAll | flujos/libs/xdp/libbpf/src/btf.c:1711-1714 | Rewritten references denote the strings they did. |
| BtfStringDedup.SizePermutes | flujos/libs/xdp/libbpf/src/btf.c:1659-1660 | Sorting does not change the total size of the strings. |
| BtfStrings.SplitIs | flujos/libs/xdp/libbpf/src/btf.c:128-145 | A section that ends with NUL is the concatenation of its strings. |
| BtfStrings.BlobAt | flujos/libs/xdp/libbpf/src/btf.c:1686-1696 | Each stored string is read back at its offset. |
| BtfNames.SpellingSame | flujos/libs/xdp/libbpf/src/btf.c:1581-1595 | Types that differ only in where their names are stored spell the same trees. |
| HashMaps.HashMap.Insert | flujos/libs/xdp/libbpf/src/hashmap.c:142-192 | All four strategies, growth and both allocation failures: result and new contents are those of the abstract table; the load bound is kept, and `CapacityIsLeast` says that the table grows no earlier than that needs. |
| HashMaps.HashMap.Find | flujos/libs/xdp/libbpf/src/hashmap.c:194-206 | The first entry of the key, if any. |
| HashMaps.HashMap.Delete | flujos/libs/xdp/libbpf/src/hashmap.c:208-228 | Removes and returns the first entry of the key, if any. |
| HashMaps.HashMap.Grow | flujos/libs/xdp/libbpf/src/hashmap.c:88-116 | Moves every entry to the chain of its key in a table twice as large, reversing the entries of each key, or fails and changes nothing. |
| HashMaps.HashMap.FindEntry | flujos/libs/xdp/libbpf/src/hashmap.c:118-140 | Looking at one chain is looking at the whole table. |
| HashMaps.HashMap.KeyEntries | flujos/libs/xdp/libbpf/src/hashmap.h:162-168 | The loop over one key visits exactly its entries, in order. |
| BtfIndex.CandidateTable.Candidates | flujos/libs/xdp/libbpf/src/btf.c:1318-1319 | Walking the key of a hash in the hash map visits exactly the candidates with that hash, which is what the passes of `Dedup` ask of their table. |
| BtfIndex.CandidateTable.Add | flujos/libs/xdp/libbpf/src/btf.c:1321-1325 | Appending adds the candidate, or fails for memory and keeps the table. |
| BtfIndex.AppendIndexes | flujos/libs/xdp/libbpf/src/btf.c:1321-1325 | The same on the abstract table, whatever growing does to the order. |
| HashChains.HashBits | flujos/libs/xdp/libbpf/src/hashmap.h:18-22 | The result is a valid bucket and stands for the interval of 64-bit values that the product falls into, that is, its upper bits. |
| HashChains.PushedOf | flujos/libs/xdp/libbpf/src/hashmap.c:104-107 | Pushing all entries to the heads of their chains reverses the entries of each key. |
| HashMapSpec.GrownLoad | flujos/libs/xdp/libbpf/src/hashmap.c:82-97 | After growing there is room for one entry more under the load bound. |
| HashCapacity.CapacityIsLeast | flujos/libs/xdp/libbpf/src/hashmap.c:82-97 | After any run of a new map with successful allocations there is no table if nothing was stored, else the capacity is the least power of two, at least four, of which the largest size ever reached takes at most three quarters. |
| HashMapSpec.RunIsMap | flujos/libs/xdp/libbpf/src/hashmap.c:142-228 | Any run of ADD, SET, UPDATE, find and delete returns what a mathematical map does; insertions that fail for memory change nothing. |
| HashMapSpec.RunHasMemory | flujos/libs/xdp/libbpf/src/hashmap.c:88-97 | When all allocations succeed, no operation of a run reports failing memory before the table is as large as it can be. |
| HashMapSpec.RunIsExactlyMap | flujos/libs/xdp/libbpf/src/hashmap.c:142-228 | Then a run of ADD, SET, UPDATE, find and delete returns exactly what a mathematical map does. |
| HashMapSpec.RunKeepsBags | flujos/libs/xdp/libbpf/src/hashmap.c:88-192 | Over any run, APPEND included, what is stored under a key is what was put and not reported as replaced or deleted. |
| HashMapSpec.RunReverses | flujos/libs/xdp/libbpf/src/hashmap.c:104-107 | While a key is left alone, its entries are reversed once per growth. |
| HashMapSpec.FindAfterInsert | flujos/libs/xdp/libbpf/src/hashmap.h:76-82 | After a successful insertion of any strategy find returns the entry inserted; while the key is then left alone it does so exactly while the table has grown an even number of times since, or the oldest entry is equal. |
| HashCapacity.FindBySizes | flujos/libs/xdp/libbpf/src/hashmap.h:76-82 | The same in sizes only: the bits of the least sufficient capacities for the largest sizes before and since differ by an even number, or the oldest entry is equal. |
| HashMapSpec.FindReturnsOldest | flujos/libs/xdp/libbpf/src/hashmap.h:76-82 | A run of four insertions after which find returns the older of two entries. |
| HashMapSpec.FindReturnsOldestAfterSet | flujos/libs/xdp/libbpf/src/hashmap.h:76-82 | A run that ends in a value stored with SET and one growth, after which find returns another entry. |
| BtfDump.Dumper.DumpType | flujos/libs/xdp/libbpf/src/btf_dump.c:198-233 | Over all calls so far, if none failed: each definition comes after those it needs, no struct, union or enum comes twice and no typedef but reentrant ones, the type asked for is complete, and nothing new is queued but what it leads to. A failure is always ELOOP; it happens exactly when the type leads to a loop of strong links, with one direction only for types that name functions. |
| BtfDump.Dumper.Order | flujos/libs/xdp/libbpf/src/btf_dump.c:403-544 | The recursion ends when every type cycle passes through a struct or union, and computes `Traverse`. |
| BtfTraversal.Traverse | flujos/libs/xdp/libbpf/src/btf_dump.c:403-544 | A call returns 1, 0 or ELOOP, never takes a state or a queue entry back, and when it succeeds leaves the same types in progress. |
| BtfTraversal.TraverseInduction | flujos/libs/xdp/libbpf/src/btf_dump.c:403-544 | What holds of an answer at once, and is kept by the calls and the end of each kind of type, holds of every call. |
| BtfDumpSteps.TraverseKeeps | flujos/libs/xdp/libbpf/src/btf_dump.c:403-544 | On success everything the place needs is queued, in order, and after 1 everything it needs by value. |
| BtfOutcome.SucceedsExactly | flujos/libs/xdp/libbpf/src/btf_dump.c:415-431 | Between calls the outcome depends on the graph alone: a call on a type fails, with ELOOP, exactly when the type leads to a loop of strong links; for a type that names a function, only if it does so counting the parts of prototypes as met by value, and whenever it does so counting them as met behind a pointer. |
| BtfLoops.SameLoopFree | flujos/libs/xdp/libbpf/src/btf_dump.c:350-379 | When structs, unions and prototypes hold functions behind pointers only, the two ways of counting agree on every type that does not itself name a function. |
| BtfOnce.TraverseOnce | flujos/libs/xdp/libbpf/src/btf_dump.c:492-510 | A successful call queues no typedef twice unless it names a function and leads to itself behind a pointer. |
| BtfOnce.QueuesOnlyReached | flujos/libs/xdp/libbpf/src/btf_dump.c:310-327 | What a call queues for the first time is the type asked for, or that type leads to it. |
| BtfInOrder.CallsInOrder | flujos/libs/xdp/libbpf/src/btf_dump.c:448-476 | What a call queues falls into stretches, one for each link in the order of the fields: at the end of its stretch a link has what it needs, and a stretch holds nothing new but what its link leads to. |
| BtfOnce.QueuedTwice | flujos/libs/xdp/libbpf/src/btf_dump.c:492-510 | A typedef is queued twice by its own call exactly when the call for what it names has queued it. |
| BtfTwice.TypedefQueuedTwice | flujos/libs/xdp/libbpf/src/btf_dump.c:492-510 | Six types on which dumping a typedef queues it, a struct, and it again. |
| BtfTwice.TypedefQueuedOnce | flujos/libs/xdp/libbpf/src/btf_dump.c:492-510 | On the same graph, after a pointer to the typedef was dumped, it is queued once. |
| BtfDump.Dumper.OrderTypedef | flujos/libs/xdp/libbpf/src/btf_dump.c:492-510 | Does for a typedef what `Traverse` says. |
| BtfDumpSteps.CloseTypedef | flujos/libs/xdp/libbpf/src/btf_dump.c:492-510 | A typedef is queued after what it names, unless the link is weak, and the queue stays in order. |
| BtfDump.Dumper.OrderComposite | flujos/libs/xdp/libbpf/src/btf_dump.c:448-476 | Does for a struct or union what `Traverse` says. |
| BtfDumpSteps.CloseComposite | flujos/libs/xdp/libbpf/src/btf_dump.c:448-476 | A struct or union is queued after its members, and the queue stays in order. |
| BtfDump.Dumper.MarkReferenced | flujos/libs/xdp/libbpf/src/btf_dump.c:249-307 | A type is marked exactly when `IsReferenced` says so. |
| BtfDump.ReferencedMeans | flujos/libs/xdp/libbpf/src/btf_dump.c:237-307 | That is when some type refers to it, other than a prototype by its return type or a forward declaration. |
| BtfDump.ReturnedEnumIsTopLevel | flujos/libs/xdp/libbpf/src/btf_dump.c:290-297 | An anonymous enum that only a prototype returns is not marked and is queued as a definition. |
| BtfOrder.PartsComeFirst | flujos/libs/xdp/libbpf/src/btf_dump.c:329-348 | In an ordered list each definition comes after every definition it contains by value, through members, arrays, modifiers, typedefs and anonymous structs. |
| BtfOrder.ContainedIsNeeded | flujos/libs/xdp/libbpf/src/btf_dump.c:329-348 | What is part of a type is reached by strong links. |
| BtfOrder.OrderedMeans | flujos/libs/xdp/libbpf/src/btf_dump.c:350-379 | In an ordered list each definition comes after those it needs by strong links, pointers to anonymous structs included. |
| BtfOrder.NeedsByValue | flujos/libs/xdp/libbpf/src/btf_dump.c:368-379 | What is needed through a pointer is needed by value. |
| BtfDumpSteps.AppendOrdered | flujos/libs/xdp/libbpf/src/btf_dump.c:310-327 | Queueing a definition whose needs are queued keeps the order and completes it. |
| Checksum.ReplaceIsFresh | Escenarios 1 y 2/af_xdp_user.c:267-270 | From the fresh checksum of a message, the update is the fresh checksum of the changed message exactly when that has a nonzero word. |
| Checksum.ReplaceIsCongruent | Escenarios 1 y 2/af_xdp_user.c:267-270 | From any checksum a receiver accepts, the update is congruent to a fresh one modulo 65535. |
| Checksum.ReplaceIsAccepted | Escenarios 1 y 2/af_xdp_user.c:267-270 | The receiver accepts the update exactly unless the new message is all zero, save the one case that yields all ones. |
| Checksum.UpdatesAreFresh | Escenarios 1 y 2/af_xdp_user.c:267-270 | Any number of updates keeps the checksum fresh while no message in between is all zero. |
| Checksum.ReplaceSwaps | Escenarios 1 y 2/af_xdp_user.c:254-270 | Updating byte-swapped words gives the byte-swapped update, so no conversion is needed. |
| Checksum.AddIs | Escenarios 1 y 2/af_xdp_user.c:254-260 | 16-bit addition with the wrap-around added back is addition modulo 65535, zero only for two zeros. |
| Checksum.Csum16Add | Escenarios 1 y 2/af_xdp_user.c:254-260 | Computes the end-around sum. |
| Checksum.CsumReplace2 | Escenarios 1 y 2/af_xdp_user.c:267-270 | Writes the update into the packet and nothing else. |

## Left out

- Sockets, poll, affinity, signals, logging, file names, dates and the text of records: input and output. A record is appended to a log.
- The eBPF programs, the recycling of UMEM frames and the `xsk_ring` library, which is not part of this model.
- The timestamp rollback of `process_packet` runs only when packets go back in time; `LatePacketRollsBack` says what it does, and the theorems about runs assume times in order.
- FlowTheorems.CountersAreConserved: modulo 2^32 packets and 2^64 bytes, because the counters wrap there.
- FlowMonitor.Monitor: memory is a sequence of nodes and a pointer is an index into it; a session is one record. `CircularList` and `Pools` have references to heap nodes.
- FlowMonitor.Monitor.FillingSection: what an uncounted packet leaves in the scratch session is not kept, because the next packet clears it before it is parsed.
- FlowMonitor.Monitor.CleanupFlows, `ProcessPacket` and `ExportOne` describe a thread that is not interrupted; `RunSchedule` covers every interleaving of their sections.
- FlowProgram.Capture: one schedule, in which packets are all taken before the final drain; the other theorems hold for every schedule.
- The memory model below the level of locked sections and single reads.
- FrameParser.ParsePacket: bytes beyond the frame buffer read as zero; the MAC addresses are skipped, not stored.
- BtfFile.Btf.Dedup: with `dont_resolve_fwds`, because resolving forward declarations is a heuristic; without `.BTF.ext`; allocations succeed.
- BtfDedup.Dedup: its field for the candidate table is the list of candidates, returned in some order, and adding one succeeds; `BtfIndex.CandidateTable` is that table on the hash map, with failing allocations.
- BtfDedup.Dedup.Run: of copies that share their tree with a struct that is no copy of them, it is only shown that at most one is kept and that each goes to a type of the same tree. When types other than sections refer to variables or sections, which no compiler produces, only the failure on cycles of reference types is stated, not success on the other graphs.
- BtfRenumber.ResultIsUnique: not for structs, unions and forward declarations, which are not compared exactly; the word `size` of a forward declaration is treated as the reference that `btf_dedup_remap_type` takes it for.
- BtfStringPass.Sort: any sorting that permutes; the algorithm of `qsort` is not part of this model.
- HashMaps.HashMap: two keys are equal when their contents are, which any equivalence that the hash respects amounts to; `hashmap__clear` and reuse after it are not modelled.
- BtfDump.Dumper.DumpType: for a type that itself names a function, or when functions occur other than behind pointers, the two halves of the failure condition differ; after a failed call the states are not described; growing the queue succeeds; printing and the names of types are left out.
- BtfOnce.TraverseOnce: one way; the same graph can queue such a typedef once or twice, depending on what was dumped before.
- The order in which the queued definitions are printed when forward declarations are needed (`btf_dump_emit_type`).
