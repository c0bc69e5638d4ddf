# FlashGraph, modelled and verified

FlashGraph runs vertex programs over graphs that lie on disk, level by level. This project
models its hard core in Dafny and proves what the core promises.

* **The level engine** (`LevelState`, `LevelInvariant`, `LevelCore`, `LevelBarrier`, `LevelSteal`,
  `LevelGuard`, `LevelSafety`, `LevelMail`, `LevelRuns`, `LevelTheorems`, `LevelEnds`) is a transition system over
  any number of worker threads. Every worker owns one partition and may steal vertices from every
  other one. A step is one access to shared memory; the interleaving is sequentially consistent. The
  state has the guard, the steal counters and the stolen bitmap of every partition, the vertex
  queues, the message queues, the buffer of messages to stolen vertices, the senders' buffers and
  the counters of the two barriers. `Inv` holds in every reachable state, and the theorems follow.
  `LevelEnds` gives every state a rank that falls with every step that neither waits nor sends.
* **The vertex queue** (`VertexBitmap`, `ActiveVertices`, `VertexQueue`) is the concrete queue behind
  the set `queue` of the level engine: a vector or a bitmap, a scan pointer that runs in either
  direction, a buffer and the list of vertically partitioned vertices. Its contents at the start of a
  level are the same function `Expand` that the level engine uses.
* **Messages** (`MessagePacking`, `MessageSenders`, `MessageBanks`, `MessageRouting`,
  `MessageDispatch`): buffers are arrays of words, into which packets are written and in which the last
  packet grows in place. A vertex program holds two senders of multicasts and two of point-to-point
  messages for every partition; a sender is open or closed, and every call is proved to find the
  senders it uses in the state they have to be in.
* **Striping** (`Striping`, `RangePartitioner`, `NumaMapper`, all in `Striping.dfy`).
* **The vertex index** (`CompressedIndex`, `IndexBatching`) and **self requests** (`SelfRequests`,
  `SelfCompute`): one reference, the plain table of offsets, for the three builders, the lookups, the
  batches, the I/O requests and the bytes that come back.
* **The page cache** (`ClockEviction`, `HashCell`, `LinearHash`, `CachePage`) and **paged reading**
  (`PagedBytes`).

Where the code and its own assertions or comments disagree, the model follows the code, and a lemma
says exactly when the promise holds:

* The bitmap fetch asked for 1 to 63 vertices never moves its scan pointer and so never ends
  (`ActiveVertices.ScanMoves`). The queue always asks for more.
* GCLOCK and CLOCK may return no page although an unreferenced one exists, because referenced pages
  are counted over several sweeps. The loop has two phases: it avoids dirty pages until the hand has met
  referenced and dirty pages as often as there are pages, and then starts counting anew. None is returned
  exactly when in neither phase an unreferenced page runs out of hits before the hand has met the pages
  to pass over as often as there are pages (`ClockEviction.GClock.EvictPage`,
  `ClockEviction.Clock.EvictPage`); four calls end so, with and without a dirty page
  (`ClockEviction.NullThoughFree`, `ClockEviction.NullThoughDirty`, and the same for CLOCK). A cell
  without references always yields a victim.
* The alignment that the sequential iterator asserts keeps elements within pages exactly when the
  element size divides the page size or the range ends no later than the second page boundary after its
  start
  (`PagedBytes.AssertedFitsIff`, `PagedBytes.AssertedDoesNotFit`).
* A start list with repetitions is queued as it is: a vertex listed twice is handed out twice, and if it
  is vertically partitioned it is handed out as a whole besides its parts. Every item is handed out once
  if and only if no vertex is listed twice (`VertexQueue.StartOnceIff`, `VertexQueue.FetchStart`,
  `VertexQueue.GivenTwice`).
* The global count of remaining vertices covers the queues' contents except between the first barrier
  and the decision at the second one, when the new queues are filled but not yet counted
  (`LevelTheorems.RemainingCoversIff`). It falls short at the end of every level but the last
  (`LevelTheorems.CountBehind`), and there is a run in which that happens (`LevelEnds.SomeCountBehind`).
* Listing the vertices of a part wraps around in 32 bits: the loop never ends exactly when a range of the
  part begins in the last stripe of the 32-bit numbers and before the number of vertices
  (`RangePartitioner.EndlessIff`, `RangePartitioner.EndlessInput`).
* Adding a destination to a multicast ignores whether there is room for it in the new buffer; there is
  exactly when the body leaves some, and otherwise the place it writes to is the end of the buffer
  (`MessageSenders.MulticastSender.AddDest`).
* A flush message closes the activation sender of its partition. The next activation finds it open if and
  only if no flush message has gone to that partition since the last flush of all messages
  (`MessageRouting.VertexProgram.CanActivateIff`, `MessageRouting.Calls`,
  `MessageRouting.FlushThenActivate`).
* When a cell is split and a half has too few pages, the halves are merged back under the assertion that
  one cell can hold both. Free pages are supplied up to a fixed minimum of 8, while the size that is
  asked for is a parameter, by default 12: with a size over 8 no cell is ever split, and the assertion can
  fail for every cell of more than 8 pages. With size 8 it can fail for cells of 10 to 15 pages, with
  size 7 for cells of 11 to 13 pages, and otherwise not (`LinearHash.SplitCell`,
  `LinearHash.HalvedWhen`, `LinearHash.MergeFitsIff`).
* A page in use stays behind when its cell is split, where no lookup finds it. After a split every page is
  where a lookup goes for it if and only if no page that has to move is in use
  (`LinearHash.SplitPlacedIff`, `LinearHash.SplitNext`).
* The streaming index builder agrees with the other two exactly on graphs that have vertices
  (`CompressedIndex.BuildersAgreeIff`).
* The directed degree builder asserts that in-part and out-part have the same size. For equal numbers
  of in- and out-edges this holds for all degrees if and only if edge data take 0 or 4 bytes
  (`CompressedIndex.PartsSameIff`).
* The loop over a message buffer takes the first message of a batch as representative of all. When that
  is a point-to-point message, the messages handled are those sent if and only if the batch holds no
  multicast (`MessageDispatch.SinglesRightIff`, `MessageDispatch.MixedBatchGoesWrong`). However the flushes of the senders interleave, no buffer in a
  receiver's queue is mixed (`MessageDispatch.InterleavedHomogeneous`).

## Model

| member | source | states |
|---|---|---|
| LevelRuns.InvStep | flash-graph/message_processor.cpp:128-273 | the invariant of the engine (who holds which vertex, what the bits and counters say, where every message is) is kept by every step of every worker and by both barriers |
| LevelRuns.InvOnRuns | flash-graph/worker_thread.cpp:505-650 | the invariant holds in every state of every run, whatever the interleaving and the number of workers |
| LevelTheorems.MessageExclusion | flash-graph/message_processor.cpp:91-273 | in no reachable state does the owner run a vertex on a message while a thief past steal_vertices still has that vertex, neither from the message queue nor in the unguarded replay |
| LevelTheorems.Exclusion | flash-graph/steal_state.h:82-121 | the same from the invariant alone, for any two workers |
| LevelTheorems.OneHolder | flash-graph/load_balancer.cpp:53-78 | no vertex and no vertical part is ever in the hands of two workers |
| LevelTheorems.NoWaitChains | flash-graph/message_processor.cpp:230-260 | a thread inside steal_vertices has its own guard even, so no thread waits for one that waits |
| LevelTheorems.Progress | flash-graph/message_processor.cpp:230-260 | as long as some worker has not stopped, some step is enabled: the spin loops and barriers never deadlock |
| LevelEnds.RankFalls | flash-graph/worker_thread.cpp:505-650 | every step of a worker lowers the rank of the state (items to run, distance from the barrier, loops, messages at hand), unless a vertex sends or the worker takes another round to wait |
| LevelEnds.NoEndlessLevel | flash-graph/worker_thread.cpp:505-650 | in an endless run, again and again a level ends, or a vertex sends, or a worker takes another round because others still have vertices, its own still run, or it leaves its queue alone |
| LevelEnds.LevelCanEnd | flash-graph/graph_engine.cpp:1001-1041 | from every reachable state the level can be brought to its end by steps that neither wait nor send |
| LevelEnds.EngineCanStop | flash-graph/graph_engine.cpp:1001-1041 | from every reachable state, without another message sent, the engine can be brought to a stop, at the latest with the next level |
| LevelTheorems.FetchedOnce | flash-graph/worker_thread.cpp:505-536 | two fetches of the same item, by owner or thief, are separated by the second barrier |
| LevelTheorems.RemainingExact | flash-graph/graph_engine.h:637-648 | before the first barrier the global count is exactly the sum of all queue counts and of all batches not yet subtracted |
| LevelTheorems.RemainingCoversIff | flash-graph/graph_engine.h:637-648 | in every reachable state: the global count is at least the sum of the queue counts if and only if the level is not past its first barrier, or the next one is decided, or all queues are empty; once decided the two are equal |
| LevelTheorems.CountBehind | flash-graph/graph_engine.cpp:1001-1041 | in every level but the last, just before the second barrier opens, the global count falls short of the sum of the queue counts |
| LevelEnds.SomeCountBehind | flash-graph/graph_engine.cpp:1001-1041 | there is a run, of one worker and one activation, that reaches such a state |
| LevelTheorems.RemainingCovers | flash-graph/graph_engine.h:637-648 | before the first barrier the global count is at least the sum of the queue counts, with equality if and only if no worker is between its fetch and process_vertices |
| LevelTheorems.AtFirstBarrier | flash-graph/worker_thread.cpp:591-625 | when all workers are at the first barrier, every active item has been fetched, accounted for and completed, num_stolen equals num_returned everywhere and no stolen bit is set |
| LevelTheorems.LootBack | flash-graph/steal_state.h:113-121 | from the first barrier on, the vertices taken from a partition and those given back are the same, one by one |
| LevelTheorems.DeliveredOnce | flash-graph/worker_thread.cpp:538-565 | when a worker resets its message processor, each pair of message and destination sent to it has been applied exactly as often as it was sent, directly or after any number of times in the stolen-vertex buffer, and both buffers and all senders' buffers for it are empty |
| LevelTheorems.NeverTwice | flash-graph/message_processor.cpp:177-208 | at no time has a pair been applied more often than sent |
| LevelTheorems.NextLevelActive | flash-graph/graph_engine.cpp:1001-1041 | is_complete becomes true exactly when no message of the level activates any vertex; otherwise the next level starts with exactly the activated vertices, expanded into vertical parts, and a global count to match |
| LevelTheorems.AssertionsHold | flash-graph/load_balancer.cpp:80-133 | in no run does one of these assertions fail: the count before process_vertices, the totals at the end of an iteration, the owner of each returned vertex, no completed vertex left after the loop that returns them, the emptiness of queue, loot and message buffers at reset, the zero count at the second barrier |
| VertexBitmap.Bitmap.Set | flash-graph/bitmap.h:136-145 | adds one element and keeps the count of set bits exact |
| VertexBitmap.Bitmap.Reset | flash-graph/bitmap.h:125-134 | removes one element and keeps the count exact |
| VertexBitmap.Bitmap.Get | flash-graph/bitmap.h:147-152 | membership |
| VertexBitmap.Bitmap.Clear | flash-graph/bitmap.h:154-158 | empties the set |
| VertexBitmap.Bitmap.GetResetSetBits | flash-graph/bitmap.h:212-233 | lists the elements of a range in increasing order, removes exactly those, zeroes exactly the words of the range |
| VertexBitmap.MoveSplits | flash-graph/scan_pointer.h:61-71 | in either direction a move splits what was to be scanned into the part passed over and the part still to come |
| ActiveVertices.ActiveVertexSet.ActivateVertices | flash-graph/worker_thread.h:96-107 | vector or bitmap, the contents grow by exactly the given vertices |
| ActiveVertices.ActiveVertexSet.ActivateVertex | flash-graph/worker_thread.h:84-94 | the same for one vertex |
| ActiveVertices.ActiveVertexSet.ForceBitmap | flash-graph/worker_thread.h:127-130 | changing the representation leaves the contents alone |
| ActiveVertices.ActiveVertexSet.Finalize | flash-graph/worker_thread.h:116-125 | removes duplicates without changing the contents; afterwards the number reported is the number of vertices |
| ActiveVertices.ActiveVertexSet.FetchReset | flash-graph/worker_thread.cpp:50-74 | returns distinct vertices and removes exactly those; returns none only when asked for none or when the set is empty |
| ActiveVertices.SortUniqueIs | flash-graph/worker_thread.h:116-125 | sorting and dropping repetitions yields an increasing list of the same elements |
| ActiveVertices.ScanMoves | flash-graph/worker_thread.cpp:62-69 | the scan of the bitmap moves exactly when at least a word's worth of vertices is asked for and something is left |
| VertexQueue.SplitVertices | flash-graph/worker_thread.cpp:76-116 | walking along two sorted lists takes one entry of each vertically partitioned vertex out of the vertices and lists it once; all other entries stay, repetitions included |
| VertexQueue.DefaultVertexQueue.InitStart | flash-graph/worker_thread.cpp:118-143 | for any start list: the queue of the first level holds each item as often as the list gives it (StartTimes), and the count is exact |
| VertexQueue.StartOnceIff | flash-graph/worker_thread.cpp:118-143 | this is each unpartitioned vertex once and each vertically partitioned one once per part, and nothing else, if and only if no vertex is listed twice |
| VertexQueue.GivenTwice | flash-graph/worker_thread.cpp:76-143 | the shortest failing list: a vertex listed twice is queued twice, or besides its parts also as a whole |
| VertexQueue.DefaultVertexQueue.InitLevel | flash-graph/worker_thread.cpp:145-189 | the same for the set activated for the next level; the set used so far is handed back empty |
| VertexQueue.DefaultVertexQueue.Fetch | flash-graph/worker_thread.cpp:223-263 | hands out items of the queue, each no more often than it is there, removes exactly those, keeps num_active exact, and returns nothing if and only if nothing was asked for or the queue was empty |
| VertexQueue.DefaultVertexQueue.FetchLocked | flash-graph/worker_thread.cpp:229-262 | the critical section, also for a caller whose unlocked test of num_active is out of date |
| VertexQueue.FetchAll | flash-graph/worker_thread.cpp:191-263 | over any schedule of fetches, what is handed out and what is left are together what there was; after enough of them everything has been handed out |
| VertexQueue.FetchLevel | flash-graph/worker_thread.cpp:145-263 | from a level's activated vertices no item is handed out twice, and after enough fetches exactly the expansion of the set has been |
| VertexQueue.FetchStart | flash-graph/worker_thread.cpp:118-263 | from a start list, once the queue is empty, every item has been handed out exactly once if and only if no vertex was listed twice |
| MessagePacking.RoundTrip | flash-graph/messaging.h:292-365 | a packet read back from anywhere in a buffer is the packet written |
| MessagePacking.ParseLayout | flash-graph/messaging.h:111-121 | a reader who steps over the sizes found in a buffer gets exactly the packets laid out in it |
| MessagePacking.Message.Add | flash-graph/messaging.h:123-132 | adds a packet behind the others or reports that it does not fit; the sizes always sum up to the add offset |
| MessagePacking.Message.AddDests | flash-graph/messaging.h:473-485 | growing the last packet in place appends destinations to it and changes nothing else |
| MessagePacking.Message.RemoveLast | flash-graph/messaging.h:156-164 | takes out exactly the last packet |
| MessagePacking.Message.GetNext | flash-graph/messaging.h:111-121 | returns the next packets in order and leaves the others |
| MessageSenders.SimpleSender.SendCached | flash-graph/messaging.h:221-290 | over any number of overflows, reading all buffers handed over and the current one yields exactly the pairs sent, in order; the same for the buffer of messages to stolen vertices |
| MessageSenders.SimpleSender.Flush | flash-graph/messaging.h:250-270 | hands the buffer over without changing what has been sent in all |
| MessageSenders.MulticastSender.Init | flash-graph/messaging.h:532-546 | opens a multicast without destinations on a closed sender, which sends nothing yet |
| MessageSenders.MulticastSender.AddDest | flash-graph/messaging.cpp:44-62 | sends exactly one pair more, also when the buffer is full and the template is written again; there is room exactly if the buffer has some or the template does not fill an empty one, and without room the id goes to the end of the buffer |
| MessageSenders.MulticastSender.AddDests | flash-graph/messaging.cpp:64-93 | sends the body to exactly the given destinations, in order, over any number of overflows; exactly when they do not fit and the template fills an empty buffer, the assertion that one fits fails |
| MessageSenders.MulticastSender.EndMulticast | flash-graph/messaging.h:552-561 | removes a multicast that got no destination, and changes no pair |
| MessageSenders.MulticastSender.Flush | flash-graph/messaging.cpp:25-42 | hands over a buffer that holds multicasts only and closes the open one |
| MessageSenders.Follow | flash-graph/messaging.h:532-561 | over any history of operations that the protocol of opening and closing allows, the sender has sent what the history says and is open or closed as it says |
| MessageBanks.SenderBank.Do | flash-graph/vertex_program.cpp:51-75 | an operation on one of many senders changes what that sender has sent and its state, and no other sender |
| MessageDispatch.ProcessMsg | flash-graph/message_processor.cpp:128-175 | batch by batch, every pair of a homogeneous buffer has the effect it deserves: run, put aside because its vertex is stolen, or activation only |
| MessageDispatch.ProcessMulticast | flash-graph/message_processor.cpp:91-126 | treating a multicast as a whole, or destination by destination, has the effect of its pairs one by one |
| MessageDispatch.RunOrKept | flash-graph/message_processor.cpp:39-89 | every pair is run or put aside exactly as often as it occurs, and put aside only if its vertex is stolen |
| MessageDispatch.ConversionKeepsBody | flash-graph/message_processor.cpp:60-89 | a multicast put aside becomes the bytes of a point-to-point message with the same body |
| MessageDispatch.SinglesRightIff | flash-graph/message_processor.cpp:139-168 | a batch read as point-to-point messages: the messages run and put aside are those sent if and only if it holds no multicast, and then the effect is that of its pairs |
| MessageDispatch.MixedBatchGoesWrong | flash-graph/message_processor.cpp:139-168 | the shortest such batch with a multicast after a point-to-point message handles other messages than were sent |
| MessageDispatch.InterleavedHomogeneous | flash-graph/messaging.h:250-270 | a receiver's queue fed by the flushes of any number of senders of either kind and by the buffer of messages to stolen vertices, in any interleaving, has no buffer of mixed messages |
| MessageDispatch.ProcessQueue | flash-graph/message_processor.cpp:128-175 | processing such a queue, buffer by buffer and batch by batch, has the effect of its pairs one by one |
| MessageDispatch.EachQueuedOnce | flash-graph/message_processor.cpp:39-175 | over such a queue each pair any sender has put into a buffer is run or put aside exactly as often, and put aside only if its vertex is stolen |
| MessageRouting.BucketTimes | flash-graph/partitioner.cpp:91-102 | a vertex is in the bucket of its partition, at its local offset, as often as in the list |
| MessageRouting.VertexProgram.Create | flash-graph/vertex_program.cpp:51-75 | new senders: nothing sent, the activation senders open, the multicast senders closed |
| MessageRouting.VertexProgram.MulticastMsg | flash-graph/vertex_program.cpp:77-137 | point to point or in buckets, every listed vertex gets the body exactly as often as it is listed, no other vertex does, the buckets are empty again, and each multicast finds its sender closed and leaves it closed |
| MessageRouting.VertexProgram.ActivateVertices | flash-graph/vertex_program.cpp:166-247 | one by one or in buckets, with or without the direct way for own vertices, exactly the listed vertices are activated, the buckets are empty again, and every sender used is open |
| MessageRouting.VertexProgram.SendMsg | flash-graph/vertex_program.cpp:139-164 | for every body that fits into a buffer, one pair more for one vertex; a flush message first hands in all that waits for the partition and closes its activation sender |
| MessageRouting.VertexProgram.FlushMsgs | flash-graph/vertex_program.cpp:249-260 | everything is handed in, nothing more is sent, and all activation senders are open again |
| MessageRouting.VertexProgram.CanActivateIff | flash-graph/vertex_program.cpp:139-247 | an activation finds its sender open if and only if no flush message has gone to the partition since the last flush_msgs, or the worker activates the vertex directly |
| MessageRouting.Calls | flash-graph/vertex_program.cpp:77-260 | after any history of calls every vertex has been sent each body, and activated, as often as the calls say, and the senders are open and closed as the next call needs them |
| MessageRouting.FlushThenActivate | flash-graph/vertex_program.cpp:139-199 | after a flush message to a vertex, no vertex of its partition can be activated but directly |
| Striping.LocToIdToLoc | flash-graph/partitioner.h:145-163 | every location has one id, which maps back to the location |
| Striping.IdToLocToId | flash-graph/partitioner.h:145-163 | every id has one location, which maps back to the id |
| Striping.BelowIff | flash-graph/partitioner.h:168-176 | the ids below n of a part are exactly those at the first Len offsets |
| Striping.LengthsSum | flash-graph/partitioner.h:168-176 | the sizes of all parts sum up to n |
| RangePartitioner.GetPartEnd | flash-graph/partitioner.cpp:56-79 | although the subtraction wraps below zero in size_t, the end of the part is right |
| RangePartitioner.GetPartSize | flash-graph/partitioner.h:168-176 | the size of the part, wrap-around of the last range included |
| RangePartitioner.GetAllVerticesInPart | flash-graph/partitioner.cpp:42-54 | when the loop ends, it lists exactly the ids of the part, the i-th having local offset i, although the last step may wrap |
| RangePartitioner.EndlessIff | flash-graph/partitioner.cpp:42-54 | the 32-bit start of the loop never reaches the end of the part if and only if tot + stripe width > 2^32 + part times range size |
| RangePartitioner.EndlessInput | flash-graph/partitioner.cpp:42-54 | four parts and 2^32 - 4095 vertices: for part 0 the start is back where it began after a round and the loop does not end, for part 1 it ends |
| RangePartitioner.MapAll | flash-graph/partitioner.cpp:91-102 | each bucket gets the local offsets of its vertices, in order |
| NumaMapper.CalLocalLengths | libsafs/NUMA_mapper.cpp:22-37 | walking back from the last range yields the length of every node |
| NumaMapper.RangeStart | libsafs/NUMA_mapper.h:62-69 | where the first element of a range is |
| NumaMapper.LastLen | libsafs/NUMA_mapper.cpp:22-37 | the length of the node that holds one of the last ranges |
| CompressedIndex.SizeUndone | flash-graph/vertex.h:498-528 | the number of edges is recovered from the size in spite of the padding |
| CompressedIndex.BuildFromTable | flash-graph/vertex_index.cpp:621-648 | from a table of offsets: the entries and the list of large vertices that the degrees determine |
| CompressedIndex.BuildFromDegrees | flash-graph/vertex_index.cpp:673-718 | from degrees: the same entries and the same list |
| CompressedIndex.StreamingBuilder.AddVertex | flash-graph/vertex_index_constructor.cpp:219-236 | vertex by vertex, the state stands for the degrees seen so far |
| CompressedIndex.StreamingBuilder.Finalize | flash-graph/vertex_index_constructor.cpp:192-217 | the same list as the others, and the same entries if and only if there is a vertex |
| CompressedIndex.BuildersAgreeIff | flash-graph/vertex_index_constructor.cpp:192-202 | the streaming builder agrees with the others if and only if there is a vertex |
| CompressedIndex.EntryFromOffsets | flash-graph/vertex_index.cpp:244-261 | one entry from offsets, degrees of 255 and above included |
| CompressedIndex.EntryFromDegrees | flash-graph/vertex_index.cpp:263-275 | one entry from degrees |
| CompressedIndex.GetNumEdges | flash-graph/vertex_index.h:701-714 | the degree of every vertex, large or not |
| CompressedIndex.GetVertex | flash-graph/vertex_index.cpp:340-350 | the offset of every vertex: the header and the sizes of all earlier vertices |
| CompressedIndex.LargeFound | flash-graph/vertex_index.cpp:303-326 | the overflow map has exactly the vertices of 255 or more edges, with their degrees |
| CompressedIndex.LoadIndex | flash-graph/vertex_index.cpp:303-326 | the index in memory, loaded from the entries and the list of large vertices, stands for the degrees they were built from |
| CompressedIndex.BuildDirectedFromDegrees | flash-graph/vertex_index.cpp:556-619 | the out-part lies behind the in-part, and the asserted equality of the sizes holds |
| CompressedIndex.FinalizeDirected | flash-graph/vertex_index_constructor.cpp:292-313 | moving the out-offsets behind the in-part gives the same entries |
| CompressedIndex.PartsSameIff | flash-graph/vertex_index.cpp:556-619 | equal edge totals make parts of equal size for all degrees if and only if edge data take 0 or 4 bytes |
| CompressedIndex.PartsSameSize | flash-graph/vertex_index.cpp:556-619 | the sizes for 0 and 4 bytes |
| CompressedIndex.PartsDiffer | flash-graph/vertex_index.cpp:556-619 | for edge data of 1 or 2 bytes, or of a multiple of 8, there are degree lists with equal totals and parts of different sizes |
| IndexBatching.IndexIterator.MoveNext | flash-graph/vertex_index_reader.h:193-222 | the offsets of the next vertex |
| IndexBatching.IndexIterator.MoveTo | flash-graph/vertex_index_reader.h:224-237 | the offsets of the vertex jumped to, or false behind the end |
| IndexBatching.DenseBatch.AddVertex | flash-graph/vertex_index_reader.h:599-618 | takes the next consecutive vertex or refuses and changes nothing |
| IndexBatching.DenseBatch.Run | flash-graph/vertex_index_reader.h:620-629 | walks the index: one answer for each vertex of the batch, and the batch reports that it is done |
| IndexBatching.GeneralBatch.AddVertex | flash-graph/vertex_index_reader.h:773-797 | takes a vertex on the same or the next page or refuses and changes nothing |
| IndexBatching.GeneralBatch.Run | flash-graph/vertex_index_reader.h:799-817 | jumps to each vertex: one answer each, gaps and repetitions included |
| IndexBatching.GeneralBatch.RunFrom | flash-graph/vertex_index_reader.h:730-817 | a run that starts inside the batch answers exactly the vertices of the batch in the range of its iterator, and reports the batch done when all have been answered |
| IndexBatching.ProcessDense | flash-graph/vertex_index_reader.cpp:214-253 | wherever batches end, each request gets its own answer |
| IndexBatching.ProcessGeneral | flash-graph/vertex_index_reader.cpp:214-253 | the same for batches with gaps and repetitions |
| IndexBatching.FlushComputes | flash-graph/vertex_index_reader.cpp:370-400 | for every list of requests, in any order, and whichever way is taken: one callback for each, with the offset and size a lookup of its own would give |
| SelfRequests.RequestVertices | flash-graph/vertex_index_reader.h:1163-1170 | distinct ids, in any order, become disjoint ranges that cover exactly those ids |
| SelfRequests.SortProper | flash-graph/vertex_index_reader.cpp:257-270 | sorting disjoint ranges by their first id puts them in order and covers the same ids |
| SelfRequests.MergeRanges | flash-graph/vertex_index_reader.cpp:264-288 | writing merged ranges back over those already read covers the same ids, with no two ranges left that touch |
| SelfRequests.ProcessSelfRequests | flash-graph/vertex_index_reader.cpp:290-332 | however ranges are grouped into index requests, the I/O requests are for exactly the requested ids |
| SelfRequests.PlanSparse | flash-graph/vertex_index_reader.cpp:624-698 | ranges are merged into I/O requests only over small gaps, in the in-part and the out-part alike, and each range is in exactly one |
| SelfRequests.GapBound | flash-graph/vertex_index_reader.cpp:611-616 | fewer than merge_gap + 2 pages are skipped between two merged ranges |
| SelfRequests.ListCovered | flash-graph/vertex_index_reader.cpp:576-600 | every requested adjacency list lies within the bytes of its request |
| SelfRequests.SerializedAt | flash-graph/vertex_index.h:265-269 | the offsets of serialized vertices are those of the offset table |
| SelfCompute.RequestAndRun | flash-graph/vertex_compute.cpp:242-482 | for every list of distinct ids: each requested vertex runs exactly once, on its own bytes of each part, and no other vertex runs |
| SelfCompute.DirectedCompute.Run | flash-graph/vertex_compute.cpp:449-482 | the first array is kept; with the second one in- and out-list of the same vertex run together, in either order of arrival |
| SelfCompute.RunRange | flash-graph/vertex_compute.cpp:388-414 | stepping over the sizes found in the bytes meets every vertex of a range at its own bytes |
| SelfCompute.RunRangeBoth | flash-graph/vertex_compute.cpp:416-447 | the same for two arrays side by side |
| SelfCompute.OwnBytes | flash-graph/vertex_compute.cpp:365-386 | a vertex's own bytes begin with its header and have the size the header says |
| SelfCompute.RunOrder | flash-graph/vertex_index_reader.cpp:264-332 | merged ranges list exactly the requested ids, each once |
| ClockEviction.GClock.EvictPage | libsafs/associative_cache.cpp:765-805 | ends within 2n plus the sum of hits probes; a returned page is unreferenced; none is returned exactly when neither phase of the loop finds a page in time, and otherwise the victim is the page of the least score of the phase that finds one; with all pages referenced it returns none and leaves the hits, with none referenced it returns a page |
| ClockEviction.EvictRankedFirst | libsafs/associative_cache.cpp:742-805 | without references and dirty pages the victim is the page that assign_flush_scores ranks first, and every page has lost as many hits as the hand has passed it |
| ClockEviction.AssignFlushScores | libsafs/associative_cache.cpp:742-763 | ranks exactly the valid pages by hits times n plus the distance from the hand |
| ClockEviction.ScoresDiffer | libsafs/associative_cache.cpp:742-763 | no two pages have the same score |
| ClockEviction.ScoreLater | libsafs/associative_cache.cpp:765-799 | the score is the step at which the hand would evict the page |
| ClockEviction.NullThoughFree | libsafs/associative_cache.cpp:765-805 | a call that returns none: two pages, one referenced and one hit five times |
| ClockEviction.NullThoughDirty | libsafs/associative_cache.cpp:765-805 | the same when the other page is dirty |
| ClockEviction.Clock.EvictPage | libsafs/associative_cache.cpp:859-895 | ends within 3n probes; a returned page is unreferenced and the hand stays on it; when none is returned, and otherwise the victim, are those of GCLOCK on hits of at most one; with all pages referenced it returns none and leaves the hits, with none referenced it returns a page |
| ClockEviction.ClockNullThoughFree | libsafs/associative_cache.cpp:859-895 | the call on clean pages returns none under CLOCK |
| ClockEviction.ClockNullThoughDirty | libsafs/associative_cache.cpp:859-895 | the call on a dirty page returns none under CLOCK |
| HashCell.Cell.SearchPage | libsafs/associative_cache.cpp:373-488 | a hit exactly when the page is resident; on a miss an unreferenced page gives way; no id is ever in two pages; hits stay within a byte |
| HashCell.Cell.PeekPage | libsafs/associative_cache.cpp:352-367 | a lookup without eviction finds the page exactly when it is resident |
| HashCell.Cell.CountHit | libsafs/associative_cache.h:189-194 | a full count halves all counts first, so none exceeds 255 |
| HashCell.Run | libsafs/associative_cache.cpp:352-488 | over any sequence of lookups, releases and writes: ids stay unique, counts stay within a byte, no referenced page changes its id |
| HashCell.PinnedKeepsId | libsafs/associative_cache.cpp:373-488 | a page that stays referenced keeps its id over any stretch of operations |
| LinearHash.RouteInTable | libsafs/associative_cache.h:811-841 | every route leads to a cell of the table |
| LinearHash.RouteAfterSplit | libsafs/associative_cache.h:739-841 | splitting a cell, and going up a level after the last one, changes the route of exactly the pages that move |
| LinearHash.PageCell.RebuildMap | libsafs/associative_cache.cpp:93-102 | the map is the increasing list of occupied slots |
| LinearHash.PageCell.InjectPages | libsafs/associative_cache.cpp:119-131 | the cell gains exactly the given pages |
| LinearHash.MoveOver | libsafs/associative_cache.cpp:292-302 | pages taken from given slots of one cell are in the other one, and none is lost or doubled |
| LinearHash.Rehash | libsafs/associative_cache.cpp:249-329 | no page is lost or doubled; of the pages that belong to the new cell only referenced ones stay behind; the new cell gets no page that does not belong there |
| LinearHash.DividedAfter | libsafs/associative_cache.cpp:249-329 | when no page that has to move is referenced, the pages are divided as the table's hash functions want it |
| LinearHash.SplitKeepsPlaced | libsafs/associative_cache.cpp:2323-2368 | with the pages so divided, and page frames without a page added, every page is in the cell a lookup goes to |
| LinearHash.SplitPlacedIff | libsafs/associative_cache.cpp:249-329 | after a split every page is in the cell a lookup goes to if and only if no page that had to move was referenced |
| LinearHash.Merge | libsafs/associative_cache.cpp:230-244 | the cell has the pages of both, and the other one is empty |
| LinearHash.SplitCell | libsafs/associative_cache.cpp:2323-2358 | rehash, free pages for both halves, and merging back if one is still too small: no page is lost or doubled, and which of the three outcomes it is follows from the numbers of pages |
| LinearHash.HalvedWhen | libsafs/associative_cache.cpp:2330-2358 | no cell is split when the minimal size is over the 8 pages cells are supplied up to; with at most 8 every cell is, given 16 free pages |
| LinearHash.MergeFitsIff | libsafs/associative_cache.cpp:218-244 | for a cell of any number of pages the assertion of the merge holds, for all divisions and numbers of free pages, if and only if the minimal size is not over 8 with more than 8 pages, nor 8 with 10 to 15, nor 7 with 11 to 13 |
| LinearHash.SplitNext | libsafs/associative_cache.cpp:2323-2368 | run on the next cell of a table: pages are conserved over all cells, a failed split leaves every page where a lookup goes for it, and a successful one does if and only if no page that had to move was referenced |
| LinearHash.SplitLevel | libsafs/associative_cache.cpp:2323-2368 | the loop over the cells up to the change of level: with no page referenced every page ends up where a lookup goes for it, none is lost or doubled, and with enough free pages the table goes up a level |
| PagedBytes.PageByte | libsafs/cache.h:1139-1186 | under any nesting of sub-arrays, every byte is in the page and at the place its offset says |
| PagedBytes.Memcpy | libsafs/cache.cpp:26-61 | the copy of any span is the flat slice, over any number of pages |
| PagedBytes.SeqIterator.HasNext | libsafs/cache.h:885-899 | true exactly when there is an element left, after moving to the next page if need be |
| PagedBytes.SeqIterator.Next | libsafs/cache.h:923-925 | the next element, as in the flat bytes |
| PagedBytes.ForEach | libsafs/cache.h:962-969 | although its inner bound shrinks as it iterates, the loop visits every element once, in order, and ends |
| PagedBytes.AssertedFitsIff | libsafs/cache.h:873-877 | with the asserted alignment, elements stay within pages if and only if their size divides the page size or the range ends at the second page boundary at the latest |
| PagedBytes.AssertedDoesNotFit | libsafs/cache.h:873-877 | it does not in general: elements of three bytes over three pages |

## Left out

- Weak memory ordering: every access to shared memory is one sequentially consistent step; barriers, locks and atomics are atomic.
- In progress_next_level the two increments of a thread that arrives are one step; the timing and the log lines are not modelled.
- progress_first_level: runs start after it, with the queues filled and the count set.
- Message handlers and notifications at the end of an iteration send no messages in the model, and user code runs in one thread per vertex at a time (serial runs).
- The order in which flush messages overtake buffered ones at the receiver.
- The user-defined scheduler's queue (customized_vertex_queue), whose order is up to user code.
- scan_pointer::set_scan_dir, which nothing calls; the scan pointer is a value here.
- Raw addresses: messages are made of words of four bytes, vertices are known by id, page frames by index.
- std::sort and std::unique appear as insertion sorts with the same result.
- LevelTheorems.Progress: schedules are not required to be fair; LevelEnds says what an endless run has to do, and that the end can be reached from everywhere.
- RangePartitioner.GetAllVerticesInPart: takes inputs for which the loop ends, which EndlessIff characterises, and stripes whose width divides 2^32, as powers of two do.
- ActiveVertices.ActiveVertexSet.FetchReset: takes requests of at least 64 vertices while the bitmap has words left to scan, because smaller ones do not end.
- MessageSenders.MulticastSender.AddDest: what the write past the end of the buffer does to other memory.
- PagedBytes.SeqIterator.Next: takes ranges with the asserted alignment in which no element crosses a page, which AssertedFitsIff characterises.
- CompressedIndex.SizeUndone: the source rounds up with a mask, which is rounding up only for edge data of 0 bytes or a power of two; the lemma itself holds for every size.
- LevelTheorems.AssertionsHold: not the assertions about pending I/O and index requests at the end of an iteration.
- The threads that look pages up while a cell is being split: a split is one step here, and a page found in use stays in use during it. The merge waits for pages in use, which a cell just split off never has.
- Widths of integers are modelled where the source relies on them (partitioner, hit counts, hash remainder); elsewhere numbers are unbounded, among them the clock hand.
- The directed index is modelled as its in-part and its out-part, each an index of its own.
- Vertices that request the same id twice in a level, or in-list and out-list separately.
- The order in which different I/O requests complete: they are answered one after the other, the two arrays of one request in either order.
- The adaptive policy's scores, ghost table and LIFO scans; the other eviction policies.
- Expanding the cache by filling up existing cells, shrinking it, stealing pages from cells, the dirty page flusher: they depend on a memory manager and I/O. Free pages are a list given to the split loop.
- File loading, RAID and asynchronous I/O, configuration, sparse matrices, FG_vector and the scripts.
