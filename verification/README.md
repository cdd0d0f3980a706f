# Verified model of the craftd core

craftd is a Minecraft server in C. Under it lie an open-addressing hash table (`khash.h`), a B-tree
(`kbtree.h`), sorting templates (`ksort.h`), a byte-string library with streams and codecs
(`bstrlib.c`, `bstraux.c`), and a protocol in which an event loop and a pool of workers share the life
of every client (`Server.c`, `Worker.c`, `Workers.c`). This project models these parts in Dafny and
proves what they are for: the table is a map, the B-tree is a sorted multiset, searching and replacing
find and replace what they should, streams lose nothing, codecs are undone by their decoders, and
packets of a client are processed one at a time, in order, and never after its disconnection was
reported.

The code that changes things in place is modelled as code that changes things in place: arrays, node
and header objects, probe loops, the kick-out loop of the rehash, the unrolled search, the three
in-place replacement strategies, the sentinel scans. Each method is proved against a function or a
predicate on values, and the lemmas speak about these.

## The modules

* `Arith`, `Bits`, `Probe`: division, bit smearing, and why an odd stride over a table of 2^p buckets
  is a full cycle.
* `HashFlags`, `HashModel`, `HashRehash`, `KHash`, `KHashRuns`: the flag words with two bits to a
  bucket; what it means for the arrays to store a map; the invariant of the in-place rehash, in which
  the same arrays serve two tables at once; the table itself; whole runs of operations.
* `BTreeModel`, `BTree`: trees as values with their flattening, shape and every restructuring step; the
  nodes on the heap, whose methods are tied to these values.
* `ClientProtocol`, `ClientOutcomes`, `ClientCounts`: clients, jobs, queue and workers as a state
  machine of atomic steps, an inductive invariant, theorems about all runs, and the callbacks as methods
  that are those steps; the order of the jobs and of the events, and how often each event is dispatched.
* `PoolModel`, `PoolReports`, `PoolLimits`, `PoolService`: what a pool with a fixed number of workers can
  still bring about from any reachable state, and what it cannot.
* `BString`, `BSearch`, `FindReplace`, `BStream`, `BSplit`, `BSplitCalls`: byte strings with their room, views into
  buffers that may overlap the string being changed, search, replacement, buffered reading, splitting
  and joining.
* `Sextets`, `UuCodec`, `UuLines`, `UuStream`, `Base64`, `BJustify`: texts as rows of bits in groups of
  six, the codecs, and justification.
* `KSort`, `KSelect`: stable merge sort and selection by rank for any strict weak order.

## What turned out different

Where the code does not do what one would expect, the model follows the code, and the project says
exactly when it does.

* `jobs` is an unsigned byte, counted up for process jobs only but counted down for every dropped job.
  It is the number of unfinished process jobs unless it is 255, and it is 255 exactly when a worker
  checked the connect job of a client that had turned to Disconnect (`DroppedIff`). A worker that then
  takes a disconnect job of this client waits for ever (`StuckForever`; `ConnectDropped` is a run). The
  pool is started once (src/Server.c:382), so such a worker is lost to the others: from every reachable
  state clients that connect and break off can bring all workers into that wait (`BlockAll`), and then
  no job is taken and nothing but kicks is dispatched until a worker is started (`BlockedForGood`,
  `AliveIff`), also not for a client whose own `jobs` are 0 (`HealthyClientBlocked`).
* Whether `Client.disconnect` can still be dispatched for a client at Disconnect, without a new worker,
  is decided by the queue (`ReportableIff`). It was dispatched, or a worker is past the wait; or `jobs`
  is not 255 and either a worker has a disconnect job of the client in hand or the first one that waits
  can be reached (`Serves`): the jobs ahead of it are taken one by one by workers to spare; a disconnect
  job of a client with `jobs` at 255 takes its worker away for good; an unchecked connect job of a
  disconnecting client takes it away until the job is given up, which puts the `jobs` of that client at
  255, and the client's own is never given up. Without such connect jobs this is a count
  (`ServesIffCount`), and it always holds with fewer blocking jobs than workers (`EnoughWorkers`).
* Lost workers keep packets from being processed in the same way. Whether a packet that comes now can be
  processed without a new worker does not depend on the client, as long as it has not broken off, but on
  the queue: all jobs that wait must be taken first (`Drains`, `ServedIff`), which fewer blocking jobs
  than workers make possible (`EnoughToServe`).
* The error callback queues a disconnect job for every failure it is told of, so `Client.disconnect` is
  dispatched as often as the client was kicked and its connection failed (`DisconnectedCount`).
* The status check and the dispatch of `Client.connect` are not one region, so `Client.connect` can
  follow `Client.disconnect`. In every run in which it does, the connect job was past its check and its
  event still to come when the client turned to Disconnect (`ConnectFollowsOnlyLate`). From a state like
  that it can happen, without a new worker, exactly when the other workers can report the client
  (`ConnectCanFollowIff`): never with one worker (`OneWorkerInOrder`), and in every pool of two or more
  (`InversionNeedsTwo`).
* `findreplaceengine` copies a replacement that lies inside the string only when it may be overwritten.
  One that ends at or before the start position is left where it is, and the branch for longer
  replacements then reads it after `balloc` may have given its block back. `FindReplaceEngine` says
  exactly when: the replacement is longer, uncopied, there is a match, and the result does not fit the
  buffer; `FreedInput` is such an input. In all other cases the result is the one promised.
* `snapUpSize` leaves room for a terminator exactly below 2^30; from there on the doubled size does not
  fit a signed int (`SnapLeavesRoom`).
* Decoding the uuencoding of the empty string yields null, because a stream that reads nothing reports
  an error; for every other string the round trip holds (`UuRoundTrip`). A last line that has lost its
  line end and decodes to bytes (`EndLost`) is served again by every further call; the calls come to
  the one that is taken for the end exactly when it decodes to nothing (`EndsIff`). `bUuDecodeEx`, which
  asks for INT_MAX bytes (third-party/bstring/bstraux.c:601), therefore serves the line again until that
  length is reached or an allocation fails (third-party/bstring/bstrlib.c:2152, 2161); `UuDecodeEx` is
  modelled with a bound on the memory. A line that is bad and decodes to nothing is counted up to twice.
* A piece of `bsplitstr` can contain the separator, because the search goes on one position too late
  (`PieceWithSeparator`); it can do so only at its own beginning (`OnlyAtFront`). Some piece does exactly
  when at the end of a separator that was found another one stands and none begins inside that
  (`HoldsIff`); for a separator no proper beginning of which is its end, exactly when two stand in a row
  (`HoldsIffDouble`).
* `findreplaceengine` with a longer replacement fails for 2^27 matches or more, when the byte size of
  its index does not fit an int (`FindReplaceEngine`, `LimitReached`).
* `kroundup32` wraps around to 0 above 2^31 (`RoundUp32Overflow`).

## Model

| member | source | states |
|---|---|---|
| Bits.RoundUp32IsLeast | include/craftd/klib/khash.h:153-155 | up to 2^31 `kroundup32` yields a power of two, at least x and not above any other power of two that is; 0 stays 0 |
| Bits.RoundUp32Overflow | include/craftd/klib/khash.h:153-155 | above 2^31 the macro wraps around to 0 |
| Bits.RoundUp32Neighbours | include/craftd/klib/khash.h:153-155 | the two requests of `kh_put`, one less and one more than a power of two, give that power and its double |
| Bits.SmearFills | third-party/bstring/bstrlib.c:77-88 | the shift-and-or chain sets every bit below the highest one |
| Probe.InverseCorrect | include/craftd/klib/khash.h:148 | an odd stride has an inverse modulo every power of two, computed one bit at a time |
| Probe.SlotOfTime | include/craftd/klib/khash.h:148 | so every bucket is hit by a probe: the time is given by the inverse |
| Probe.SlotInjective | include/craftd/klib/khash.h:206-208 | two of the first n probes that hit the same bucket are the same probe |
| Probe.WalkIsSlot | include/craftd/klib/khash.h:206-208 | masking after every step is the same as reducing once modulo the table size |
| Probe.FullCycle | include/craftd/klib/khash.h:148 | from any home, every bucket is hit by exactly one of the first n probes |
| Probe.BackAtStart | include/craftd/klib/khash.h:208 | a walk is back at its first bucket exactly after n probes, so `i == last` means that all buckets were seen |
| Probe.HomeFits | include/craftd/klib/khash.h:204-205 | the home of every hash value lies inside the table and its stride is odd |
| HashFlags.IsEmpty | include/craftd/klib/khash.h:137 | the bit expression is the emptiness of that bucket |
| HashFlags.IsDel | include/craftd/klib/khash.h:138 | the bit expression is the tombstone flag of that bucket |
| HashFlags.IsEither | include/craftd/klib/khash.h:139 | both bits are clear exactly for a live bucket |
| HashFlags.SetDel | include/craftd/klib/khash.h:143 | one bucket becomes a tombstone; the flags of all others, also of those in the same word, are as before |
| HashFlags.ClearEmpty | include/craftd/klib/khash.h:141 | one bucket is no longer empty; all others are as before |
| HashFlags.ClearBoth | include/craftd/klib/khash.h:142 | one bucket becomes live; all others are as before |
| HashFlags.FillEmpty | include/craftd/klib/khash.h:195 | the byte pattern 0xaa makes every bucket empty |
| HashModel.GapAhead | include/craftd/klib/khash.h:206-209 | while an empty bucket is left, a walk that has met none has not been once around |
| HashModel.ReachesUpdate | include/craftd/klib/khash.h:295 | filling a bucket or making it a tombstone hides no key behind a gap |
| HashModel.StillAhead | include/craftd/klib/khash.h:206-209 | the walk for a stored key meets no gap before it meets the key |
| HashModel.StoresInsert | include/craftd/klib/khash.h:293-302 | a new key in a gap on its own path: the arrays store the map with that key added, and still each key once |
| HashModel.StoresDelete | include/craftd/klib/khash.h:308-310 | a tombstone in place of a key: the arrays store the map without it |
| HashModel.StoresOverwrite | include/craftd/klib/khash.h:293-304 | a new value for a live bucket changes the map at its key only |
| HashModel.DeletedIsBuried | include/craftd/klib/khash.h:306-312 | the bucket of a stored key becomes a tombstone that the walk for the key meets before any gap |
| HashModel.BuriedIsTaken | include/craftd/klib/khash.h:282-289 | with such a tombstone on its walk an absent key takes a tombstone, with code 2, and not the gap |
| HashModel.NoneToTake | include/craftd/klib/khash.h:282-289 | where every occupied bucket is live, as after a rehash, it takes the gap, with code 1 |
| HashRehash.StartMoving | include/craftd/klib/khash.h:221-231 | before anything moves, all entries are unmoved entries of the two-table invariant |
| HashRehash.PickUp | include/craftd/klib/khash.h:232-238 | taking an entry out of its old bucket leaves it as the one entry in hand |
| HashRehash.KickOut | include/craftd/klib/khash.h:245-249 | storing the entry in hand over an unmoved one keeps the invariant with the displaced entry in hand, and one unmoved entry fewer |
| HashRehash.Settle | include/craftd/klib/khash.h:250-254 | storing the entry in hand in a bucket of no unmoved entry keeps the invariant with nothing in hand |
| HashRehash.DoneMoving | include/craftd/klib/khash.h:257-266 | with all entries moved, the first buckets of the arrays store the whole map under the new flags |
| KHash.WantedFits | include/craftd/klib/khash.h:273-274 | both requests of `kh_put` are granted and leave the load below the bound |
| KHash.Search | include/craftd/klib/khash.h:206-210 | the probe loop ends at the key, at a gap, or after all buckets |
| KHash.SearchAnswer | include/craftd/klib/khash.h:206-210 | a live bucket where the loop stopped is the bucket of the key; otherwise the key is not stored |
| KHash.Locate | include/craftd/klib/khash.h:277-291 | the bucket chosen for a key is its own bucket when it is stored, else the last tombstone that its walk meets before the first gap, and that gap only when there is none |
| KHash.LocateAnswer | include/craftd/klib/khash.h:277-304 | a live bucket that was chosen holds the key: no unrelated bucket is ever returned |
| KHash.FreeBucket | include/craftd/klib/khash.h:241-244 | the inner loop of the rehash always ends, at an empty bucket that is on the path of the key |
| KHash.Table.constructor | include/craftd/klib/khash.h:181-183 | the unallocated table stands for the empty map |
| KHash.Table.Clear | include/craftd/klib/khash.h:192-198 | afterwards the table stands for the empty map |
| KHash.Table.Get | include/craftd/klib/khash.h:199-212 | the bucket is live and holds the key with its value exactly when the map has the key; else the number of buckets is returned |
| KHash.Table.Put | include/craftd/klib/khash.h:269-305 | afterwards the key is in the map, nothing else changed, the code 0 is returned exactly for a key that was there, and the size grew by one otherwise; on the flags before the fill, a new key takes the last tombstone before the first gap of its walk with code 2, and the gap with code 1 exactly when there is none; the number of occupied buckets grows only then, and a put that rehashes never returns 2 |
| KHash.Table.PutInto | include/craftd/klib/khash.h:276-305 | the same for the half behind the rehash |
| KHash.Table.Delete | include/craftd/klib/khash.h:306-312 | the key of a live bucket leaves the map; for any other bucket nothing changes |
| KHash.Table.MakeRoom | include/craftd/klib/khash.h:272-275 | the map is the same and the load is below the bound, after growing or after clearing tombstones in place |
| KHash.Table.Resize | include/craftd/klib/khash.h:213-268 | growing, shrinking or at the same size, the map is the same; a request too small for the keys changes nothing |
| KHash.Table.MoveChain | include/craftd/klib/khash.h:239-255 | the kick-out loop ends and leaves every entry either moved or unmoved, and none lost, doubled or moved back |
| KHash.Table.MoveAll | include/craftd/klib/khash.h:231-257 | the loop over the old buckets leaves the whole map in the new table |
| KHash.Table.Adopt | include/craftd/klib/khash.h:258-266 | after the arrays are cut and the flags exchanged, the table stands for the same map |
| KHashRuns.Step | include/craftd/klib/khash.h:192-312 | each operation, a resize to any requested size included, acts on the table as on the map it stands for, and gives the answer the map gives |
| KHashRuns.Run | include/craftd/klib/khash.h:174-312 | from the unallocated table, any sequence of at most 2^30 puts, gets, deletions, clearings and resizes answers as a map does, at every position |
| KHashRuns.PutAgain | include/craftd/klib/khash.h:269-312 | a stored key that is deleted and put again gets code 2 and no further bucket becomes occupied, whatever lookups, deletions and new values of stored keys come between, when the put does not have to rehash |
| KHashRuns.Churn | include/craftd/klib/khash.h:269-312 | deleting and putting a key over and over returns 2 every time, occupies no further bucket and never rehashes |
| BTreeModel.SplitFlat | include/craftd/klib/kbtree.h:172-187 | splitting a full kid keeps the sequence of all keys |
| BTreeModel.SplitShaped | include/craftd/klib/kbtree.h:172-187 | and keeps equal leaf depth and between t-1 and 2t-1 keys in every node below the root |
| BTreeModel.RotateRightFlat | include/craftd/klib/kbtree.h:271-277 | borrowing from the left keeps the sequence of all keys |
| BTreeModel.RotateLeftFlat | include/craftd/klib/kbtree.h:278-284 | borrowing from the right keeps the sequence of all keys |
| BTreeModel.MergeFlat | include/craftd/klib/kbtree.h:285-304 | merging two siblings around their key keeps the sequence of all keys |
| BTreeModel.RotateRightShaped | include/craftd/klib/kbtree.h:271-277 | borrowing from the left keeps depth and occupancy |
| BTreeModel.RotateLeftShaped | include/craftd/klib/kbtree.h:278-284 | borrowing from the right keeps depth and occupancy |
| BTreeModel.MergeShaped | include/craftd/klib/kbtree.h:285-304 | merging keeps depth and occupancy, the parent losing one key |
| BTreeModel.InsertThrough | include/craftd/klib/kbtree.h:203 | a key inserted in the right kid is inserted in the whole sequence, which stays sorted |
| BTreeModel.SplitOrder | include/craftd/klib/kbtree.h:198-201 | after a split the comparison with the new middle key still picks a kid where the key belongs |
| BTreeModel.TakeThrough | include/craftd/klib/kbtree.h:306 | what a deletion takes from the kid it descends into, it takes from the whole sequence: the key, the last or the first one |
| BTreeModel.TakePredecessor | include/craftd/klib/kbtree.h:246-250 | the largest key of the left kid in place of the deleted one: exactly that key is gone |
| BTreeModel.TakeSuccessor | include/craftd/klib/kbtree.h:251-255 | the smallest key of the right kid in place of the deleted one: exactly that key is gone |
| BTreeModel.RotateRightPath | include/craftd/klib/kbtree.h:271-277 | after borrowing from the left the key to delete is still below the same kid |
| BTreeModel.RotateLeftPath | include/craftd/klib/kbtree.h:278-284 | after borrowing from the right the key to delete is still below the same kid |
| BTreeModel.MergePath | include/craftd/klib/kbtree.h:257-266 | after merging the key to delete is below the merged kid |
| BTreeModel.InsertedCount | include/craftd/klib/kbtree.h:206-220 | inserting at one place adds exactly one to the multiset of keys |
| BTreeModel.CutDown | include/craftd/klib/kbtree.h:159-162 | a step down keeps the floor and ceiling candidates of everything outside the subtree |
| BTree.GetAux | include/craftd/klib/kbtree.h:113-127 | the position splits the keys: all before are below k, all behind not below; r is 0 exactly when k is among them |
| BTree.BNode.SplitKid | include/craftd/klib/kbtree.h:172-187 | the heap nodes become the split tree, the new node being fresh |
| BTree.BNode.RotateRightAt | include/craftd/klib/kbtree.h:272-277 | the heap nodes become the rotated tree |
| BTree.BNode.RotateLeftAt | include/craftd/klib/kbtree.h:279-284 | the heap nodes become the rotated tree |
| BTree.BNode.MergeAt | include/craftd/klib/kbtree.h:257-265 | the heap nodes become the merged tree; the right sibling is no longer part of it |
| BTree.BNode.PutAux | include/craftd/klib/kbtree.h:188-205 | k is inserted once into the subtree, in order, keeping shape and occupancy |
| BTree.BNode.DelAux | include/craftd/klib/kbtree.h:228-307 | in each of the three modes exactly the asked-for key leaves the subtree and is returned, keeping shape and occupancy |
| BTree.BNode.DelFound | include/craftd/klib/kbtree.h:245-267 | the predecessor, successor and merge cases each remove exactly the found key |
| BTree.BNode.Refill | include/craftd/klib/kbtree.h:269-305 | afterwards the kid to descend into has a spare key and still contains the key; no key has moved in the order |
| BTree.FullNodeFits | include/craftd/klib/kbtree.h:55 | a node of 2t - 1 keys fits a block of the given size exactly for the degrees t up to the one computed |
| BTree.Init | include/craftd/klib/kbtree.h:51-66 | there is a tree exactly when three keys fit a node; its full nodes fit the block and two keys more would not; it is an empty leaf that satisfies the invariant |
| BTree.KbTree.Put | include/craftd/klib/kbtree.h:206-220 | the sorted sequence of keys gains exactly k, and all leaves stay at one depth with legal occupancy, also when the root splits |
| BTree.KbTree.Del | include/craftd/klib/kbtree.h:308-321 | of a key that is there exactly one occurrence leaves, is returned, and order, depth and occupancy survive, also when the root collapses |
| BTree.KbTree.Get | include/craftd/klib/kbtree.h:130-141 | a node of the tree and an index in it where the key is, or null exactly when it is not among the keys |
| BTree.KbTree.Interval | include/craftd/klib/kbtree.h:148-164 | lower is the greatest key not above k and upper the least not below it; each is absent exactly when there is none |
| ClientProtocol.StepKeeps | src/Server.c:183-204 | every atomic step of every callback and worker keeps the invariant |
| ClientProtocol.RunKeeps | src/Worker.c:75-198 | the invariant holds after every interleaving of any number of clients and workers |
| ClientProtocol.AtMostOneProcessJob | src/Server.c:183-195 | at most one process job of a client is queued or running; exactly one in status Process, none in Connect or Idle |
| ClientProtocol.StatusIff | src/Worker.c:137-164 | in every run, as long as a client has not broken off: Connect exactly while it is being accepted or its connect job is unfinished, Process exactly while a process job is, Idle exactly otherwise |
| ClientProtocol.ProcessedInParseOrder | src/Worker.c:152-158 | the packets of `Client.process` are a prefix of those parsed, at most one short, and those of `Client.processed` a prefix of these |
| ClientProtocol.NothingAfterDisconnect | src/Worker.c:173-187 | no `Client.process` and no `Client.processed` follows a `Client.disconnect` |
| ClientOutcomes.DroppedIff | src/Worker.c:123-131 | `jobs` is the number of unfinished process jobs unless it is 255, and it is 255 exactly when a worker checked the taken connect job of this client after the client had turned to Disconnect |
| ClientProtocol.HistoryGrows | src/Worker.c:137-189 | events and parsed packets are never taken back, and Disconnect is never left |
| PoolModel.DisconnectAnnounced | src/Server.c:207-237 | after every run, a client at Disconnect that was not reported has a disconnect job in the queue or in the hands of a worker |
| PoolModel.ProcessInHand | src/Worker.c:173-185 | when a worker has a disconnect job in hand, the process job of its client, if there is one, does not wait in the queue |
| PoolModel.WrappedIff | src/Worker.c:123-131 | in every reachable state the clients whose connect job was dropped are those with `jobs` at 255 |
| PoolModel.ReportableBack | src/Worker.c:75-198 | no step of the environment or of a worker makes the condition for a report true; only a new worker could |
| PoolReports.ReportableIff | src/Worker.c:75-198 | from every reachable state with the client at Disconnect, some continuation without a new worker dispatches `Client.disconnect` exactly when the condition holds; and then the workers do it alone |
| PoolReports.ServesIffCount | src/Worker.c:123-185 | while no unchecked connect job of a disconnecting client is about, the condition is a count: fewer jobs ahead in the queue that block a worker than workers to spare |
| PoolReports.EnoughWorkers | src/Worker.c:123-185 | with `jobs` not 255 and fewer blocking jobs than workers, the workers alone can report the client |
| PoolReports.ReportableIfGrown | src/Worker.c:173-187 | were workers started whenever needed, `jobs` at 255 would be the only obstacle |
| PoolService.ServedIff | src/Server.c:183-195 | from every reachable state, for every client and packet: some continuation without a new worker parses the packet next, dispatches `Client.process` and then `Client.processed` for it and leaves the client idle, exactly when the client has not broken off and all jobs that wait can be taken, and one more; otherwise no packet parsed later is ever begun; and nothing is needed but steps of workers and the connect job and the packet of this client |
| PoolService.DrainsBack | src/Worker.c:75-198 | no step of the environment or of a worker makes it possible to take further jobs of those that wait |
| PoolService.FailsRun | src/Worker.c:75-98 | while they cannot all be taken, no job queued later ever is |
| PoolService.DrainsIffCount | src/Worker.c:123-185 | while no unchecked connect job of a disconnecting client is about, they can all be taken exactly when fewer of them block a worker than there are workers to spare |
| PoolService.EnoughToServe | src/Worker.c:75-164 | with fewer blocking jobs than workers, every packet of every client that has not broken off can be processed |
| PoolLimits.BlockedForGood | src/Worker.c:173-185 | when every worker waits for a client with `jobs` at 255, no continuation without a new worker takes a job or dispatches anything but kicks |
| PoolLimits.AliveIff | src/Worker.c:75-98 | from every reachable state, some continuation without a new worker takes a job exactly when not all workers are in that wait |
| PoolLimits.BlockAll | src/Worker.c:123-185 | from every reachable state, clients that connect and break off can bring the pool into that state, whatever its size |
| PoolLimits.EveryPoolBlocks | src/Server.c:382 | a run from the start into that state for every number of workers |
| PoolLimits.HealthyClientBlocked | src/Worker.c:173-187 | after it a further client breaks off with `jobs` at 0, and no continuation without a new worker reports it |
| ClientOutcomes.ConnectDropped | src/Worker.c:123-185 | a run after which `jobs` is 255 and no continuation ever dispatches `Client.disconnect` |
| ClientCounts.ConnectedOnce | src/Worker.c:123-146 | in every run a client is being accepted, or its connect job is to be dispatched, or `Client.connect` was dispatched, once, or the connect job was dropped: exactly one of these |
| ClientCounts.BrokenOffIff | src/Server.c:197-237 | in every run a client is at Disconnect exactly when some step kicked it, for a malformed packet or on request, or its connection failed |
| ClientCounts.KickedAtMostOnce | src/Server.c:462-489 | `Client.kick` is dispatched once for a step that kicks the client, and there is at most one |
| ClientCounts.DisconnectedCount | src/Server.c:207-237 | `Client.disconnect` was dispatched once for every kick and every failure of the connection, less the disconnect jobs that are still unfinished |
| ClientOutcomes.StuckForever | src/Worker.c:174-185 | with `jobs` at 255 and nobody past the wait, that stays so whatever happens |
| ClientOutcomes.ConnectFollowsOnlyLate | src/Worker.c:123-146 | in every run in which `Client.connect` follows `Client.disconnect` for a client, the step that turned it to Disconnect met its connect job past the check and before its dispatch |
| PoolLimits.ConnectCanFollowIff | src/Worker.c:123-187 | from every reachable state with the client at Disconnect, some continuation without a new worker has `Client.connect` follow `Client.disconnect` exactly when that has happened, or a worker has the connect job past its check and the others can report the client without that worker |
| PoolLimits.OneWorkerInOrder | src/Worker.c:123-187 | in every run with at most one worker `Client.connect` never follows `Client.disconnect` |
| PoolLimits.InversionNeedsTwo | src/Worker.c:123-187 | from a pool of n workers with nothing to do it can be made to exactly when n is at least 2 |
| ClientOutcomes.NoJobLost | src/Worker.c:75-198 | after every run each job waits in the queue or is in the hands of a worker |
| ClientOutcomes.FirstInFirstOut | src/Workers.c:204-220 | over every run, the jobs taken followed by the jobs waiting are the jobs added, in that order |
| ClientProtocol.Server.NextJob | src/Workers.c:216-220 | the oldest job is taken, or none: the take step |
| ClientProtocol.Server.ReadCallback | src/Server.c:167-205 | is the read step of the protocol: an idle client gets one process job, is kicked, or is left alone |
| ClientProtocol.Server.ErrorCallback | src/Server.c:207-237 | is the error step: always Disconnect and one more disconnect job |
| ClientProtocol.Server.KickClient | src/Server.c:462-489 | is the kick step: nothing for a client that disconnects already |
| ClientProtocol.Server.ListClient | src/Server.c:331 | the client becomes visible to the other threads before its connect job is queued |
| ClientProtocol.Server.QueueConnect | src/Server.c:333 | then its connect job is queued |
| ClientProtocol.Server.CheckJob | src/Worker.c:101-135 | is the check step: a job of a disconnecting client is dropped and `jobs` counted down, unless it is a disconnect job |
| ClientProtocol.Server.ContinueJob | src/Worker.c:137-194 | is the advance step: one dispatch or one locked region of the job at a time; by `StatusIff` the end of the connect job makes the client idle |
| BString.SnapIsLeast | third-party/bstring/bstrlib.c:71-93 | from 8 up to 2^30 the snapped size is the least power of two above the request |
| BString.SnapLeavesRoom | third-party/bstring/bstrlib.c:71-93 | the snapped size exceeds the request exactly below 2^30, and never falls short of it |
| BString.BString.Balloc | third-party/bstring/bstrlib.c:99-153 | the text is kept; afterwards there is room for the request, with a byte to spare below 2^30; non-positive requests are errors |
| BString.BString.CopyOf | third-party/bstring/bstrlib.c:411-445 | a copy has the same text, in a block of its own, with its terminator |
| BString.BString.Sized | third-party/bstring/bstrlib.c:215-238 | an empty terminated string with at least the room asked for |
| BString.BString.Concat | third-party/bstring/bstrlib.c:318-344 | the text is followed by what the argument read before the call, even when it lies in the buffer that is extended |
| BString.BString.ConcatChar | third-party/bstring/bstrlib.c:350-360 | the text is followed by the character, and the terminator fits |
| BString.BString.ConcatBlock | third-party/bstring/bstrlib.c:392-405 | the text is followed by the block, and the terminator fits |
| BString.BString.Assign | third-party/bstring/bstrlib.c:451-467 | the text is what the argument read before the call, and the terminator fits |
| BString.BString.AssignMid | third-party/bstring/bstrlib.c:473-497 | the text is the part of the argument at the positions from left on, clamped to both ends |
| BString.BString.Delete | third-party/bstring/bstrlib.c:965-987 | the characters at the given positions, as far as there are any, are gone; a negative clamped length is an error |
| BString.BString.SetStr | third-party/bstring/bstrlib.c:1400-1446 | the argument stands at pos, fill characters before it as needed, the rest of the text behind it |
| BString.BString.Insert | third-party/bstring/bstrlib.c:1455-1494 | the argument stands between the text before pos, filled up as needed, and the text from pos on |
| BString.BString.Replace | third-party/bstring/bstrlib.c:1502-1541 | the argument stands in place of len characters at pos, also when they straddle the end or the argument is part of the string |
| BSearch.BInStr | third-party/bstring/bstrlib.c:1023-1099 | the result is the least position from pos on where the pattern stands, or the error code exactly when there is none, for every pos |
| BSearch.Scan | third-party/bstring/bstrlib.c:1056-1098 | the unrolled scan that restarts late skips no match and ends |
| BSearch.Mismatch | third-party/bstring/bstrlib.c:1062-1069 | a character that is not the one looked for lies before that character of every match left |
| BSearch.AtTheEnd | third-party/bstring/bstrlib.c:1095-1098 | when the scan stops short there is no match left |
| BSearch.FullTrace | third-party/bstring/bstrlib.c:1084-1087 | a trace of the whole pattern without a gap is the first match |
| FindReplace.SkipTo | third-party/bstring/bstrlib.c:1554-1692 | the meaning of replacing skips positions without a match |
| FindReplace.ReplacedLength | third-party/bstring/bstrlib.c:1554-1692 | the length changes by the number of matches times the difference of the lengths |
| FindReplace.ReplacedByItself | third-party/bstring/bstrlib.c:1554-1692 | replacing a string by itself changes nothing |
| FindReplace.FirstBehind | third-party/bstring/bstrlib.c:1588-1591 | searching in the partly rewritten buffer finds the match of the original text |
| FindReplace.ShrinkStep | third-party/bstring/bstrlib.c:1601-1608 | one round of the compacting branch keeps the finished text before and the original text behind |
| FindReplace.GrowStep | third-party/bstring/bstrlib.c:1670-1682 | one round from right to left puts one more piece in its final place and overwrites none that is still needed |
| FindReplace.Collect | third-party/bstring/bstrlib.c:1637-1666 | all matches are recorded in order, unless there are 2^27 or more |
| FindReplace.ReplaceEqual | third-party/bstring/bstrlib.c:1587-1595 | the in-place branch yields the text with all leftmost non-overlapping matches replaced |
| FindReplace.ReplaceShorter | third-party/bstring/bstrlib.c:1598-1621 | the compacting branch yields the same |
| FindReplace.ReplaceLonger | third-party/bstring/bstrlib.c:1637-1692 | the spreading branch yields the same, or an error with the text as before exactly for 2^27 matches or more; a replacement that was left in a block given back is named by `stale`, and then some other bytes stand in its place |
| FindReplace.FindReplaceEngine | third-party/bstring/bstrlib.c:1554-1692 | all leftmost non-overlapping matches from pos on are replaced and the rest is unchanged, whichever branch is taken, also when find or replacement lie inside the string, unless a block is read after it was given back; that is so exactly when the replacement is longer, lies uncopied before pos, there is a match, and the result does not fit the buffer |
| FindReplace.FreedInput | third-party/bstring/bstrlib.c:1573-1584 | in a buffer of 16 bytes the text "abcdexxx", with its own first five bytes put in for each "x", meets that condition |
| FindReplace.NothingToPut | third-party/bstring/bstrlib.c:1668-1682 | without a match the result does not depend on the replacement, so a lost one does no harm |
| FindReplace.LimitReached | third-party/bstring/bstrlib.c:1637-1666 | 2^27 times one byte, replaced by two, is an input with that many matches whose result is short enough |
| BStream.LineEnds | third-party/bstring/bstrlib.c:1976-1982 | a line has the terminator exactly once, at its end, or is all there was |
| BStream.LinesConserve | third-party/bstring/bstrlib.c:1983-2038 | the lines joined are the stream; each but the last has the terminator, once, at its end |
| BStream.OnlyReads | third-party/bstring/bstrlib.c:2182-2188 | when all calls are line reads, call n returns the line that is next after n lines |
| BStream.CallsAreLines | third-party/bstring/bstrlib.c:1983-2038 | that is line number n of the stream, and after the last one nothing is left |
| BStream.AllLines | third-party/bstring/bstrlib.c:2182-2188 | a loop that reads until the error gets exactly the lines of the stream, in order |
| BStream.RunCalls | third-party/bstring/bstrlib.c:2182-2232 | any sequence of line reads and push-backs returns what the same sequence returns on the text, whatever the portions, and leaves the same to come |
| BStream.CallsConserve | third-party/bstring/bstrlib.c:2182-2232 | over any such sequence, the bytes returned and those left are the bytes of the stream and those pushed back |
| BStream.Reader.Read | third-party/bstring/bstraux.c:218-230 | any positive number of the bytes asked for is delivered, none only at the end, and those are no longer to come |
| BStream.Stream.constructor | third-party/bstring/bstrlib.c:1926-1938 | all bytes of the source are still to come |
| BStream.Stream.ReadLine | third-party/bstring/bstrlib.c:1983-2038 | whatever the portions are, the next line is appended, the rest is still to come, only an exhausted stream is an error, and the end is met exactly when no terminator was left |
| BStream.Stream.ReadBytes | third-party/bstring/bstrlib.c:2118-2173 | a beginning of what is to come is appended and only the rest is still to come; it has n bytes or all there are, except in the unbuffered case; the end is met exactly when nothing was left to return, or fewer than n bytes in the buffered case |
| BStream.Stream.ReadFresh | third-party/bstring/bstrlib.c:2215-2222 | what was read followed by what is to come is what was to come |
| BStream.Stream.ReadLineFresh | third-party/bstring/bstrlib.c:2182-2188 | the string is the next line, the rest is still to come |
| BStream.Stream.Unread | third-party/bstring/bstrlib.c:2229-2232 | the bytes pushed back come first |
| BStream.Stream.BuffLength | third-party/bstring/bstrlib.c:1945-1951 | the old size is returned, and what is to come does not depend on it |
| BStream.Stream.AtEOF | third-party/bstring/bstrlib.c:1953-1956 | true exactly when the end of the source was met and nothing is buffered; then nothing is left to come, and every read that returned an error for want of bytes leaves the stream so |
| KSort.MergeStable | include/craftd/klib/ksort.h:109-114 | a merge of sorted runs keeps the order of equivalent elements |
| KSort.MergeSorted | include/craftd/klib/ksort.h:109-114 | and is sorted |
| KSort.PassSorts | include/craftd/klib/ksort.h:99-115 | a pass doubles the length of the sorted runs, also with a short last run or a missing second one |
| KSort.PassStable | include/craftd/klib/ksort.h:99-115 | a pass keeps the order of equivalent elements |
| KSort.StableIsPermutation | include/craftd/klib/ksort.h:77-124 | keeping the order within each class means keeping all elements |
| KSort.SortedStableUnique | include/craftd/klib/ksort.h:77-124 | sorted and stable determines the result |
| KSort.MergeSort | include/craftd/klib/ksort.h:77-124 | for every length the array ends up sorted, stable and a permutation, also when the last pass wrote to the temporary buffer |
| KSort.PairPass | include/craftd/klib/ksort.h:86-97 | the first pass over neighbours is the pass of merging runs of one |
| KSort.MergePass | include/craftd/klib/ksort.h:98-116 | the loop over pairs of runs is a pass |
| KSelect.Narrow | include/craftd/klib/ksort.h:256-257 | after a partition the smaller window is still separated from the rest, and contains rank k unless that position is final |
| KSelect.ScannedOn | include/craftd/klib/ksort.h:249-255 | the two scans and the exchange keep the sides apart, and their crossing is a partition |
| KSelect.ScanUp | include/craftd/klib/ksort.h:250 | the upward scan stays inside the window and stops at an element not below the pivot |
| KSelect.ScanDown | include/craftd/klib/ksort.h:251 | the downward scan stays inside the window and stops at an element not above the pivot |
| KSelect.Partition | include/craftd/klib/ksort.h:248-255 | the window is split around the pivot, elements only change places |
| KSelect.FinalRank | include/craftd/klib/ksort.h:231-259 | at most k elements are less than an element in final position k, and more than k are not greater |
| KSelect.LessPermuted | include/craftd/klib/ksort.h:231-259 | these counts do not depend on the order |
| KSelect.KSmall | include/craftd/klib/ksort.h:233-259 | the returned element has rank kk in the original array, which is only permuted |
| UuCodec.GroupBack | third-party/bstring/bstraux.c:515-560 | the four characters of any three bytes decode to these bytes |
| UuCodec.GroupsBack | third-party/bstring/bstraux.c:515-560 | so do all groups of a line, the last one also when it stands for one or two bytes |
| UuCodec.LineBack | third-party/bstring/bstraux.c:504-573 | an encoded line decodes to its bytes without being bad |
| UuCodec.RoundTrip | third-party/bstring/bstraux.c:722-753 | the lines of an encoded text decode to the text, none bad, none unfinished |
| UuCodec.EncodedLines | third-party/bstring/bstraux.c:722-753 | line l begins behind l lines of 63 characters and is the character of the number of its bytes, the characters of the groups of six of their bits, four for every three bytes begun, and a line end; every line but the last stands for 45 bytes, and with the last one the encoding ends |
| UuCodec.EncIsLetter | third-party/bstring/bstraux.c:715 | the character of a number below 64 is the one at that place of "`!...^_" |
| UuCodec.Printable | third-party/bstring/bstraux.c:715-753 | every byte written is part of a line end or lies from 0x21 to 0x60: no space |
| UuLines.LineMeans | third-party/bstring/bstraux.c:504-573 | every line, spoiled ones included: it decodes to as many bytes as its length character says, which are the groups of eight of the bits of its characters, and is bad exactly when one that counts stands for nothing; or, when the length is out of range, fewer groups of four characters begin than it needs, or a character that counts spoils the line, to nothing, and is bad |
| UuStream.UuEncode | third-party/bstring/bstraux.c:722-753 | the loop writes the encoding, which `EncodedLines` gives character by character |
| UuStream.Decoder.DecodeLine | third-party/bstring/bstraux.c:504-573 | what a line decodes to is appended and a bad line is counted, for every line, spoiled and short ones included |
| UuStream.Decoder.DecodePart | third-party/bstring/bstraux.c:615-678 | each call serves the next bytes of the decoded text, at most as many as asked for, however the input arrives; at the end it decodes the unfinished line once more |
| UuStream.UuDecodeEx | third-party/bstring/bstraux.c:589-608 | for every text: when the unfinished last line decodes to nothing and the text fits the memory, the result is the decoded text, or null exactly when that is empty, and bad lines are counted, an unfinished one up to twice; otherwise a string that fills the memory up to a portion and is a beginning of the decoded text followed by that line over and over, which is counted every time when it is bad |
| UuStream.UuRoundTrip | third-party/bstring/bstraux.c:589-608 | decoding the encoding gives the string back with no bad line exactly when the string is not empty |
| UuStream.ServesNothing | third-party/bstring/bstraux.c:661-677 | a call serves nothing exactly when nothing is left and the unfinished line decodes to nothing |
| UuStream.ServedAgain | third-party/bstring/bstraux.c:657-671 | what k calls served and what is then left is what was left at first and the unfinished line once for every call that met the end of the input |
| UuStream.EndsIff | third-party/bstring/bstraux.c:661-677 | for every rest, unfinished line and positive size, the calls come to one that serves nothing exactly when the line decodes to nothing |
| UuStream.EndLost | third-party/bstring/bstraux.c:504-573 | every encoded line of at least one byte that has lost its line end is an unfinished line that decodes to its bytes |
| Base64.QuadBack | third-party/bstring/bstraux.c:376-385 | the four symbols of any three bytes are symbols and decode to these bytes |
| Base64.RoundTrip | third-party/bstring/bstraux.c:393-493 | decoding the encoding of any string gives the string and reports no truncation |
| Base64.EncodedPlaces | third-party/bstring/bstraux.c:302-371 | the encoding character by character: character k of it without line breaks is the one of "ABC...+/" at the k-th group of six bits, then padding to four for every three bytes begun; a line break stands behind every 76 characters of 57 bytes, and the length is given |
| Base64.SymbolIffLetter | third-party/bstring/bstraux.c:376-387 | the symbols are the characters of that row, and the value of a symbol is its place in it |
| Base64.DecodedBits | third-party/bstring/bstraux.c:393-493 | for every text: the places of its letters up to the first padding are a row of six-bit numbers, and the bytes are the groups of eight bits of it; truncation is reported exactly when letters or padding are missing behind whole groups of four |
| Sextets.FourSextets | third-party/bstring/bstraux.c:324-327 | three bytes are four groups of six bits, as the shifts and masks compute them |
| Base64.ShortLines | third-party/bstring/bstraux.c:308-371 | no stretch of the encoding without a line break has more than 76 characters |
| Base64.Encode | third-party/bstring/bstraux.c:308-371 | the loop writes the encoding, the break after each 57 bytes and the padding included; `EncodedPlaces` says which characters these are |
| Base64.Decode | third-party/bstring/bstraux.c:393-493 | on every input the loop yields the decoded text and the truncation flag that `DecodedBits` gives; without the flag asked for, null exactly for a truncated text |
| BJustify.LeftJustified | third-party/bstring/bstraux.c:111-128 | what the copying loop keeps is the words joined by single spaces |
| BJustify.JustifyLeft | third-party/bstring/bstraux.c:111-128 | the string becomes its words joined by single spaces; a space that is no byte changes nothing |
| BJustify.GapFair | third-party/bstring/bstraux.c:184-187 | the rounded share of the spaces leaves a fair share for the gaps left |
| BJustify.MarginWidth | third-party/bstring/bstraux.c:163-197 | the justified line has exactly the width, its gaps are at least 1 and differ by at most 1, and each is the nearest share of the spaces from it on, the greater one when two are equally near |
| BJustify.NearestUnique | third-party/bstring/bstraux.c:184-187 | gaps that are all nearest shares are determined by their sum and number |
| BJustify.MarginOnly | third-party/bstring/bstraux.c:163-197 | so the justified line is the one line of its words that fills the width with such gaps |
| BJustify.SpreadsIff | third-party/bstring/bstraux.c:167-179 | a line is spread exactly when it has two words or more and is, left-justified, by two characters or more too short |
| BJustify.MarginKeepsWords | third-party/bstring/bstraux.c:163-197 | the justified line has the same words in the same order |
| BJustify.LeftKeepsWords | third-party/bstring/bstraux.c:111-128 | so has the left-justified one |
| BJustify.JustifyMargin | third-party/bstring/bstraux.c:163-197 | the string is spread over the width when the words leave room and are at least two, and is left-justified otherwise |
| BJustify.InsertChrs | third-party/bstring/bstraux.c:93-105 | len copies of the character stand at pos; an argument out of range is an error that changes nothing |
| BSplit.SplitJoin | third-party/bstring/bstrlib.c:2521-2537 | joining the pieces with the character gives the string back, and no piece has the character |
| BSplit.JoinSplit | third-party/bstring/bstrlib.c:2521-2537 | splitting a join of pieces without the character gives the pieces back |
| BSplit.SplitStrAtJoin | third-party/bstring/bstrlib.c:2599-2625 | joining the pieces from any position on with the separator gives the string from there on, for every separator, the empty one included |
| BSplit.SplitStrJoin | third-party/bstring/bstrlib.c:2688-2710 | the pieces of `bsplitstr` joined with the separator are the whole string |
| BSplit.PieceWithSeparator | third-party/bstring/bstrlib.c:2616-2622 | a string whose pieces contain the separator |
| BSplit.OnlyAtFront | third-party/bstring/bstrlib.c:2616-2622 | a piece contains a longer separator at most at its own beginning, and the first piece not at all |
| BSplit.HoldsIff | third-party/bstring/bstrlib.c:2616-2622 | for every string and longer separator: some piece contains it exactly when at the end of a separator that was found another one stands, and none begins inside that |
| BSplit.HoldsIffDouble | third-party/bstring/bstrlib.c:2616-2622 | for a separator no proper beginning of which is its end: some piece contains it exactly when two of them stand in a row |
| BSplit.NoDoubleNoSeparator | third-party/bstring/bstrlib.c:2616-2622 | for every longer separator, when no two stand in a row no piece contains one |
| BSplit.DoubleWithoutSeparator | third-party/bstring/bstrlib.c:2616-2622 | "aaaaa" split at "aa" has two in a row and no piece that contains one |
| BSplit.StrList.Add | third-party/bstring/bstrlib.c:2632-2653 | the part of the string is added behind the pieces so far, the array growing when it is full |
| BSplitCalls.ForEachPiece | third-party/bstring/bstrlib.c:2521-2537 | for every callback: it is called for one piece after the other until it returns a negative value, which is returned; a position out of range is an error |
| BSplitCalls.ForEachStrPiece | third-party/bstring/bstrlib.c:2599-2625 | the same at a separator of any length |
| BSplitCalls.SpansCut | third-party/bstring/bstrlib.c:2521-2625 | the places the callback is given cut exactly the pieces of the split out of the string |
| BSplit.BSplit | third-party/bstring/bstrlib.c:2660-2682 | the list has the pieces of the string |
| BSplit.BSplitStr | third-party/bstring/bstrlib.c:2688-2710 | the list has the pieces of the string |
| BSplit.JoinLength | third-party/bstring/bstrlib.c:2257-2263 | the length computed beforehand is the length of the join |
| BSplit.JoinRoom | third-party/bstring/bstrlib.c:2257-2267 | the computed block size is positive exactly when there is a piece or the separator is empty |
| BSplit.BJoin | third-party/bstring/bstrlib.c:2250-2288 | the string is the join of the pieces, terminated inside a block of exactly its size |
| BSplit.SplitAndJoin | third-party/bstring/bstrlib.c:2688-2710 | splitting and joining with the same separator, whatever it is, gives a new string with the same text |
| BSplit.SplitAndJoinChar | third-party/bstring/bstrlib.c:2660-2682 | the same at a character |

## Left out

- BTree.KbTree.Del: requires the key to be present; for an absent key the leaf case removes some other key (include/craftd/klib/kbtree.h:238-243).
- BTree.Init: requires a block size of at least 12 bytes, the header and one pointer of 8; below, the original subtracts from an unsigned number (include/craftd/klib/kbtree.h:55). `KbTree.constructor` is its second half.
- KHash.Table.Put: excludes a table of 2^31 buckets, at least half of them keys, that has reached its bound of occupied buckets, since the next size would not fit the counters; tables used as sets (no value array) are not separate.
- KHashRuns.Run: is limited to 2^30 operations, so that a table of 2^31 buckets is never that full.
- FindReplace.FindReplaceEngine: requires the result to be shorter than 2^30, like every length here, and find and replacement not to lie in the unused room behind the text; the check for an overflowing sum (third-party/bstring/bstrlib.c:1659) then never fires.
- BString.BString.Concat: requires the result to be shorter than 2^30, and so do the other operations that make a string longer; their overflow checks then never fire. Balloc itself is modelled for all ints.
- BString.BString.Insert: a view into the string being changed has to lie within its text, not in the unused room behind it; the same holds for Concat, Assign, AssignMid, SetStr and Replace, and for what FindReplaceEngine finds and puts in.
- BStream.Stream.ReadBytes: requires all lengths to stay below 2^30.
- UuStream.UuDecodeEx: has a bound on the memory for a string in place of INT_MAX and of single failing allocations.
- UuStream.Decoder.DecodeLine: always counts bad lines; with a null `badlines` the original stops at one and decodes the lines before it again in the next call.
- BSplit.BJoin: requires a piece or an empty separator; for an empty list with a separator the computed block size is not positive (`JoinRoom`; third-party/bstring/bstrlib.c:2263).
- BSplitCalls.ForEachPiece: the callback is a function of its own state and of the place of the piece; one that changes the string is not modelled, and neither is it for ForEachStrPiece.
- BSplit.StrList.Add: the pieces are stored as values instead of as newly allocated strings.
- ClientProtocol.ProcessedInParseOrder: packets are numbers and a job that was freed may be allocated again at the same place; the packets' contents are not modelled.
- Allocation failure, null arguments and detectably corrupt string headers: the types exclude them.
- Memory lifetime: a block that `balloc` replaces may hold anything afterwards, and `realloc` counts as a move; other blocks are not freed, and the cleaning up of disconnected clients is not modelled.
- The load factor 0.77 of khash is the exact rational, rounded as in (77n + 50) / 100; hash functions are arbitrary functions of the key.
- B-tree keys are integers, standing for any finite key type with a total order; keys that compare equal but differ are not told apart, and `n_nodes` is not modelled.
- A worker's wait for work (a signal between the test and the wait is lost, src/Worker.c:78-86), its stopping, and the re-entrant locking between the read callback and the kick: what can happen is proved, but not that a scheduler lets it happen.
- The admin command that starts or stops workers (plugins/survival/commands/admin/src/workers.c:36-53): starting one is a step of the protocol, and the theorems on pools say what happens without it; stopping one is not modelled.
- Sockets, libevent, logging, configuration, plugins and scripting: they reach the model as the steps an environment may take at any time.
- `src/List.c` beyond a first-in first-out queue, `src/Set.c`, `src/Map.c` and `src/Hash.c`: thin wrappers or unrelated to the core.
- Binary, caseless and reverse searches, splitting at character sets, and the stream splitters of bstrlib: variants of what is modelled.
- The other codecs of `bstraux.c` (yEnc, netstrings) and right and center justification: easier than the ones modelled.
- Heap sort, comb sort and introsort of `ksort.h`.
