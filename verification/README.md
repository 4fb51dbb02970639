# Lock-free containers and update de-duplication

A Dafny model of the lock-free containers in `include/LFS` and of the client state machine that
uses them, with proofs. `dafny verify dfyconfig.toml` checks everything.

## What is modelled

* `Common`: what several modules share.
* `Bits`, `Words`, `Segments`, `SplitOrder`: bit reversal, logarithm and index arithmetic. `Bits`
  has the plain definitions; `Words` proves that the 64-bit tricks compute them.
* `TaggedPointers`: two tag bits in an aligned pointer. The other modules write a tagged pointer as
  a node and its tags.
* `HazardState`, `HazardScan`, `Hazard`, `HazardRuns`: hazard slots and deferred reclamation, as
  states, as the loops of `scan`, as a class, and over whole runs.
* `LiveNodes`, `OrderedList`: the ordered list in which a mark on the edge into a node says that the
  node is removed. Its ghost fields hold the physical chain and the removed nodes; the live sequence
  is what remains.
* `TableState`, `TableBuckets`, `HashTables`, `TableRuns`: the split-ordered hash table over that
  list, its growing segments, and whole runs against a mathematical map.
* `StackState`, `StackInvariant`, `StackSteps`, `StackSafety`, `StackLog`, `StackHistory`,
  `StackRuns`: the Treiber stack with hazard-protected `top` as a machine of interleaved steps under
  any schedule of any number of threads, with the scan split into draining a record, reading a
  slot's tags, reading its data, and deleting one address; what every run keeps.
* `StackReclaim`, `StackProgress`, `StackReturns`, `StackAlone`, `StackScan`: what the machine does
  achieve: what a scan deletes, why an operation starts over, that a thread alone returns from
  wherever it is, and with what.
* `Updates`, `Client`: what the client promises about updates, told on the responses alone, and the
  session that keeps it with the table as its set.

Lookups, insertions and searches take every mix of marked edges; keys are all 64-bit words.

## What the proofs show about the code

* Bit 63 marks regular nodes, so two keys that differ only there are one key to the table.
  `TableRuns.FaithfulIff` says exactly when the table is the mathematical map,
  `TableRuns.CollidingKeys` names the pairs for which it is not, 0 and 2^63 among them, and
  `TableRuns.ProbeNew` observes it on a new table.
* The comment on `log2_64` promises zero for zero; the code answers 63. Its callers never pass zero.
* A slot retired without an address is never reused (`HazardRuns.LeakExactly`); `LF_OrderList::search_node`
  and `LF_stack::pop` always retire with an address, and the list keeps this as an invariant.
* The client stores an update_id in a `size_t` and its successor in an `int64_t`. For stored ids of
  2^63 - 1 and above the offset is not one more than the stored id (`Updates.OffsetIsNext`); read
  as the signed numbers they are received as, that fails for 2^63 - 1 alone
  (`Updates.OffsetIsSuccessor`).
* Two update_ids that differ in bit 63 alone are one update to the client
  (`Updates.KeysAreIds`, `Updates.DispatchIff`).

## Model

| member | source | states |
|---|---|---|
| `Words.ReverseBitOrderIsReversal` | include/LFS/LF_HashTable.hpp:51-80 | on every 64-bit word the mask-and-shift reversal denotes the bit-by-bit reversal of the number the word denotes |
| `Words.ReverseBitOrderTwice` | include/LFS/LF_HashTable.hpp:51-80 | reversing a word twice gives the word back |
| `Words.SetUpperBitMeaning` | include/LFS/LF_HashTable.hpp:102-107 | setting bit 63 keeps the 63 low bits and adds 2^63 |
| `Words.TableIsRight` | include/LFS/LF_HashTable.hpp:31-41 | the De Bruijn table holds, for each one-bit word, the position of its bit |
| `Words.Log2WordIsLog2` | include/LFS/LF_HashTable.hpp:27-49 | for every nonzero word the smear-multiply-lookup is the floor of the binary logarithm |
| `Words.Log2WordOfZero` | include/LFS/LF_HashTable.hpp:27-49 | for zero the code answers 63, whatever its comment says |
| `Bits.ReverseInvolution` | include/LFS/LF_HashTable.hpp:51-80 | reversing n bits twice leaves the n low bits |
| `Bits.ReverseSplit` | include/LFS/LF_HashTable.hpp:51-80 | the reversal of m + n bits is the reversed low part, moved up, plus the reversed high part |
| `Bits.ReversePrefix` | include/LFS/LF_HashTable.hpp:51-99 | rev(h mod 2^m) <= rev(h), and the two agree on their first m bits |
| `Bits.ReverseLocality` | include/LFS/LF_HashTable.hpp:82-88 | what lies between rev(h mod 2^m) and rev(h) has the same m low bits as h |
| `TaggedPointers.CorruptSetsTag` | include/LFS/LF_hazardous.hpp:33-39 | corrupt_node sets one tag of an aligned pointer and keeps address and other tag |
| `TaggedPointers.ReadsTag` | include/LFS/LF_hazardous.hpp:44-50 | is_tagged reads exactly its own tag |
| `TaggedPointers.ClearClearsTag` | include/LFS/LF_hazardous.hpp:55-65 | clear_tag clears its own tag and keeps address and other tag |
| `TaggedPointers.ClearClearsBoth` | include/LFS/LF_hazardous.hpp:411-418 | clear_node_tag gives the address back |
| `TaggedPointers.ConcatKeepsTags` | include/LFS/LF_hazardous.hpp:70-77 | concat_ptr joins an address with the tags of a null pointer |
| `Segments.SegmentUnique` | include/LFS/LF_HashTable.hpp:604-619 | the popcount and logarithm formula gives the one segment s with 2^(s-1) < index <= 2^s |
| `Segments.SlotOfIndex` | include/LFS/LF_HashTable.hpp:415-431 | every global index has a slot inside its segment, and that slot stands for that index |
| `Segments.IndexOfSlot` | include/LFS/LF_HashTable.hpp:415-431 | every slot of every segment is the slot of the one index it stands for, so indexes and slots correspond one to one |
| `Segments.SlotCount` | include/LFS/LF_HashTable.hpp:586-599 | segments 0 to s have exactly one slot for each index 0 to 2^s |
| `Segments.GlobalIndexBound` | include/LFS/LF_HashTable.hpp:435-450 | the global index is the s low bits of the hash and lies in a segment up to s |
| `Segments.ParentLowBits` | include/LFS/LF_HashTable.hpp:462-471 | the parent of a bucket is its index without the highest set bit |
| `Segments.ClimbLength` | include/LFS/LF_HashTable.hpp:462-471 | climbing from a bucket reaches bucket 0 after exactly as many steps as its index has set bits |
| `Segments.ClimbBound` | include/LFS/LF_HashTable.hpp:476-525 | from any bucket of a table at level s bucket 0 is at most s steps away |
| `SplitOrder.WordsAgree` | include/LFS/LF_HashTable.hpp:122-130 | the order used on numbers is the one the word operations compute |
| `SplitOrder.RegularRank` | include/LFS/LF_HashTable.hpp:122-130 | a regular node comes right behind the place of a dummy with the same bits; dummies are even, regular nodes odd |
| `SplitOrder.PlainRank` | include/LFS/LF_HashTable.hpp:244-246 | the plain hash an insertion searches with has the place of the dummy or of the regular node |
| `SplitOrder.RegularRankUnique` | include/LFS/LF_HashTable.hpp:122-130 | two regular nodes share a place exactly when their keys agree below bit 63 |
| `SplitOrder.DummyRankUnique` | include/LFS/LF_HashTable.hpp:122-130 | dummies of different buckets have different places |
| `SplitOrder.BucketFirst` | include/LFS/LF_HashTable.hpp:444-450 | the dummy of h mod 2^s comes before every node with hash h |
| `SplitOrder.ParentFirst` | include/LFS/LF_HashTable.hpp:462-471 | the dummy of a bucket's parent comes before the dummy of the bucket |
| `SplitOrder.BucketLocality` | include/LFS/LF_HashTable.hpp:213-235 | every node between a bucket's dummy and a hash of that bucket belongs to the bucket |
| `HazardState.AcquireKeeps` | include/LFS/LF_hazardous.hpp:341-393 | the slot handed out was held by nobody, carries nothing, and is new only when all slots are in use; the slot invariant is kept |
| `HazardState.RetireKeepsValid` | include/LFS/LF_hazardous.hpp:209-216 | retiring a held slot gives it exactly one record and keeps the slot invariant and the balance of retirements |
| `HazardScan.Scan` | include/LFS/LF_hazardous.hpp:453-544 | a scan deletes only waiting addresses that no active slot holds, puts the others back, changes no active slot, and leaves at most as many waiting slots as there are active ones |
| `Hazard.Hazardous.FindFree` | include/LFS/LF_hazardous.hpp:341-366 | the first inactive slot, emptied, or none if there is none |
| `Hazard.Hazardous.MakeHazard` | include/LFS/LF_hazardous.hpp:370-393 | an inactive slot, or a new one only when none is inactive |
| `Hazard.Hazardous.Reclaim` | include/LFS/LF_hazardous.hpp:314-320 | the slot is recorded, and a scan runs exactly when the limit is reached |
| `Hazard.Hazardous.CheckLimit` | include/LFS/LF_hazardous.hpp:422-442 | a scan when the number of records reaches the limit, nothing otherwise |
| `Hazard.Hazardous.Clear` | include/LFS/LF_hazardous.hpp:323-336 | all slots and records go, and waiting addresses are forgotten, not deleted |
| `HazardRuns.RunValid` | include/LFS/LF_hazardous.hpp:341-544 | in every reachable state each slot is in exactly one of its states with exactly one owner or record, and every retirement is waiting, deleted or forgotten |
| `HazardRuns.RunDeletesRetired` | include/LFS/LF_hazardous.hpp:453-544 | over any run an address is deleted at most as often as it was retired |
| `HazardRuns.NextDeletesUnheld` | include/LFS/LF_hazardous.hpp:510-537 | only reclaim deletes, and never an address that an active slot holds |
| `HazardRuns.ProtectionHolds` | include/LFS/LF_hazardous.hpp:135-140 | over every run, what a handle protects stays in its slot, and is not deleted, until that handle protects another address, drops or reclaims its slot, or everything is cleared |
| `HazardRuns.NextReclaimBound` | include/LFS/LF_hazardous.hpp:422-442 | after every reclaim the waiting slots are fewer than the limit or at most as many as the active slots |
| `HazardRuns.PoolIsPeakDemand` | include/LFS/LF_hazardous.hpp:341-393 | between clears the pool has exactly as many slots as were ever active or retired at one time |
| `HazardRuns.LeakExactly` | include/LFS/LF_hazardous.hpp:474-482 | a reclaim loses a slot exactly when the slot carries no address |
| `HazardRuns.LeakForever` | include/LFS/LF_hazardous.hpp:474-482 | a lost slot is never handed out or recorded again before a clear |
| `LiveNodes.UnlinkDead` | include/LFS/LF_List.hpp:220-223 | unlinking a dead node changes no live node |
| `LiveNodes.InsertLive` | include/LFS/LF_List.hpp:455-478 | insertion puts the new node into the live sequence right behind its predecessor and changes nothing else |
| `LiveNodes.KillLive` | include/LFS/LF_List.hpp:484-496 | removal takes exactly one node out of the live sequence |
| `OrderedList.SearchMeaning` | include/LFS/LF_List.hpp:177-274 | the answer of a search depends on the live nodes alone: the first one behind the start that satisfies the predicate with its live predecessor, or the last live node and null |
| `OrderedList.ChainNotFreed` | include/LFS/LF_List.hpp:177-274 | no node a search can reach has been deleted or waits for deletion |
| `OrderedList.Comparator.Call` | include/LFS/LF_HashTable.hpp:213-247 | the three search predicates and the flag they leave behind |
| `OrderedList.OrderList.constructor` | include/LFS/LF_List.hpp:114-135 | two live ghosts, counter 0 |
| `OrderedList.OrderList.RetireNext` | include/LFS/LF_List.hpp:211-237 | one dead node is unlinked and retired, and the next one is protected by a new slot |
| `OrderedList.OrderList.SkipDead` | include/LFS/LF_List.hpp:211-246 | every dead node directly behind the position is unlinked and retired once; the live sequence stays |
| `OrderedList.OrderList.SearchNode` | include/LFS/LF_List.hpp:177-274 | terminates; unlinks and retires every dead node it passes; returns the first live node that stops the search, protected, with its immediate live predecessor, or the last live node |
| `OrderedList.OrderList.Find` | include/LFS/LF_List.hpp:416-420 | whether the search stops, with no slot left in use |
| `OrderedList.OrderList.Contain` | include/LFS/LF_List.hpp:389-401 | a copy of what the node that stops the search carries |
| `OrderedList.OrderList.Insert` | include/LFS/LF_List.hpp:435-481 | exactly one new node, directly behind the predecessor found (or behind the node found); tail and counter follow |
| `OrderedList.OrderList.Remove` | include/LFS/LF_List.hpp:484-496 | exactly the node behind prev becomes dead; tail moves back when it was the tail, and the counter drops by one |
| `OrderedList.OrderList.Clear` | include/LFS/LF_List.hpp:363-383 | every node of the chain, dead or alive, goes to the deleter once and none that was retired before |
| `OrderedList.OrderList.Size` | include/LFS/LF_FreeList.hpp:467-483 | the counter, which is never negative, counts the live nodes besides the ghosts |
| `TableState.FindOk` | include/LFS/LF_HashTable.hpp:213-235 | a search from a bucket's dummy stops at a node that is no dummy exactly when the key is present, and then at the node of that key |
| `TableState.TrimOk` | include/LFS/LF_HashTable.hpp:340-379 | unlinking dead nodes keeps every invariant of the table |
| `TableState.DummyFits` | include/LFS/LF_HashTable.hpp:530-564 | the place found for a bucket's dummy is strictly between its neighbours in the physical chain |
| `TableState.RegularFits` | include/LFS/LF_HashTable.hpp:340-351 | so is the place of a regular node, although its search uses the hash without bit 63 and dead nodes of the same place may have been linked |
| `TableState.InsertDummyOk` | include/LFS/LF_HashTable.hpp:530-564 | a new dummy keeps order, live index, and an index closed under parents |
| `TableState.InsertRegularOk` | include/LFS/LF_HashTable.hpp:340-351 | a new regular node keeps them |
| `TableState.RemoveOk` | include/LFS/LF_HashTable.hpp:353-379 | a removal keeps them and never touches a dummy |
| `TableState.SearchStaysInBucket` | include/LFS/LF_HashTable.hpp:764-780 | every node a lookup inspects before the stopping one is congruent to the hash modulo 2^s |
| `TableState.ShortcutIsScan` | include/LFS/LF_HashTable.hpp:764-780 | the search from a bucket's dummy ends where the search from bucket 0 ends |
| `TableState.LookIsScan` | include/LFS/LF_HashTable.hpp:764-780 | so a lookup in a bucket, whatever dead nodes it unlinked, answers as a search of the whole list does: the first live node whose reversed hash is not smaller, with its live predecessor |
| `TableState.DummyKeepsRegulars` | include/LFS/LF_HashTable.hpp:530-564 | a new dummy leaves the sequence of regular nodes as it is |
| `TableBuckets.BucketAt` | include/LFS/LF_HashTable.hpp:394-431 | every bucket below the table size lies in an allocated segment, inside its bounds, in the slot that holds its dummy |
| `TableBuckets.StoreOk` | include/LFS/LF_HashTable.hpp:566-568 | storing a bucket changes no other bucket |
| `TableBuckets.InflateOk` | include/LFS/LF_HashTable.hpp:642-665 | a new segment holds no initialised bucket and moves none |
| `TableBuckets.ClimbSteps` | include/LFS/LF_HashTable.hpp:476-525 | the climb to the first initialised bucket takes at most s steps |
| `TableBuckets.ClimbIsAncestors` | include/LFS/LF_HashTable.hpp:476-525 | the path up to the first initialised bucket, with what is initialised, is all the ancestors of the bucket |
| `TableBuckets.OverloadedMeans` | include/LFS/LF_HashTable.hpp:634-638 | the quotient test holds exactly when keys and buckets together are at least loadFactor + 1 for each bucket |
| `TableBuckets.LoadKept` | include/LFS/LF_HashTable.hpp:624-665 | growing first keeps at most loadFactor + 1 keys for each bucket with one key more |
| `TableBuckets.SizeBound` | include/LFS/LF_HashTable.hpp:716-720 | keys and initialised buckets together are at most loadFactor + 2 for each bucket |
| `HashTables.HashTable.constructor` | include/LFS/LF_HashTable.hpp:688-692 | an empty map with bucket 0 |
| `HashTables.HashTable.Allocate` | include/LFS/LF_HashTable.hpp:668-683 | bucket 0 and its dummy behind the ghosts |
| `HashTables.HashTable.TakeBucket` | include/LFS/LF_HashTable.hpp:490-496 | the bucket pointer of a global index |
| `HashTables.HashTable.InsertParentBucket` | include/LFS/LF_HashTable.hpp:530-564 | the bucket of the index with its own dummy; no regular node and no other bucket changes |
| `HashTables.HashTable.Climb` | include/LFS/LF_HashTable.hpp:498-508 | the path of uninitialised ancestors up to the first initialised bucket, all inside the table, at most s steps long |
| `HashTables.HashTable.GetParentBucket` | include/LFS/LF_HashTable.hpp:474-525 | the bucket of the hash; the initialised buckets become exactly those of before and the ancestors of that bucket, and the sequence of regular nodes stays |
| `HashTables.HashTable.Look` | include/LFS/LF_HashTable.hpp:764-780 | the answer in the key's bucket is the one a search of the whole list from bucket 0 ends with, and says whether the key is present |
| `HashTables.HashTable.InflateTable` | include/LFS/LF_HashTable.hpp:642-665 | grows by one segment exactly when keys and buckets are at least (loadFactor + 1) * 2^s, and changes nothing else |
| `HashTables.HashTable.BucketInsert` | include/LFS/LF_HashTable.hpp:340-351 | adds exactly the absent key |
| `HashTables.HashTable.RemoveFound` | include/LFS/LF_HashTable.hpp:366-378 | the flag is set, and the node becomes dead, only if the flag was clear |
| `HashTables.HashTable.BucketRemove` | include/LFS/LF_HashTable.hpp:353-379 | true exactly when the key is present, which then goes |
| `HashTables.HashTable.Insert` | include/LFS/LF_HashTable.hpp:731-748 | true exactly when the key is absent, which is then added with its value; the table grows first exactly when it holds (loadFactor + 1) * 2^s keys and buckets, and initialises exactly the ancestors of the key's bucket |
| `HashTables.HashTable.Remove` | include/LFS/LF_HashTable.hpp:752-759 | true exactly when the key is present, which then goes |
| `HashTables.HashTable.Find` | include/LFS/LF_HashTable.hpp:764-780 | membership; nothing of the map changes, and exactly the ancestors of the key's bucket are initialised |
| `HashTables.HashTable.Contain` | include/LFS/LF_HashTable.hpp:785-802 | the value stored under the key, or none |
| `HashTables.HashTable.Clear` | include/LFS/LF_HashTable.hpp:805-827 | the empty map; every linked node goes to the deleter |
| `HashTables.HashTable.Size` | include/LFS/LF_HashTable.hpp:716-720 | keys plus initialised buckets, within the load guarantee |
| `TableRuns.FaithfulIff` | include/LFS/LF_HashTable.hpp:731-827 | the map of canonical keys, as which the table answers (Replay), answers every sequence of operations over a set of keys as the map of the keys themselves exactly when no two of them differ in bit 63 alone |
| `TableRuns.CollidingKeys` | include/LFS/LF_HashTable.hpp:102-107 | two 64-bit keys have one canonical key exactly when they are equal but for bit 63; 0 and 2^63 are such a pair |
| `TableRuns.CollisionObserved` | include/LFS/LF_HashTable.hpp:764-780 | for every such pair, a sequence of two operations that the two maps answer differently |
| `TableRuns.ProbeNew` | include/LFS/LF_HashTable.hpp:764-780 | the same on a new table: after inserting one key of such a pair it finds the other, which the map of the keys does not |
| `TableRuns.SmallKeysApart` | include/LFS/LF_HashTable.hpp:102-107 | keys below 2^63 are never confused |
| `TableRuns.Perform` | include/LFS/LF_HashTable.hpp:731-827 | each operation, but an insert into a full table, is one step of the map of canonical keys, in answer and effect, and of the level and the set of initialised buckets |
| `TableRuns.FullMeans` | include/LFS/LF_HashTable.hpp:624-665 | the next insert needs segment 31 exactly when the table has segment 30 and holds (loadFactor + 1) * 2^30 keys and buckets, and then at least loadFactor * 2^30 keys |
| `TableRuns.Replay` | include/LFS/LF_HashTable.hpp:731-827 | every sequence of operations is answered as by the map of canonical keys, and ends with the keys, the level and the buckets that the operations alone determine, up to its end or to the first insert for which there is no room |
| `TableRuns.GrewByLoad` | include/LFS/LF_HashTable.hpp:642-665 | no table grows early: one with last segment s >= 1 has had an insert that found (loadFactor + 1) * 2^(s-1) keys and buckets |
| `TableRuns.RoomyServed` | include/LFS/LF_HashTable.hpp:624-665 | a sequence that finds fewer than loadFactor * 2^30 keys at each insert is answered to its end |
| `TableRuns.RunNew` | include/LFS/LF_HashTable.hpp:731-827 | a new table answers any sequence as the mathematical map, unless two keys differ in bit 63 alone: to its end when the map has fewer than loadFactor * 2^30 keys at each insert, and otherwise up to the first insert for which keys and buckets leave no room |
| `StackSteps.PushCasSound` | include/LFS/LF_FreeList.hpp:356-366 | a push step keeps the chain, the slots and every other thread's knowledge, whether its compare-exchange succeeds or not |
| `StackSteps.PopCasSound` | include/LFS/LF_FreeList.hpp:320-343 | so does a pop step |
| `StackSteps.DrainFresh` | include/LFS/LF_hazardous.hpp:465-488 | a drained address is never already in the map of retired nodes |
| `StackSteps.FreeSound` | include/LFS/LF_hazardous.hpp:510-543 | deleting or putting back one address keeps the invariant; no address is deleted twice |
| `StackSafety.CheckSafe` | include/LFS/LF_stack.hpp:64-75 | a reader that sees the protected head again is covered against any scan under way |
| `StackSafety.VisitTagSafe` | include/LFS/LF_hazardous.hpp:491-506 | no visit of a scan passes over the slot of such a reader |
| `StackSafety.FreeSafe` | include/LFS/LF_hazardous.hpp:510-537 | the scan deletes nothing such a reader holds |
| `StackRuns.RunInv` | include/LFS/LF_stack.hpp:51-84 | every run of any number of threads keeps all of this |
| `StackRuns.TopNeverReadsFreed` | include/LFS/LF_stack.hpp:64-84 | under every schedule top reads only nodes not handed to the deleter, no address is deleted twice, and none on the stack |
| `StackRuns.Linearizable` | include/LFS/LF_FreeList.hpp:320-366 | under every schedule the effects, in their order, are those of a sequential stack, last in, first out, that ends as the chain behind head, and a thread's events are call, effect, return |
| `StackHistory.LifoIff` | include/LFS/LF_stack.hpp:51-84 | the sequential stack told on the log alone: effects are its effects if and only if each value answered is that of the latest push not yet popped, and Empty is answered when every push has been popped |
| `StackAlone.PushAlone` | include/LFS/LF_FreeList.hpp:356-366 | from every reachable state an idle thread that runs alone has pushed after four steps: the value on top, the counter one more, and the log call, effect, return |
| `StackAlone.TopAlone` | include/LFS/LF_stack.hpp:64-84 | a top alone answers the latest value, or Empty, after seven steps; only its slot differs, which is inactive again |
| `StackAlone.PopEmptyAlone` | include/LFS/LF_FreeList.hpp:320-343 | a pop alone of the empty stack answers Empty after three steps and changes nothing |
| `StackScan.PopAlone` | include/LFS/LF_stack.hpp:51-60 | a pop alone ends, takes the latest value, and retires its node; if two wait then and no scan is under way, exactly the waiting addresses that no active slot holds are deleted |
| `StackScan.PopAloneCleans` | include/LFS/LF_hazardous.hpp:510-543 | with no slot active it returns with fewer than two records and isBusy clear; with one record before, both addresses are deleted and both slots given back |
| `StackReclaim.ScanDeletes` | include/LFS/LF_hazardous.hpp:453-543 | under every schedule, when a scan ends each address it drained has been deleted, or an active slot has held it since the scan found the list empty |
| `StackProgress.RetryMeans` | include/LFS/LF_FreeList.hpp:320-366 | under every schedule, a head that is no longer what a thread has read was changed by another thread's push or pop since then |
| `StackProgress.StartOverMeans` | include/LFS/LF_FreeList.hpp:320-366 | so a thread starts over only after another thread's push or pop took effect |
| `StackReturns.ReturnsAlone` | include/LFS/LF_stack.hpp:51-84 | from every state of every run, wherever it is in its operation, a thread that runs alone returns within a stated number of steps |
| `StackRuns.EffectWithinCall` | include/LFS/LF_stack.hpp:51-84 | each return has its call and its effect before it with no other event of the thread between |
| `StackRuns.CounterRight` | include/LFS/LF_FreeList.hpp:320-366 | the counter is the length plus pending decrements minus pending increments |
| `StackLog.ReturnMeans` | include/LFS/LF_FreeList.hpp:320-366 | what an unbroken log says about one operation |
| `Updates.DispatchedExactly` | client/client.cpp:456-527 | a response is dispatched exactly when it is the first accepted one with its key and holds a message |
| `Updates.DispatchIff` | client/client.cpp:456-527 | over a set of update_ids, in every sequence of responses exactly the first accepted response with an id, if it holds a message, is dispatched: if and only if no two of the ids differ in bit 63 alone, as for all ids below 2^63 |
| `Updates.KeysAreIds` | client/client.cpp:176-185 | the set takes two update_ids for one exactly when they agree below bit 63 |
| `Updates.AtMostOnce` | client/client.cpp:456-527 | over any sequence of responses each update_id is dispatched at most once, in order of arrival |
| `Updates.PairDispatched` | client/client.cpp:498-504 | of two updates the first is dispatched, and the second if and only if the ids differ below bit 63 |
| `Updates.OffsetBefore` | client/client.cpp:580-584 | before any accepted update the offset is -1 |
| `Updates.OffsetLatest` | client/client.cpp:580-589 | afterwards it belongs to the latest accepted update, whatever came behind it |
| `Updates.OffsetIsNext` | client/client.cpp:176-185 | that offset is one more than the id stored as a size_t if and only if this fits a signed 64-bit word |
| `Updates.OffsetIsSuccessor` | client/client.cpp:176-185 | read as the signed number the response carries (include/entities/TelegramResponse.hpp:120), every update_id but 2^63 - 1 is followed by the offset one more than it |
| `Client.MessagesAre` | client/client.cpp:481-491 | the messages handed over are those of the dispatched responses |
| `Client.SetInsert` | include/LFS/LF_set.hpp:91-96 | whether the id is new to the set, which it then is in |
| `Client.TgSession.UpdateId` | client/client.cpp:176-185 | the next id goes on top of the stack, also for a duplicate |
| `Client.TgSession.ParseResult` | client/client.cpp:456-527 | set, stack and messages are what the responses so far determine |
| `Client.TgSession.Offset` | client/client.cpp:580-589 | the offset the responses so far determine |
| `Client.Serve` | client/client.cpp:533-570 | every request of handshakes and the waiting loop carries the offset of the responses before it; two failures in a row, or one at the start, end the program |
| `Client.ToldOnOutcomes` | client/client.cpp:456-589 | what the responses so far determine, told on the outcomes of the requests alone |
| `Client.RunNew` | client/client.cpp:533-641 | a new client, told on the outcomes alone: it sends exactly the messages that come with a new id, requests with the offset after the latest update, and ends exactly at the first failure that is first of all or follows a failure |

## Left out

- HashTables.HashTable.Insert: requires that growth does not need segment 31, because the table size is computed in an `int` (include/LFS/LF_HashTable.hpp:438, 598).
- TableRuns.Replay: stops at an insert that needs segment 31, for the same reason.
- Client.TgSession.ParseResult: requires of an accepted response that the set does not need segment 31.
- Client.Serve: bounds the distinct accepted ids below loadFactor times 2^30 for the same reason.
- Client.RunNew: does so with load factor 2; ids are 64-bit words.
- Hazard.Hazardous.Reclaim: requires that the address does not wait already, which the source asserts (include/LFS/LF_hazardous.hpp:482-483).
- Hazard.Hazardous.Clear: requires that no slot is in use; a handle that outlives the clear is not modelled.
- OrderedList.OrderList.Remove: requires an unmarked edge to a node, as its one caller in the table ensures.
- In the stack machine `make_hazard` is one step that hands out any inactive slot or a new one; each operation on `rlist_` is one step, and so is deleting one address together with freeing its slot.
- List, table and the slot lifecycle under interleaving: one operation is one atomic step there, as the client drives everything from one thread. The retry branches of their compare-exchanges, and the wait loop of `get_segment`, are then never taken and have no counterpart.
- C++ memory orders; the stack's steps are sequentially consistent, its allocator never reissues an address, and `next_` of a pushed node does not change.
- `pop` reads `head->next()` of a node it does not protect: not claimed to be memory safe.
- A `Bucket` object is modelled as the node pointer it holds, and deleting Bucket objects and segments has no further effect.
- `node->data_.first = 0` in `allocate` stores the value already there.
- Exceptions thrown by a deleter inside `scan`.
- `FreeList::merge`, `cut`, `push_back`, moves, `purge` and destructors; `LF_OrderList` move and `cut`; iterators, which expose ghosts and dummies; key types other than `size_t`.
- The stack's own `clear`, and freeing of retired nodes across a clear: `Hazardous::clear` forgets them.
- Networking, TLS, sessions and redirects, JSON and URL handling, the searcher, logging, and the `Timer` that may make the client read without a new request.
- A response carries at most one update, and what `send_command` does with a message is outside.
- The `reconnect` recursion of `start_waiting` is modelled as one loop over the outcomes of successive requests.
