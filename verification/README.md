# Redis 3.0 core: models and proofs

A model of the parts of the Redis 3.0 server that are hardest to get right, with proofs of what they
promise. Code that updates state in place is modelled by methods, loops and classes; each method is
proved against a function that says what it does, and the properties over whole runs are proved about
those functions.

| component | files | main results |
|---|---|---|
| Dictionary with incremental rehashing (`dict.c`) | `Words`, `Dict`, `DictSizes`, `Scan`, `ScanExact`, `SafeIterator`, `RedisDict` | `RunRefines`, `SmallRunRefines`, `AddIsRightIff`, `RehashIsRightIff`, `LoadIsBounded`, `RehashEnds`, `ScanComplete`, `ScanCompleteWhenGrowing`, `CallIsSafeIffAligned`, `CallEmitsExactly`, `QuietScanIsExact`, `SafeIteration`, `IterationIsExactIff` |
| Cluster bus: epochs, votes, slots (`cluster.c`) | `Slots`, `Cluster`, `NodeRuns`, `ClusterNet`, `EpochBound`, `Election`, `Ballots`, `Succession`, `Packets`, `Failover`, `SlotCommands`, `StaleAck`, `Collision`, `Claims`, `ReplicaSlots`, `ReplicaArray`, `ClusterState` | `RunKeepsAgreement`, `CommandSafeIff`, `RunKeepsEpochBound`, `EpochsGrowSlowly`, `ElectionSafety`, `PromotionHasFailedMaster`, `FailoverHappens`, `WinnerIsHeard`, `DemotedIffLostLast`, `SafeIffInTime`, `RepairIsBounded`, `QuietIffDistinct`, `ClaimsConverge` |
| Request routing and live slot migration (`cluster.c`) | `Routing`, `Redirection`, `Migration`, `LossyMigration`, `MigrationProgress` | `TwoRedirectionsSuffice`, `MigrationIsTransparent`, `MigrationCompletes`, `CloseSafeIff`, `LossyMigrationIsTransparent`, `TargetActsIff`, `DeletionSafeIff` |
| Append-only file (`aof.c`) | `AofLog`, `AofRewrite`, `AofServer`, `AofDurability`, `AofFile` | `LoadPrinted`, `LoadPrefix`, `LoadGivesLiveData`, `RewriteGivesLiveData`, `WritesAreDurable`, `SwapIsDurable` |
| Bit routines (`bitops.c`) | `Bitops`, `Bitpos`, `Bitop` | `Popcount`, `Bitpos`, `Bitop`, `CombinedBit` |
| Event ports (`ae_evport.c`, `ae.c`) | `EventPort`, `EventLoop` | `RunKeepsExclusive`, `CreateKeepsIff`, `RunListens` |
| Background jobs (`bio.c`, `adlist.c`) | `AdList`, `BackgroundJobs`, `BioQueue` | `JobsRunInOrder`, `WorkerCatchesUp` |
| CRC-64 and DUMP payloads (`crc64.c`, `cluster.c`) | `Crc64`, `DumpPayload` | `BurstIsDetected`, `OneByteIsRejected` |

`Options` holds the option type that all of them share. `dafny verify dfyconfig.toml` checks the whole project.

How the pieces are put:

- A 64-bit `unsigned long` that is masked, reversed and incremented is a sequence of 64 bits, least
  significant first (`Words`). Words that are only shifted, masked and added are bit vectors.
- Hash functions are parameters. So are clocks, random delays, what system calls return, and what the
  kernel or a peer does next: the theorems hold for all of them.
- A cluster is a map of node views and a multiset of packets. A step is a send, a delivery, a loss, a
  timer or a command; delivery may be late and out of order, but a packet is delivered at most once.
  The number of slots is a parameter.
- Sizes and indices of a dictionary are cut to the source's types, as are the numbers in an append-only
  file. Epochs are unbounded, but grow by at most one a step (`EpochBound.EpochsGrowSlowly`). Where C does
  not define what a dictionary command does, the model's reply is `Undefined` and the methods are not
  called.
- `System.votes`, `counted` and `promotions`, and `State.submitted` and `finished` of the job queue, are
  histories that no step reads.

Where the source and its comments disagree, the source is modelled:

- The comment on `dictScan` promises that every element present throughout is returned. With a table that
  is shrunk during the scan this is false: `Scan.ShrinkingCanLoseKey` is a run that loses a key, and
  `Scan.CallIsSafeIffAligned` says exactly at which cursors a call is safe.
- The comment on `dictResize` promises the smallest size that holds all entries. Their number is cut to an
  `int`, so this holds exactly when it fits one (`Dict.ResizeIsMinimalIff`).
- `dictNext` compares an `int` index with the size cut to an `int`: a table of 2^31 buckets looks empty to an
  iterator (`SafeIterator.OneKeyIsMissed`), and iteration is exact exactly when the tables have at most 2^30
  buckets (`SafeIterator.IterationIsExactIff`).
- `_dictKeyIndex` returns a bucket as an `int` in which -1 means that the key exists, and `rehashidx` is an
  `int`: `DictSizes.AbsentKeyIsRefused` is an absent key that is refused, `DictSizes.AddIsRightIff` and
  `DictSizes.RehashIsRightIff` say exactly for which sizes adding and rehashing are right, and
  `DictSizes.SmallRunRefines` gives runs that never leave them.
- The comment on `clusterDelNodeSlots` promises the number of deleted slots; the counter it returns counts
  every slot. The two agree exactly when the node owned all slots (`ClusterState.State.DelNodeSlots`).
- `clusterSetMaster` asserts that this node has no slots, but slot commands do not refuse a replica. The
  assertion is modelled: `ReplicaSlots.AddSlotsThenClaimStops` is a run that fails it, and
  `ReplicaSlots.CommandSafeIff` says exactly which commands make it fail. A node whose assertion failed is
  stopped; the theorems over runs hold even if it went on.
- `clusterNodeRemoveSlave` hands `memmove` a number of elements as a number of bytes
  (`ReplicaArray.RemovalTearsPointer`); only the last replica is removed rightly
  (`ReplicaArray.OnlyLastIsRemoved`).
- MIGRATE is meant to move a key. After a lost reply the key is at both nodes and the retry is refused;
  `LossyMigration.DeletedKeyComesBack` is a run in which a deleted key comes back, and
  `LossyMigration.DeletionSafeIff` says exactly which deletions are safe. A command with several keys may
  also be served on such a copy (`LossyMigration.StaleCopyIsServed`, `LossyMigration.TargetActsIff`).
- The vote count is zeroed when an election is scheduled, but its epoch changes only when it starts.
  `StaleAck.StaleAckBreaksSafety` is a run in which an ACK that arrives in between gets two replicas
  promoted in one epoch, with every other assumption met; `StaleAck.SafeIffInTime` says that the other
  assumptions give safety exactly when no ACK is counted in between.
- The comment at the top of `ae_evport.c` promises that each association is in one of two places. It is
  broken by one call: registering an empty mask on a descriptor with an empty mask
  (`EventPort.CreateKeepsIff`).

## Model

| member | source | states |
|---|---|---|
| `Dict.RunRefines` | redis-3.0/src/dict.c:280-856 | Over every sequence of adds, replaces, deletes, finds, expansions, resizes, rehash steps and iterator openings, the two-table dictionary gives the replies of a finite map exactly when no command misreads an index that was cut to an `int`, leaves a table or asks for an impossible one; then it ends up representing the map, and its validity (no key in both tables, empty buckets below `rehashidx`, `used` equal to the chain totals, power-of-two sizes) holds throughout |
| `Dict.CommandRefines` | redis-3.0/src/dict.c:488-856 | One command on any valid dictionary that represents a map gives the map's reply exactly when it is `Indexable`, and then leaves one that represents the updated map |
| `Dict.CommandEffect` | redis-3.0/src/dict.c:488-856 | What each command does to lookups and to the entry count, whether or not it also moves a bucket or starts a resize; a command whose C code is not defined changes nothing in the model |
| `Dict.AddEffect` | redis-3.0/src/dict.c:530-567 | An absent key is added, and becomes the one change of lookups, unless its bucket is read as -1; a present key is refused |
| `Dict.AddLands` | redis-3.0/src/dict.c:552-566 | A new entry is found in the second table while rehashing and in the first otherwise, and not in the other |
| `Dict.ReplaceEffect` | redis-3.0/src/dict.c:582-613 | Replacing stores the value whether the key was present or not and reports which, unless the key is absent and its bucket is read as -1 |
| `Dict.DeleteEffect` | redis-3.0/src/dict.c:654-719 | Deleting takes out exactly the one key, from whichever table holds it, and reports whether it was there |
| `Dict.FindEffect` | redis-3.0/src/dict.c:817-856 | Finding changes no lookup although it may move a bucket |
| `Dict.ExpandKeeps` | redis-3.0/src/dict.c:280-335 | Starting an expansion keeps the dictionary valid and every lookup unchanged |
| `Dict.ExpandSize` | redis-3.0/src/dict.c:280-335 | An accepted expansion allocates an empty table of the smallest power of two that is at least 4 and at least the requested size, as the first table or as the target of a rehash |
| `Dict.ExpandIfNeededKeeps` | redis-3.0/src/dict.c:1397-1426 | The automatic expansion keeps the dictionary valid and every lookup unchanged |
| `Dict.ResizeKeeps` | redis-3.0/src/dict.c:249-264 | Resizing, with the number of entries cut to an `int`, keeps the dictionary valid and every lookup unchanged |
| `Dict.ResizeIsMinimalIff` | redis-3.0/src/dict.c:249-264 | The size asked for is the smallest that holds all entries exactly when their number fits an `int`; a larger dictionary is left alone |
| `Dict.RehashStep` | redis-3.0/src/dict.c:361-418 | One round of rehashing keeps validity and all entries, and ends by moving the second table into the place of the first when nothing is left (`DictSizes.RehashIsRightIff` says for which sizes the source's `int` index allows it) |
| `Dict.Rehash` | redis-3.0/src/dict.c:354-421 | Any number of rounds keeps validity and all entries |
| `Dict.MoveBucket` | redis-3.0/src/dict.c:389-415 | Moving a bucket leaves it empty and keeps every lookup and the count |
| `Dict.MoveHeadKeeps` | redis-3.0/src/dict.c:393-413 | Moving one entry takes it out of the first table and makes it found in the second; lookups are unchanged and the two counts change by one |
| `Dict.SkipStopsInBounds` | redis-3.0/src/dict.c:380-386 | While entries are left, the loop that skips empty buckets stops at a non-empty bucket inside the table |
| `Dict.InsertKeeps` | redis-3.0/src/dict.c:552-566 | Linking an entry at the head of its chain keeps the table valid and changes exactly that key |
| `Dict.RemoveKeeps` | redis-3.0/src/dict.c:684-705 | Unlinking an entry keeps the table valid and changes exactly that key |
| `Dict.SetKeeps` | redis-3.0/src/dict.c:597-611 | Overwriting a value keeps the table valid and changes exactly that key |
| `DictSizes.AddIsRightIff` | redis-3.0/src/dict.c:1461-1498 | Adding stores every absent key, for every hash function, dictionary and key, exactly when the table addressed has at most 2^31 buckets |
| `DictSizes.AbsentKeyIsRefused` | redis-3.0/src/dict.c:532-547 | A concrete dictionary: an empty table of 2^32 buckets or more refuses a key whose 32-bit hash has all bits set, as if it were there |
| `DictSizes.RehashIsRightIff` | redis-3.0/src/dict.c:361-418 | A round of rehashing stays within the table and within the type of `rehashidx`, whatever is stored, exactly when the table that is emptied has at most 2^30 buckets |
| `DictSizes.SmallRunRefines` | redis-3.0/src/dict.c:280-856 | From tables of at most 2^30 buckets, every run that adds to at most 2^29 entries, resizes at most 2^30 and asks for at most 2^30 buckets gives the answers of a finite map, represents it at the end and keeps the tables that small |
| `DictSizes.FullTableGrows` | redis-3.0/src/dict.c:1397-1426 | A dictionary without a table gets four buckets; one with as many entries as buckets (six times as many if resizing is off) starts to be rehashed into at least twice and less than four times as many buckets as entries; any other is left alone |
| `DictSizes.LoadIsBounded` | redis-3.0/src/dict.c:1397-1426 | After any add, a dictionary that is not being rehashed has at most as many entries as buckets if it may be resized, and at most six times as many otherwise |
| `DictSizes.RoundMovesOn` | redis-3.0/src/dict.c:361-418 | A round of rehashing moves the index on over same-sized tables, or, once the first table is empty, ends the rehash |
| `DictSizes.RehashEnds` | redis-3.0/src/dict.c:354-421 | As many rounds as there are buckets left, and one more, end any rehash |
| `DictSizes.CommandMovesOn` | redis-3.0/src/dict.c:474-476 | While rehashing, every add, delete and find moves the index on or has ended the rehash, unless an iterator is open; then none does |
| `Scan.ScanComplete` | redis-3.0/src/dict.c:1300-1387 | A scan from cursor 0 until a call returns 0 emits every key present throughout, with any commands between the calls, as long as at each call that sees two tables the cursor bits between the two masks have the form 0..01..1 |
| `Scan.ScanCompleteWhenGrowing` | redis-3.0/src/dict.c:1300-1387 | A scan emits every key present throughout when adds, deletes, rehash steps and growth by any factor happen between the calls |
| `Scan.CallIsSafeIffAligned` | redis-3.0/src/dict.c:1361-1374 | With two tables in use, a call loses no key, whatever is stored, exactly when the cursor bits between the masks have the form 0..01..1 |
| `Scan.ShrinkingCanLoseKey` | redis-3.0/src/dict.c:1361-1374 | A concrete run with cursors 0, 8, 2, 1, 3, 0 in which the table is shrunk after the first call and a key present throughout is never emitted |
| `Scan.ScanReturnsAfterSizeCalls` | redis-3.0/src/dict.c:1300-1387 | With the size fixed, the cursor is 0 again after as many calls as there are buckets and not before |
| `Scan.CallCovers` | redis-3.0/src/dict.c:1300-1387 | A key the cursor passes in one call had been passed before or is emitted by the call |
| `Scan.EmitLargeCovers` | redis-3.0/src/dict.c:1361-1374 | The expansion loop visits exactly the large buckets that agree with the cursor on the small mask and are not below it between the masks |
| `Scan.CursorPasses` | redis-3.0/src/dict.c:1377-1384 | One increment of the reversed cursor passes exactly the current bucket |
| `Scan.AdvanceIs` | redis-3.0/src/dict.c:1377-1384 | Setting the unmasked bits, reversing, incrementing and reversing back steps the masked bits to their successor in reversed order and clears the rest |
| `ScanExact.CallEmitsExactly` | redis-3.0/src/dict.c:1300-1387 | For every valid dictionary and every cursor, one call emits an entry if and only if it is stored, its hash agrees with the cursor on the smaller mask and, when the larger table holds it, its bits between the masks are not below the cursor's |
| `ScanExact.CallEmitsOnce` | redis-3.0/src/dict.c:1300-1387 | No key is emitted twice by one call |
| `ScanExact.CallPasses` | redis-3.0/src/dict.c:1377-1384 | One call passes, beyond what was passed before, exactly the hashes that agree with the cursor on the smaller mask; on an empty dictionary it returns 0 |
| `ScanExact.SeenWasThere` | redis-3.0/src/dict.c:1300-1387 | Over any run, every key returned was in the dictionary at the call that returned it |
| `ScanExact.AbsentIsNeverSeen` | redis-3.0/src/dict.c:1300-1387 | A key absent at every call of a scan is never returned |
| `ScanExact.QuietScanIsExact` | redis-3.0/src/dict.c:1300-1387 | An undisturbed scan of a dictionary that is not being rehashed emits every entry exactly once, and nothing else |
| `SafeIterator.SafeIteration` | redis-3.0/src/dict.c:937-1032 | From its first `dictNext` on, a safe iterator returns a key that stays in the dictionary at most once, and exactly once when it returns NULL, with adds, replacements, finds, resizes and deletions of returned entries interleaved, as long as every `dictNext` finds tables of at most 2^30 buckets |
| `SafeIterator.NextReturnsOne` | redis-3.0/src/dict.c:953-1013 | On tables of at most 2^30 buckets `dictNext` takes exactly the returned key off the keys ahead and returns NULL only when none is ahead |
| `SafeIterator.NextReturnsStored` | redis-3.0/src/dict.c:953-1013 | What `dictNext` returns is an entry of the dictionary with its value; the dictionary is left alone but for the count of the iterator |
| `SafeIterator.ReturnedWasThere` | redis-3.0/src/dict.c:953-1013 | Over any run, every key returned was in the dictionary at the call that returned it |
| `SafeIterator.IterationIsExactIff` | redis-3.0/src/dict.c:979-979 | In every dictionary of the given sizes and over every run that keeps them, each key that stays is returned exactly once, exactly when both tables have at most 2^30 buckets |
| `SafeIterator.OneKeyIsMissed` | redis-3.0/src/dict.c:979-979 | A concrete dictionary of one key and 2^31 buckets whose first `dictNext` returns NULL |
| `SafeIterator.LargeTableEndsAtOnce` | redis-3.0/src/dict.c:979-979 | With 2^31 buckets or more and no rehash, the first `dictNext` returns NULL, whatever is stored |
| `SafeIterator.CommandKeepsPlace` | redis-3.0/src/dict.c:474-476 | A command run while a safe iterator is open leaves a surviving key ahead of the iterator exactly when it was ahead |
| `RedisDict.DictNextPower` | redis-3.0/src/dict.c:1434-1444 | The doubling loop returns the smallest power of two that is at least 4 and at least the requested size |
| `RedisDict.Rev` | redis-3.0/src/dict.c:1152-1160 | The six rounds of block swapping reverse the bits of a 64-bit word |
| `RedisDict.HashTable.Link` | redis-3.0/src/dict.c:552-566 | An entry is put at the head of its chain in place |
| `RedisDict.HashTable.Drop` | redis-3.0/src/dict.c:684-705 | An entry is unlinked in place |
| `RedisDict.HashTable.Put` | redis-3.0/src/dict.c:597-611 | A value is overwritten in place |
| `RedisDict.RedisDict.constructor` | redis-3.0/src/dict.c:198-235 | A new dictionary has no tables and is not rehashing |
| `RedisDict.RedisDict.Expand` | redis-3.0/src/dict.c:280-335 | The in-place method does what `Dict.Expand` says, unless the new table's size in bytes would overflow |
| `RedisDict.RedisDict.ExpandIfNeeded` | redis-3.0/src/dict.c:1397-1426 | The in-place method does what `Dict.ExpandIfNeeded` says |
| `RedisDict.RedisDict.Resize` | redis-3.0/src/dict.c:249-264 | The in-place method does what `Dict.Resize` says |
| `RedisDict.RedisDict.MoveBucket` | redis-3.0/src/dict.c:389-415 | The entry-by-entry loop moves the bucket as `Dict.MoveBucket` says |
| `RedisDict.RedisDict.RehashRound` | redis-3.0/src/dict.c:361-418 | One round, including the skip loop, does what `Dict.RehashStep` says, wherever `rehashidx` stays an `int` |
| `RedisDict.RedisDict.Rehash` | redis-3.0/src/dict.c:354-421 | The loop does what `Dict.Rehash` says and tells whether work is left, wherever `rehashidx` stays an `int` |
| `RedisDict.RedisDict.Step` | redis-3.0/src/dict.c:474-476 | One bucket is moved unless an iterator is open |
| `RedisDict.RedisDict.Find` | redis-3.0/src/dict.c:817-856 | The search returns what `Dict.Find` says and leaves the state it says |
| `RedisDict.RedisDict.KeyIndex` | redis-3.0/src/dict.c:1461-1498 | The index of an absent key, cut to an `int`, or -1 when the key is present in either table |
| `RedisDict.RedisDict.Add` | redis-3.0/src/dict.c:488-567 | The in-place method does what `Dict.Add` says, wherever its C code is defined |
| `RedisDict.RedisDict.Replace` | redis-3.0/src/dict.c:582-613 | The in-place method does what `Dict.Replace` says, wherever its C code is defined |
| `RedisDict.RedisDict.Delete` | redis-3.0/src/dict.c:654-719 | The in-place method does what `Dict.Delete` says |
| `RedisDict.DictScan` | redis-3.0/src/dict.c:1300-1387 | The loop-based scan emits the entries and returns the cursor of `Scan.ScanCall` |
| `RedisDict.DictIterator.constructor` | redis-3.0/src/dict.c:937-944 | A new safe iterator is before the first bucket |
| `RedisDict.DictIterator.Advance` | redis-3.0/src/dict.c:960-990 | One round of the bucket loop moves to the bucket of `SafeIterator.Seek`, with the size cut to an `int` |
| `RedisDict.DictIterator.Seek` | redis-3.0/src/dict.c:960-996 | The bucket loop finds the entry and position of `SafeIterator.Seek` |
| `RedisDict.DictIterator.Next` | redis-3.0/src/dict.c:953-1013 | The in-place method does what `SafeIterator.NextEntry` says |
| `Slots.AddSlotAgrees` | redis-3.0/src/cluster.c:3978-3990 | Assigning a slot keeps the owner table, the bitmaps and the counts in agreement; an assigned slot is not reassigned |
| `Slots.DelSlotAgrees` | redis-3.0/src/cluster.c:4002-4016 | Unassigning a slot keeps them in agreement, and the assertion that the owner's bit was set never fails |
| `Slots.RebindAllAgrees` | redis-3.0/src/cluster.c:1712-1757 | Rebinding a set of slots one after the other changes the owner of exactly those slots |
| `Slots.DelAllAgrees` | redis-3.0/src/cluster.c:1018-1029 | Unassigning a set of slots one after the other changes exactly those slots |
| `Slots.DelNodeSlotsAgrees` | redis-3.0/src/cluster.c:4021-4030 | Deleting a node's slots by its bitmap unassigns exactly the slots it owns; the node can then be removed from the table |
| `NodeRuns.RunKeepsAgreement` | redis-3.0/src/cluster.c:3925-4030 | After any sequence of packets, failover timers, slot commands, node removals, demotions and promotions, on a master or a replica, `slots[j] == n` exactly when bit j is set in n's bitmap, and every `numslots` is its bitmap's population count |
| `NodeRuns.EventSound` | redis-3.0/src/cluster.c:1881-2462 | Each single event keeps that agreement |
| `NodeRuns.UpdateSlotsSound` | redis-3.0/src/cluster.c:1685-1799 | A claim keeps it, whatever the role of the node |
| `NodeRuns.TakeOverSound` | redis-3.0/src/cluster.c:3386-3401 | A promotion keeps it |
| `NodeRuns.ForgetSound` | redis-3.0/src/cluster.c:1013-1050 | Removing a node always keeps the slot table in agreement; every stored node name stays known exactly when no other known node replicates the removed one |
| `ReplicaSlots.CommandSafeIff` | redis-3.0/src/cluster.c:4249-4251 | On a node that owns no slot while it is a replica, an event is safe (no later event fails the assertion in `clusterSetMaster`, as long as no later command hands a replica a slot) exactly when it is not a command that hands this node, a replica, a slot: ADDSLOTS of an unassigned slot, or SETSLOT NODE to itself |
| `ReplicaSlots.RunNeverStops` | redis-3.0/src/cluster.c:4249-4251 | Over any run in which no command hands a replica a slot, the assertion never fails and a replica owns no slot |
| `ReplicaSlots.SlotlessIff` | redis-3.0/src/cluster.c:4490-4667 | For every event: a replica without slots stays without exactly when the event is not one of those two commands; and while it has none, the event does not fail the assertion |
| `ReplicaSlots.ReplicateStops` | redis-3.0/src/cluster.c:4828-4871 | A replica that owns a slot is stopped by CLUSTER REPLICATE of a master it has just met |
| `ReplicaSlots.AddSlotsThenClaimStops` | redis-3.0/src/cluster.c:1781-1787 | A concrete run: CLUSTER ADDSLOTS on a replica, then a claim that takes its master's last slot, fails the assertion |
| `Packets.HeaderSays` | redis-3.0/src/cluster.c:2655-2741 | A packet carries the sender's name, its master and current epoch, and the epoch of and exactly the slots owned by the node it serves |
| `Packets.ReplicaPing` | redis-3.0/src/cluster.c:2141-2196 | A replica's ping makes it known as a replica of its master and unassigns exactly the slots it was known to own as a master; nothing else changes |
| `Packets.MasterPing` | redis-3.0/src/cluster.c:2026-2322 | A master's ping makes it known as a master and leaves the other nodes alone; this node changes only by a collision of epochs or by becoming the sender's replica |
| `Packets.OldUpdate` | redis-3.0/src/cluster.c:2427-2457 | An UPDATE that reports no newer epoch changes nothing but the sender's epochs |
| `Packets.NewUpdate` | redis-3.0/src/cluster.c:2427-2457 | An UPDATE with a newer epoch makes the node reported a master with that epoch and gives it exactly the claimed slots that are not imported and are unassigned or owned under a smaller epoch |
| `Packets.UpdateAboutSelf` | redis-3.0/src/cluster.c:2427-2457 | An UPDATE about this node with a newer epoch makes it a master with that epoch and moves no slot |
| `SlotCommands.OpeningIsGuarded` | redis-3.0/src/cluster.c:4556-4600 | Only the owner opens a slot for migration and only another node for import, towards a known node; STABLE closes both; nothing else changes |
| `SlotCommands.HandsOver` | redis-3.0/src/cluster.c:4601-4667 | SETSLOT NODE is refused for an unknown node and for a slot with keys that would be given away; otherwise exactly this slot changes hands, and its migration and import are closed as they should |
| `SlotCommands.ImportHasNewestEpoch` | redis-3.0/src/cluster.c:4636-4661 | After a finished import a node's epoch is at least every epoch it knows, and greater than another node's exactly when the two were not tied for the greatest before |
| `SlotCommands.HandoverIsHeard` | redis-3.0/src/cluster.c:4601-4667 | A node that hears the next ping of a master that was handed a slot gives it the slot, unless it imports it or knows its owner under an epoch as new |
| `SlotCommands.AddsAndDeletes` | redis-3.0/src/cluster.c:4469-4535 | ADDSLOTS takes exactly an unassigned slot and DELSLOTS frees exactly an assigned one, and either ends its import |
| `SlotCommands.AddThenDelete` | redis-3.0/src/cluster.c:4469-4535 | Adding an unassigned slot and deleting it again restores the owners |
| `SlotCommands.ReplicatesIff` | redis-3.0/src/cluster.c:4828-4871 | REPLICATE is obeyed exactly for another, known master when this node owns no slot and, as a master, holds no key; its migrations are then closed |
| `SlotCommands.Forgets` | redis-3.0/src/cluster.c:1013-1050 | Forgetting drops exactly the node, its slots and the migrations from and to it |
| `SlotCommands.Learns` | redis-3.0/src/cluster.c:721-751 | A node met for the first time owns nothing, is not failing and has epoch 0 |
| `SlotCommands.SizeIsServing` | redis-3.0/src/cluster.c:4102-4110 | The cluster's size is the number of masters that own a slot |
| `SlotCommands.FlagIsSet` | redis-3.0/src/cluster.c:1252-1320 | A failure flag is set or cleared for exactly the node reported |
| `EpochBound.RunKeepsEpochBound` | redis-3.0/src/cluster.c:1948-1961 | In every state of every run of the cluster, every config epoch a node stores is at most its current epoch, the same holds of every packet in flight, and `clusterGetMaxEpoch` is the current epoch |
| `EpochBound.EpochsGrowSlowly` | redis-3.0/src/cluster.c:1948-1961 | Over any run, no epoch at a node or in a packet exceeds the greatest one at the start by more than the number of steps; so 64 bits do not wrap around in shorter runs |
| `EpochBound.EventAdvances` | redis-3.0/src/cluster.c:1881-2462 | Each event that carries an honest packet keeps the bound and does not decrease the current epoch |
| `EpochBound.BumpIsNew` | redis-3.0/src/cluster.c:1854-1855 | A self-assigned epoch is greater than every config epoch the node knows |
| `EpochBound.MaxEpochIsCurrent` | redis-3.0/src/cluster.c:82-96 | Under the bound the greatest epoch known is the current epoch |
| `Election.ElectionSafety` | redis-3.0/src/cluster.c:3093-3167 | From a start without elections, over any run in which ACKs are counted only while their election is under way and the candidates of an epoch agree on the slot-serving masters, two promotions in one epoch are of one replica |
| `Election.StepKeepsInv` | redis-3.0/src/cluster.c:3214-3419 | Every step keeps: one vote a master and epoch, one ACK in flight a vote, a candidate's count equal to the number of electors that voted for it in its epoch, and a majority behind every promotion |
| `Election.GrantedVoteIsNewer` | redis-3.0/src/cluster.c:3093-3167 | A granted vote is for the request's own epoch, and that epoch is greater than every epoch the voter voted in before |
| `Election.CountedVoteIsNew` | redis-3.0/src/cluster.c:2393-2413 | A counted ACK carries exactly the election's epoch and a vote that had not been counted |
| `Election.AckEffect` | redis-3.0/src/cluster.c:2393-2413 | An ACK is counted only from a master serving slots that has reached the election's epoch |
| `Election.FailoverEffect` | redis-3.0/src/cluster.c:3214-3419 | Which election fields each branch of the failover handler changes |
| `Election.PromotionsAreUnique` | redis-3.0/src/cluster.c:3369-3401 | Two majorities of one electorate share a voter, so promotions in one epoch are unique |
| `Ballots.VoteIffJustified` | redis-3.0/src/cluster.c:3093-3167 | A vote is given exactly when the voter is a master that owns a slot, has neither reached a later epoch nor voted in this one, sees the candidate's master failing (unless forced), has not voted for a replica of it within twice the node timeout, and knows no claimed slot under a greater epoch |
| `Ballots.VoteIsNoted` | redis-3.0/src/cluster.c:3160-3166 | A request changes the epochs known and, if granted, the epoch voted in and the time of the vote for that master; nothing else |
| `Ballots.VoteHasReason` | redis-3.0/src/cluster.c:3093-3167 | Over any run of the cluster, every vote answers a request that was delivered when the voter's view justified it |
| `Ballots.PromotionHasFailedMaster` | redis-3.0/src/cluster.c:3129-3130 | Over any run that meets the election assumptions, a promotion whose requests were not forced has a majority of electors each of which had the old master flagged as failing when it voted |
| `Ballots.StaleClaimGetsNoVote` | redis-3.0/src/cluster.c:3139-3159 | A candidate that claims a slot which an elector knows under a greater epoch gets neither vote nor ACK from it |
| `Ballots.VotesAreSpaced` | redis-3.0/src/cluster.c:3132-3137 | After a vote for a replica of some master, whatever happens, the next vote of that node for a replica of that master is at least twice the node timeout later |
| `Packets.AckIsCounted` | redis-3.0/src/cluster.c:2393-2413 | An ACK is counted exactly when its sender is known as a master that owns a slot and has reached the election's epoch; besides, only its epochs are noted |
| `Packets.MajorityWins` | redis-3.0/src/cluster.c:3369-3401 | A replica with reason to act whose election is under way is promoted by its timer once more than half of the masters have sent it ACKs |
| `Failover.ElectionIsAnnounced` | redis-3.0/src/cluster.c:3341-3347 | Starting an election sends a request with the new epoch to every known node |
| `Failover.VoteIsSent` | redis-3.0/src/cluster.c:3065-3075 | A request that the receiver has reason to grant is granted: the vote is recorded and an ACK with the request's epoch sent |
| `Failover.AckArrives` | redis-3.0/src/cluster.c:2393-2413 | An ACK of the election's epoch from a master that the candidate sees serving is counted |
| `Failover.FailoverHappens` | redis-3.0/src/cluster.c:3214-3419 | Whenever a replica asks for votes and a majority of the masters has reason to vote for it, there is a run at whose end it is a master with the election's epoch and owns all slots of its old master |
| `Succession.BranchMeans` | redis-3.0/src/cluster.c:3214-3384 | When each branch of the failover handler is taken: no reason to act, the last election twice a lifetime old, its time has come, or a majority within its lifetime |
| `Succession.BranchChanges` | redis-3.0/src/cluster.c:3270-3360 | What scheduling, delaying and starting an election change, and that nothing else changes |
| `Succession.PromotionTakesOver` | redis-3.0/src/cluster.c:3386-3401 | After its promotion a replica is a master with the election's epoch and owns exactly the slots that it or its old master owned; the old master has none, and every other owner and node is unchanged |
| `Succession.WinnerAnnounces` | redis-3.0/src/cluster.c:3386-3415 | The winner's next packet claims every slot of the old master under the election's epoch |
| `Succession.WinnerIsHeard` | redis-3.0/src/cluster.c:3386-3415 | Over any run between the winner's next ping and its arrival, the node that hears it gives the winner every slot of the old master that it does not import and knows under no epoch as new |
| `StaleAck.SafeIffInTime` | redis-3.0/src/cluster.c:3278-3284 | All runs that meet the other assumptions promote at most one replica an epoch exactly when no ACK is counted between the scheduling and the start of an election |
| `StaleAck.StaleVoteIsKept` | redis-3.0/src/cluster.c:3341-3347 | An ACK counted between scheduling and starting an election is still in the count of the election, whose epoch is greater |
| `StaleAck.StaleAckBreaksSafety` | redis-3.0/src/cluster.c:3278-3347 | A concrete run of a three-node cluster that meets every other assumption at every step, in which one stale ACK leads to two replicas promoted in one epoch |
| `Collision.RepairIsBounded` | redis-3.0/src/cluster.c:1847-1862 | In any run in which own epochs change only through pings, however late these arrive, a node with k higher-named peers gives itself a new epoch at most 2^k - 1 times; the highest name never moves |
| `Collision.OrdinaryStepsRepairOnly` | redis-3.0/src/cluster.c:1881-2462 | Such a run may contain every send, loss, vote request, ACK, UPDATE about another node, unsuccessful election step and command that does not end an import |
| `Collision.PingMoves` | redis-3.0/src/cluster.c:2313-2318 | A ping changes the receiver's own epoch only when a higher-named master announces that very epoch, and then to a greater one |
| `Collision.HeldBound` | redis-3.0/src/cluster.c:1847-1862 | If every epoch a node left behind was held by a higher-named node, at most 2^k epochs were held |
| `Collision.QuietIffDistinct` | redis-3.0/src/cluster.c:1847-1862 | In any state whose masters know each other and no later epoch of each other than their own, no fresh ping between masters moves an epoch exactly when their epochs are pairwise distinct |
| `Collision.RepairsIffEqual` | redis-3.0/src/cluster.c:2313-2318 | A ping of a master whose later epochs the receiver, a master, has not heard makes the receiver move exactly when it comes from a higher name with the same epoch |
| `Claims.ClaimsConverge` | redis-3.0/src/cluster.c:1685-1758 | On an observer that starts with no slot assigned and imports none, after any order and repetition of claims with distinct positive epochs a slot is owned by n exactly when n is the greatest-epoch claimer heard, and unowned exactly when nobody heard claims it |
| `Claims.ArrivalConverges` | redis-3.0/src/cluster.c:2217-2234 | One more arrival of a claim keeps every slot with the winner among the claimers heard |
| `Claims.ClaimRebinds` | redis-3.0/src/cluster.c:1712-1757 | A claim takes exactly the slots that are claimed, not the claimer's, not being imported, and unowned or owned under a smaller epoch |
| `Succession.PingRebinds` | redis-3.0/src/cluster.c:1685-1758 | A master's ping gives it exactly the claimed slots that are not imported and are unassigned or owned under a smaller epoch; every other slot keeps its owner |
| `Succession.DemotedIffLostLast` | redis-3.0/src/cluster.c:1760-1790 | A claim makes a node the claimer's replica exactly when it takes the last slot of the master the node serves and the node owns none; nothing else about the nodes changes, and a demoted master closes its migrations |
| `Succession.OldMasterFollows` | redis-3.0/src/cluster.c:1760-1790 | A master that hears all its slots claimed under a greater epoch, and imports none of them, becomes a replica of the claimer |
| `ClusterState.BitmapTestBit` | redis-3.0/src/cluster.c:3925-3929 | The byte-and-shift test reads bit `pos` |
| `ClusterState.BitmapSetBit` | redis-3.0/src/cluster.c:3933-3937 | Exactly the addressed bit is set in the bytes |
| `ClusterState.BitmapClearBit` | redis-3.0/src/cluster.c:3941-3945 | Exactly the addressed bit is cleared in the bytes |
| `ClusterState.SlotBitmap.SetSlotBit` | redis-3.0/src/cluster.c:3949-3954 | The bit is set, the count rises only when it was clear, and the old value is returned |
| `ClusterState.SlotBitmap.ClearSlotBit` | redis-3.0/src/cluster.c:3958-3963 | The bit is cleared, the count falls only when it was set, and the old value is returned |
| `ClusterState.State.constructor` | redis-3.0/src/cluster.c:445-524 | A node starts as a master alone in its cluster, with no slots and all epochs 0 |
| `ClusterState.State.AddSlot` | redis-3.0/src/cluster.c:3978-3990 | The in-place method does what `Slots.AddSlot` says |
| `ClusterState.State.DelSlot` | redis-3.0/src/cluster.c:4002-4016 | The in-place method does what `Slots.DelSlot` says |
| `ClusterState.State.DelNodeSlots` | redis-3.0/src/cluster.c:4021-4030 | The loop does what `Slots.DelNodeSlots` says; the returned counter is the number of slots, and is the number of deleted ones exactly when the node owned them all |
| `ClusterState.State.SetNodeAsMaster` | redis-3.0/src/cluster.c:1640-1660 | The in-place method does what `Cluster.SetNodeAsMaster` says |
| `ClusterState.State.SetMaster` | redis-3.0/src/cluster.c:4249-4269 | The node becomes a replica, and a demoted master closes its migrations, exactly when the assertion that it has no slots holds |
| `ClusterState.State.UpdateSlotsConfigWith` | redis-3.0/src/cluster.c:1685-1799 | The loop and the demotion do what `Cluster.UpdateSlots` says; a slot's keys are deleted exactly when the claim takes the slot from this node while it holds keys there and the node does not turn to the claimer; and the assertion fails exactly when `Cluster.ClaimStops` says |
| `ClusterState.State.NoteEpochs` | redis-3.0/src/cluster.c:1948-1961 | Both epochs only move forward |
| `ClusterState.State.NoteRole` | redis-3.0/src/cluster.c:2141-2196 | The role switch does what `Cluster.ReceiveRole` says |
| `ClusterState.State.HandleConfigEpochCollision` | redis-3.0/src/cluster.c:1847-1862 | The in-place method does what `Cluster.ResolveCollision` says |
| `ClusterState.State.ProcessPing` | redis-3.0/src/cluster.c:2026-2322 | A ping from a known node does to the state what `Cluster.ReceivePing` says, and the sender is sent an UPDATE about the node `ClusterState.ReportsTo` says |
| `ClusterState.NewerOwnerIs` | redis-3.0/src/cluster.c:2276-2310 | The UPDATE is about the owner of the first claimed slot that another node owns under a greater epoch, and is sent only when there is one |
| `ClusterState.State.ProcessUpdate` | redis-3.0/src/cluster.c:2427-2457 | An UPDATE from a known node does what `Cluster.ReceiveUpdate` says |
| `ClusterState.State.SendFailoverAuthIfNeeded` | redis-3.0/src/cluster.c:3093-3167 | The chain of refusals and the slot loop grant a vote exactly when `Cluster.Grants` holds |
| `ClusterState.State.ProcessRequest` | redis-3.0/src/cluster.c:2387-2391 | A vote request does what `Cluster.ReceiveRequest` says |
| `ClusterState.State.ProcessAck` | redis-3.0/src/cluster.c:2393-2413 | A vote does what `Cluster.ReceiveAck` says |
| `ClusterState.State.HandleSlaveFailover` | redis-3.0/src/cluster.c:3214-3419 | The handler takes the branch `Cluster.FailoverBranch` says and does what `Cluster.HandleFailover` says |
| `ClusterState.State.TakeOver` | redis-3.0/src/cluster.c:3386-3401 | The promotion loop does what `Cluster.TakeOver` says |
| `ClusterState.State.GetMaxEpoch` | redis-3.0/src/cluster.c:82-96 | The loop over the node table returns the greatest epoch known |
| `ClusterState.State.SetSlotNode` | redis-3.0/src/cluster.c:4601-4667 | Assigning a slot by command does what `Cluster.SetSlotNode` says, is refused exactly when `ClusterState.Assigns` says, keeps the slot table in agreement, and keeps a replica without slots exactly when it does not hand it this one |
| `ClusterState.State.DelNode` | redis-3.0/src/cluster.c:1013-1050 | Removing a node cancels its open migrations and unassigns its slots, as `Cluster.Forget` says; the state stays valid exactly when no other known node replicates it |
| `ReplicaArray.RemoveSlave` | redis-3.0/src/cluster.c:915-929 | The search and the byte move do to the array of pointers what `ReplicaArray.Removed` says |
| `ReplicaArray.RemovalIsRightIff` | redis-3.0/src/cluster.c:915-929 | A removal leaves exactly the other replicas if and only if the bytes that `memmove` is not told to move repeat |
| `ReplicaArray.OnlyLastIsRemoved` | redis-3.0/src/cluster.c:915-929 | Among replicas that are different nodes (whose addresses differ beyond the lowest byte), a removal leaves exactly the others if and only if it removes the last one |
| `ReplicaArray.RemovalTearsPointer` | redis-3.0/src/cluster.c:915-929 | A concrete array of two pointers of which the first is removed: what is left is neither of them |
| `Routing.GetNodeByQuery` | redis-3.0/src/cluster.c:5607-5761 | The nested key loops give the route of `Routing.RouteOf`: served, moved, asked, cross-slot or try again, for one command or a transaction |
| `Routing.ScanCommand` | redis-3.0/src/cluster.c:5646-5710 | The loop over one command's keys finds the first key, whether there are several, whether one is missing, and whether one is of another slot |
| `Redirection.CrossSlotIff` | redis-3.0/src/cluster.c:5646-5690 | CROSSSLOT is answered exactly when two keys are of different slots |
| `Redirection.MovedNamesOwner` | redis-3.0/src/cluster.c:5755-5760 | MOVED names the owner of the slot, another node |
| `Redirection.AskNamesTarget` | redis-3.0/src/cluster.c:5722-5727 | ASK is answered only by the owner and when a key is missing, and names the node it migrates the slot to |
| `Redirection.TryAgainIff` | redis-3.0/src/cluster.c:5729-5742 | TRYAGAIN is answered exactly for several keys, some missing, sent with ASKING to a node that imports the slot |
| `Redirection.WhoServes` | redis-3.0/src/cluster.c:5607-5761 | Only the owner serves, a node that imports the slot and is asked, or a replica of the owner that is only read; a migrating owner serves only keys it has |
| `Redirection.OwnerServes` | redis-3.0/src/cluster.c:5714-5761 | The owner serves a request sent without ASKING, unless it migrates the slot and lacks a key |
| `Redirection.ImporterServes` | redis-3.0/src/cluster.c:5729-5742 | A node that imports the slot serves a one-key request sent with ASKING |
| `Redirection.ReplicaServesReads` | redis-3.0/src/cluster.c:5744-5753 | A replica serves a read-only request for its master's slots |
| `Redirection.OthersRedirect` | redis-3.0/src/cluster.c:5755-5760 | Every other node answers MOVED to the owner |
| `Redirection.MovedIsServed` | redis-3.0/src/cluster.c:5755-5760 | After MOVED, the node named serves the request if it owns the slot and does not migrate it away |
| `Redirection.AskIsServed` | redis-3.0/src/cluster.c:5720-5742 | After ASK, the node named serves the one-key request sent with ASKING if it imports the slot |
| `Redirection.TwoRedirectionsSuffice` | redis-3.0/src/cluster.c:5607-5761 | With views that agree on the owner and on an open migration, every one-key request is served after at most two redirections, whichever node it is sent to and whichever keys the nodes hold |
| `Migration.MigrationIsTransparent` | redis-3.0/src/cluster.c:5363-5518 | Over any run of a slot migration without broken connections and with clients on both sides, the replies are those of one map executing the served commands, the two nodes together end as that map, no key is at both except the one in flight, and the source gains no key |
| `Migration.StepActsOnWhole` | redis-3.0/src/cluster.c:5607-5761 | One step: a served command acts on the union of both nodes, anything else leaves it alone |
| `Migration.SourceServes` | redis-3.0/src/cluster.c:5646-5710 | A request the migrating source serves names only keys it has |
| `Migration.TargetServes` | redis-3.0/src/cluster.c:5729-5742 | A request the importing target serves names no key the source still answers for |
| `Migration.RestoreIsAccepted` | redis-3.0/src/cluster.c:5145-5155 | Without broken connections, the key a MIGRATE takes is never at the target already |
| `Migration.RestoreIsServed` | redis-3.0/src/cluster.c:5428-5448 | RESTORE-ASKING is served by the target before and after it is assigned the slot |
| `Migration.ReleaseIffEmpty` | redis-3.0/src/cluster.c:4616-4635 | The source's SETSLOT NODE is refused exactly when it holds a key of the slot |
| `MigrationProgress.MigrateMovesKey` | redis-3.0/src/cluster.c:5363-5518 | A MIGRATE that is answered moves exactly its key, with its value, from the source to the target |
| `MigrationProgress.MigrationCompletes` | redis-3.0/src/cluster.c:5363-5518 | From any state of a migration there is a run without client commands that moves every key, after which both nodes accept the new owner |
| `LossyMigration.LossyMigrationIsTransparent` | redis-3.0/src/cluster.c:5475-5536 | Over any run in which connections break, MIGRATE is retried and left-behind RESTOREs arrive late, but no command deletes a key of which there is another copy or is served by the target with a key that is still at the source, commands are answered and executed as on one map in which the source's value counts |
| `LossyMigration.DeletionSafeIff` | redis-3.0/src/cluster.c:5520-5536 | After a served command with no key served behind the source's back, whatever MIGRATE and the network do before the next command, the nodes hold what the one map holds exactly when the command deletes no key of which there is a copy at the other node or on its way |
| `LossyMigration.TargetActsIff` | redis-3.0/src/cluster.c:5729-5742 | Every command with given keys acts at the target as on the one map exactly when none of the keys is still at the source |
| `LossyMigration.OneKeyIsClear` | redis-3.0/src/cluster.c:5729-5742 | A one-key command that the target serves never has a key that is still at the source |
| `LossyMigration.StaleCopyIsServed` | redis-3.0/src/cluster.c:5729-5742 | A concrete state: a two-key write is sent to the target by ASK and served on its stale copy of a key the source still has, and the write is lost |
| `LossyMigration.RetryIsRefused` | redis-3.0/src/cluster.c:5528-5536 | The second try after a lost reply finds the key busy; MIGRATE ends with an error and the key stays at both nodes |
| `MigrationProgress.BreakMeans` | redis-3.0/src/cluster.c:5520-5536 | A broken connection touches no key; MIGRATE gives up after a timeout or on its second try, and otherwise sends the same key and value again; a query sent and not answered may still arrive |
| `MigrationProgress.TwoBreaksEnd` | redis-3.0/src/cluster.c:5528-5536 | No MIGRATE outlives two broken connections |
| `LossyMigration.DeletedKeyComesBack` | redis-3.0/src/cluster.c:5528-5536 | A concrete run: after a lost reply the key is deleted at the source, and a client sent to the target by ASK finds it there |
| `LossyMigration.LossyStep` | redis-3.0/src/cluster.c:5363-5536 | One step: a served command acts on that map, and nothing else changes it |
| `Migration.CloseSafeIff` | redis-3.0/src/cluster.c:4601-4667 | Assigning the slot to the target answers every one-key request as the union would exactly when no key is left at the source |
| `AofLog.LoadPrinted` | redis-3.0/src/aof.c:835-1003 | Loading a printed log returns the same commands, whatever bytes they hold |
| `AofLog.LoadPrefix` | redis-3.0/src/aof.c:874-929 | A prefix of a printed log is accepted exactly when it ends on a command boundary, and then gives the commands before it |
| `AofLog.LoadAppend` | redis-3.0/src/aof.c:874-929 | A file that loads, followed by any bytes, loads its own commands and then what the bytes load to, and is rejected exactly when they are |
| `AofLog.ReadIsArg` | redis-3.0/src/aof.c:915-929 | An accepted argument is a line with `$` and its length, the bytes, two more bytes and the rest |
| `AofLog.ArgIsRead` | redis-3.0/src/aof.c:915-929 | Data of that form is accepted as that argument |
| `AofLog.CommandIff` | redis-3.0/src/aof.c:892-929 | A command is accepted exactly when a line with `*` and a positive count is followed by as many arguments |
| `AofLog.LineIs` | redis-3.0/src/aof.c:892-892 | A line ends with the first line feed, or where there is no more room, or with the data |
| `AofLog.LongLineIsCut` | redis-3.0/src/aof.c:892-892 | A line without a line feed among its first 127 bytes is cut there |
| `AofLog.FormatOfGet` | redis-3.0/src/aof.c:578-612 | The bytes logged for a concrete command |
| `AofLog.CutCommand` | redis-3.0/src/aof.c:874-929 | A command cut anywhere inside is a fatal error |
| `AofLog.CatCommand` | redis-3.0/src/aof.c:578-612 | The printing loop appends the protocol form of the command |
| `AofLog.LoadAppendOnlyFile` | redis-3.0/src/aof.c:835-1003 | The loading loop executes the parsed commands and exits on a malformed or unknown command and on an unfinished MULTI |
| `AofLog.ReadCommand` | redis-3.0/src/aof.c:874-929 | One round of the loading loop parses one command |
| `AofRewrite.RewriteRebuilds` | redis-3.0/src/aof.c:1328-1478 | Replaying the commands of a rewrite from scratch rebuilds every database, for every iteration order |
| `AofRewrite.BatchesReplay` | redis-3.0/src/aof.c:1035-1101 | However the elements are split into commands of at most 64 items, replaying them adds all of them in order |
| `AofRewrite.RewriteItems` | redis-3.0/src/aof.c:1035-1320 | The counting loop emits exactly those commands |
| `AofRewrite.RewriteIsPacked` | redis-3.0/src/aof.c:1035-1320 | Lists and sets are rewritten in commands of 64 elements, hashes and sorted sets of 64 pairs, all but the last full, which hold exactly the elements in order |
| `AofRewrite.FormatOfSet` | redis-3.0/src/aof.c:1381-1420 | The bytes of the rewrite of a concrete database |
| `AofRewrite.RewriteEntry` | redis-3.0/src/aof.c:1389-1450 | The body of the rewrite for one key emits the commands of its value |
| `AofRewrite.RewriteAppendOnlyFile` | redis-3.0/src/aof.c:1328-1478 | The loop over the databases emits SELECT and the entries of each non-empty database |
| `AofServer.AnyDatabaseIsListed` | redis-3.0/src/aof.c:1385-1389 | The order in which a rewrite visits the data is any listing of it; every database without empty aggregates has one |
| `AofServer.LoadGivesLiveData` | redis-3.0/src/aof.c:681-759 | From any start that is off or has loaded its file, in every reachable state with the file on, loading file and buffer and executing the result gives the live data, and the recorded size is the file's |
| `AofServer.EmptyIsInitial` | redis-3.0/src/aof.c:847-851 | An empty file and no data are such a start |
| `AofServer.RewriteGivesLiveData` | redis-3.0/src/aof.c:1510-1584 | While a rewrite serves an enabled or starting file, the rewritten file and the rewrite buffer also give the live data |
| `AofServer.StepKeepsInv` | redis-3.0/src/aof.c:1644-1843 | Every event keeps both, including the swap and every failure exit |
| `AofServer.CrashKeepsPrefix` | redis-3.0/src/aof.c:358-573 | After a crash that loses the buffer, the loader rejects the file or replays the log up to an earlier command |
| `AofServer.FlushConserves` | redis-3.0/src/aof.c:358-573 | Whatever a flush does, file and buffer together are unchanged and the recorded size is the file's |
| `AofServer.FlushRunConserves` | redis-3.0/src/aof.c:358-573 | Across writes and any pattern of postponed, failed, short and undone flushes, file and buffer are the whole appended log |
| `AofDurability.FlushMovesPrefix` | redis-3.0/src/aof.c:358-573 | A flush moves the first bytes of the buffer to the end of the file and changes nothing else: none if it is postponed, fails or is undone, `n` if it is cut short after `n`, and all if it is complete |
| `AofDurability.CompleteFlushIsDurable` | redis-3.0/src/aof.c:441-532 | In every reachable state with the file on, a complete flush empties the buffer, and loading the file alone gives the live data |
| `AofDurability.WritesAreDurable` | redis-3.0/src/aof.c:441-532 | After any run that ends with the file on and a complete flush, loading the file gives what the run's writes gave |
| `AofDurability.DataIsWritten` | redis-3.0/src/aof.c:681-759 | Only writes change the data, whatever happens to the file |
| `AofDurability.StopIsDurable` | redis-3.0/src/aof.c:234-277 | Turning the file off with a complete flush leaves a file that gives the live data, and no child |
| `AofDurability.SwapIsDurable` | redis-3.0/src/aof.c:1644-1843 | When a rewrite that serves an enabled or starting file is swapped in, the file is on, the buffer empty, and loading the file alone gives the live data |
| `AofDurability.FailedRewriteIsHarmless` | redis-3.0/src/aof.c:1644-1843 | A rewrite that fails, for whatever reason, leaves file, buffer and data alone, and is scheduled again if the file waits for it |
| `AofDurability.OffRewriteIsSnapshot` | redis-3.0/src/aof.c:1644-1843 | With the file off, a rewrite that is swapped in holds the data as it was at the fork, whatever was written since |
| `AofDurability.StartWaitsForRewrite` | redis-3.0/src/aof.c:285-316 | Turning the file on changes nothing, or leaves a rewrite of the live data running for which the file waits |
| `AofDurability.ForkIsOne` | redis-3.0/src/aof.c:1510-1584 | A fork is refused while a child runs; otherwise it starts one and makes the next command log its database |
| `AofFile.RewriteBuffer.Size` | redis-3.0/src/aof.c:105-120 | The size computed from the number of blocks is the number of bytes buffered |
| `AofFile.RewriteBuffer.Append` | redis-3.0/src/aof.c:127-177 | The bytes are appended, over as many blocks as needed |
| `AofFile.RewriteBuffer.WriteTo` | redis-3.0/src/aof.c:188-214 | All blocks are written in order, or a short write is reported |
| `AofFile.AppendOnlyFile.FeedAppendOnlyFile` | redis-3.0/src/aof.c:681-759 | SELECT tracking and propagation to the buffer and the rewrite buffer, as `AofServer.Feed` says |
| `AofFile.AppendOnlyFile.Call` | redis-3.0/src/aof.c:681-759 | A write command is executed and propagated |
| `AofFile.AppendOnlyFile.FlushAppendOnlyFile` | redis-3.0/src/aof.c:358-573 | The branches of the flush do what `AofServer.Flush` says; it waits for a running fsync less than two seconds, and exits only under the policy Always |
| `AofFile.AppendOnlyFile.RewriteAppendOnlyFileBackground` | redis-3.0/src/aof.c:1510-1584 | The fork does what `AofServer.Fork` says |
| `AofFile.AppendOnlyFile.BackgroundRewriteDone` | redis-3.0/src/aof.c:1644-1843 | The handler does what `AofServer.Done` says, and swaps exactly when every step succeeded |
| `AofFile.AppendOnlyFile.StopAppendOnly` | redis-3.0/src/aof.c:234-277 | Turning the file off does what `AofServer.Stop` says |
| `AofFile.AppendOnlyFile.StartAppendOnly` | redis-3.0/src/aof.c:285-316 | Turning the file on does what `AofServer.Start` says; it is refused exactly when the file does not open, a rewrite is running or the fork fails |
| `Bitops.Popcount` | redis-3.0/src/bitops.c:65-114 | For every string and every address, the unaligned prefix, the 16-byte loop and the tail together count the bits set |
| `Bitops.ParallelCountIsRight` | redis-3.0/src/bitops.c:92-105 | The shift-and-mask arithmetic on a 32-bit word counts the ones of its four bytes |
| `Bitops.TableIsRight` | redis-3.0/src/bitops.c:69-69 | The table holds the number of ones of every byte |
| `Bitpos.Bitpos` | redis-3.0/src/bitops.c:123-201 | For every string and every address, the first position with the bit under right zero-padding, or -1 when a set bit is sought and there is none; the panic at the end is never reached |
| `Bitpos.Skip` | redis-3.0/src/bitops.c:141-160 | The skipping loops pass only bytes without the bit and stop where fewer than eight bytes are left or a word has it |
| `Bitpos.Load` | redis-3.0/src/bitops.c:162-176 | Up to eight bytes are loaded with the first most significant and zeros behind |
| `Bitop.Bitop` | redis-3.0/src/bitops.c:323-502 | The result is as long as the longest source and every byte is the combination of all zero-padded sources |
| `Bitop.FastPath` | redis-3.0/src/bitops.c:416-481 | The blocks of four words leave exactly the combined bytes |
| `Bitop.CombinedBit` | redis-3.0/src/bitops.c:486-502 | A bit of the combination is set when all sources have it (AND), some has it (OR), an odd number have it (XOR), the one source lacks it (NOT) |
| `EventPort.RunKeepsExclusive` | redis-3.0/src/ae_evport.c:152-316 | Over every run of registrations, removals and polls, a registered descriptor is in exactly one of kernel association and pending entry, with exactly its mask, and an unregistered one is in neither |
| `EventPort.CreateKeepsIff` | redis-3.0/src/ae.c:170-200 | A registration keeps that exactly unless it successfully registers nothing on a descriptor that has nothing registered |
| `EventPort.DeleteKeeps` | redis-3.0/src/ae.c:205-228 | A removal keeps it, and dissociating a descriptor never fails |
| `EventPort.PollKeeps` | redis-3.0/src/ae_evport.c:243-316 | A poll keeps it |
| `EventPort.RegisterListens` | redis-3.0/src/ae.c:170-200 | After a registration exactly the old events and, if it goes through, the new ones are listened for, in the kernel or pending, for each event and descriptor |
| `EventPort.UnregisterListens` | redis-3.0/src/ae.c:205-228 | After a removal exactly the old events that were not removed are listened for |
| `EventPort.PollListens` | redis-3.0/src/ae_evport.c:243-316 | A poll leaves the events listened for alone, and makes exactly the returned descriptors pending |
| `EventPort.RunListens` | redis-3.0/src/ae_evport.c:152-316 | After any run exactly the events registered and not removed since are listened for |
| `EventLoop.EventLoop.constructor` | redis-3.0/src/ae.c:66-107 | A new loop has nothing registered |
| `EventLoop.EventLoop.LookupPending` | redis-3.0/src/ae_evport.c:109-118 | The search returns the first pending entry of a descriptor |
| `EventLoop.EventLoop.ApiAddEvent` | redis-3.0/src/ae_evport.c:152-181 | The in-place method does what `EventPort.AddEvent` says |
| `EventLoop.EventLoop.ApiDelEvent` | redis-3.0/src/ae_evport.c:183-241 | The in-place method does what `EventPort.DelEvent` says |
| `EventLoop.EventLoop.ApiPoll` | redis-3.0/src/ae_evport.c:243-316 | Re-association and collection of a batch do what `EventPort.Poll` says |
| `EventLoop.EventLoop.CreateFileEvent` | redis-3.0/src/ae.c:170-200 | The in-place method does what `EventPort.Create` says; the loop stays valid if and only if the call does not register nothing where nothing was registered |
| `EventLoop.EventLoop.DeleteFileEvent` | redis-3.0/src/ae.c:205-228 | The in-place method, with the loop that finds the new greatest descriptor, does what `EventPort.Delete` says |
| `BackgroundJobs.JobsRunInOrder` | redis-3.0/src/bio.c:185-281 | For every interleaving, finished jobs followed by unfinished ones are the submitted jobs in order; whenever the lock is free the counter is the queue length; a counter of 0 then means every submitted job is finished |
| `BackgroundJobs.RunKeepsInv` | redis-3.0/src/bio.c:207-267 | The lock discipline, the counter and the order are kept by every step |
| `BackgroundJobs.WorkerCatchesUp` | redis-3.0/src/bio.c:207-267 | Whenever no producer holds the lock, the worker left to itself finishes every submitted job in order and waits with the counter at 0 |
| `BioQueue.BioQueue.CreateBackgroundJob` | redis-3.0/src/bio.c:185-202 | The locked part appends the job and counts it |
| `BioQueue.BioQueue.First` | redis-3.0/src/bio.c:229-240 | The worker sees the first job and leaves it queued |
| `BioQueue.BioQueue.Remove` | redis-3.0/src/bio.c:260-265 | The processed job is removed from the front and discounted |
| `BioQueue.BioQueue.PendingJobs` | redis-3.0/src/bio.c:273-281 | The counter is the queue length |
| `BioQueue.SubmitIsAtomic` | redis-3.0/src/bio.c:185-202 | However other threads' steps are interleaved with a producer's between its lock and its unlock, the locked part amounts to one append and one count |
| `BioQueue.OthersWait` | redis-3.0/src/bio.c:185-202 | While a producer holds the lock, no run of the other threads changes the queue, the counter or the lock |
| `AdList.List.AddNodeTail` | redis-3.0/src/adlist.c:158-185 | A new node is linked behind the tail; links, length and contents are right |
| `AdList.List.AddNodeHead` | redis-3.0/src/adlist.c:114-141 | A new node is linked before the head; links, length and contents are right |
| `AdList.List.DelNode` | redis-3.0/src/adlist.c:249-271 | Exactly the given node is unlinked, wherever it is |
| `AdList.ListIter.constructor` | redis-3.0/src/adlist.c:322-325 | A rewound iterator is at the head |
| `AdList.ListIter.Next` | redis-3.0/src/adlist.c:366-381 | The iterator returns the nodes in order |
| `AdList.IterationSurvives` | redis-3.0/src/adlist.c:366-381 | Deleting the node just returned does not disturb the iteration |
| `Crc64.TableIsRight` | redis-3.0/src/crc64.c:42-171 | Every table entry is the remainder of its index by the Jones polynomial, and the table is linear |
| `Crc64.StepDivides` | redis-3.0/src/crc64.c:173-181 | One table step is eight rounds of bitwise polynomial division |
| `Crc64.Compute` | redis-3.0/src/crc64.c:173-181 | The loop computes the checksum of the string |
| `Crc64.CrcConcat` | redis-3.0/src/crc64.c:173-181 | The checksum composes over concatenation |
| `Crc64.TopsAreDistinct` | redis-3.0/src/crc64.c:42-171 | The top bytes of the table entries are distinct |
| `Crc64.NextIsInjective` | redis-3.0/src/crc64.c:177-177 | A step is injective in the running checksum and in the byte |
| `Crc64.CrcIsInjective` | redis-3.0/src/crc64.c:173-181 | Different running checksums stay different over the same bytes |
| `Crc64.BurstIsDetected` | redis-3.0/src/crc64.c:173-181 | Strings that differ only within eight consecutive bytes have different checksums |
| `DumpPayload.CreateDumpPayload` | redis-3.0/src/cluster.c:5045-5056 | The payload is the value, the version and the checksum of both |
| `DumpPayload.VerifyDumpPayload` | redis-3.0/src/cluster.c:5078-5102 | A payload is accepted exactly when length, version and checksum fit |
| `DumpPayload.VerifiesIffDumped` | redis-3.0/src/cluster.c:5078-5102 | A payload verifies exactly when it is the payload of the bytes before its last ten |
| `DumpPayload.DumpVerifies` | redis-3.0/src/cluster.c:5045-5056 | Every created payload verifies |
| `DumpPayload.FooterIsLittleEndian` | redis-3.0/src/cluster.c:5045-5056 | The version is 6, and byte i of the checksum holds its bits from 8i on |
| `DumpPayload.OneByteIsRejected` | redis-3.0/src/cluster.c:5078-5102 | Changing exactly one byte of a valid payload, anywhere, makes it fail |
| `DumpPayload.BurstIsRejected` | redis-3.0/src/cluster.c:5078-5102 | Two valid payloads that differ only within eight consecutive bytes before the checksum are equal |

## Left out

- Election.ElectionSafety: rests on voters that do not restart, as the vote is not saved before the ACK is sent, and on no CLUSTER RESET.
- Failover.FailoverHappens: says that a run exists, not that the network takes it; the masters in the majority are taken to have reason to vote when the request is sent.
- MigrationProgress.MigrationCompletes: says that a run exists, not that the operator and the network take it.
- Redirection.TwoRedirectionsSuffice: assumes that the slot is assigned and that the views do not change while the client follows the redirections.
- EpochBound.RunKeepsEpochBound: leaves out CLUSTER SET-CONFIG-EPOCH, which writes a config epoch without raising the current epoch, and nodes in handshake, whose packets change no epoch.
- EpochBound.EpochsGrowSlowly: as for `EpochBound.RunKeepsEpochBound`.
- NodeRuns.RunKeepsAgreement: runs have no CLUSTER RESET, soft or hard; a run goes on after CLUSTER FORGET only when no other known node replicates the forgotten one, as the source leaves the replica's pointer dangling (`NodeRuns.ForgetSound` covers the removal itself).
- ClusterState.State.DelNode: does not model failure reports.
- Migration.MigrationIsTransparent: covers one slot between two nodes, with MIGRATE without COPY or REPLACE and without key expiry.
- LossyMigration.LossyMigrationIsTransparent: covers one slot between two nodes, with MIGRATE without COPY or REPLACE and without key expiry.
- LossyMigration.LossyStep: as for `LossyMigration.LossyMigrationIsTransparent`.
- AofServer.LoadGivesLiveData: ignores key expiry with the translation of EXPIRE and SETEX to PEXPIREAT, and Lua scripts; a sorted set's scores are the text they are logged as.
- AofLog.LoadPrinted: argument counts fit an `int` and lengths a `long`, as everything the server logs does; that a string of 2^31 bytes or more does not fit an sds is not modelled.
- AofFile.AppendOnlyFile.StartAppendOnly: does not model the descriptor that stays open when it is refused.
- AofFile.AppendOnlyFile.FeedAppendOnlyFile: does not translate EXPIRE, SETEX and PSETEX.
- AofFile.AppendOnlyFile.FlushAppendOnlyFile: does not model when `fsync` is called, only that a running one delays the flush; the buffer is taken to stay below 2^31 bytes, as an sds must.
- AofRewrite.RewriteAppendOnlyFile: as for `AofRewrite.RewriteEntry`.
- AofRewrite.RewriteEntry: does not emit PEXPIREAT, as keys have no expiry in the model.
- Dict.RunRefines: after a command whose C code is not defined, the model's dictionary stays as it was; tables and entries that fit the address space are taken to be allocated.
- Scan.ScanComplete: as for `Dict.RunRefines`, a command whose C code is not defined changes nothing between two calls.
- SafeIterator.SafeIteration: says nothing of runs over larger tables, in which keys are missed (`SafeIterator.IterationIsExactIff`); a direct `dictRehash`, closing the iterator, and deleting the entry it will return next are not allowed during the iteration.
- ClusterState.State.UpdateSlotsConfigWith: node records are values in a map, so aliasing between node pointers is not captured; a node's bitmap in bytes is modelled apart, in `ClusterState.SlotBitmap`.
- RedisDict.RedisDict.Add: says nothing where C does not define what happens (`Dict.AddWild`); only tables of more than 2^30 buckets come to that (`DictSizes.SmallRunRefines`).
- RedisDict.RedisDict.Replace: as for `RedisDict.RedisDict.Add`.
- RedisDict.RedisDict.Rehash: as for `RedisDict.RedisDict.Add`.
- RedisDict.RedisDict.RehashRound: as for `RedisDict.RedisDict.Add`.
- RedisDict.RedisDict.Step, `Find`, `Delete` and `Expand`: as for `RedisDict.RedisDict.Add`.
- RedisDict.HashTable.Link: chains are sequences in an array of buckets and entry pointers are keys, so links inside a chain are not captured.
- RedisDict.HashTable.Drop: as for `RedisDict.HashTable.Link`.
- RedisDict.HashTable.Put: as for `RedisDict.HashTable.Link`.
- Crc64.Compute, Bitop.Bitop and DumpPayload.CreateDumpPayload: inputs are sequences; growing the destination string is not modelled.
- Unsafe iterators and their fingerprint, random keys, `dictEmpty` and `dictRelease`, and hash mixing: easy or probabilistic.
- Gossip, failure reports, PFAIL and FAIL: any failure flag may be set or cleared at any time (`NodeRuns.Failing`).
- Replica migration; which replicas a master has is modelled by `slaveof`, and the array of pointers apart, in `ReplicaArray`.
- Manual failover, except that its flags may hold at any time.
- The cluster configuration file, handshakes, links, PUBLISH and node addresses.
- Serialization of values: a payload or a rewritten object starts from the value's bytes or elements.
- `listInsertNode`, `listDup`, `listSearchKey`, `listIndex` and `listRotate`: they would only add easy members.
- Time events and the dispatch of fired events in `ae.c`.
- SETBIT, GETBIT and the argument checks of the bit commands.
- Starting, killing and signal handling of the worker threads, and job types other than as opaque jobs.
