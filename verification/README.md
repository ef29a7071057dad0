# VictoryDB's in-memory write and read path, verified

This project models the part of VictoryDB that writes go to and reads come from before anything reaches
disk, and proves what that part promises:

* the lock-free, insert-only **skip list** and the **memtable** built on it, with MVCC internal keys;
* the bump **arena** that holds its nodes, and the byte layout of a node in it;
* the **hazard-pointer domain**: the pool of records, its lock-bit free list, and the publish-and-recheck
  protection loop;
* the **encodings**: key trailers and their order, variable-length integers, write-batch framing;
* the **writer queue** that batches join.

`dafny verify dfyconfig.toml` (Dafny 4.11) checks the whole project. No assumption is made that is not
written as a `requires` clause.

## How the concurrent code is modelled

The skip list, the arena, the hazard domain and the writer queue are step systems. The shared memory is a
value; every thread has a program counter with its local variables; every atomic load, store,
compare-exchange or `fetch_or` is one step; a schedule is an arbitrary sequence of steps by arbitrary
threads, so a statement about every schedule is a statement about every interleaving under sequential
consistency. Weak compare-exchanges may fail spuriously. History variables (the order of the nodes in a row,
the log of linearization points, the ranges granted) are written but never read by a step. The sequential code
of the skip list, memtable, arena and batch is modelled a second time as classes with loops, over the same
memory and the same specification functions.

| file | content |
|---|---|
| `Basics`, `Lists` | shared types; linked lists as sequences |
| `SkipListHeap`, `SkipListMachine` | tower memory and its invariant; the step system |
| `SkipListSpec` | the abstract sorted list with duplicates, and replaying a log on it |
| `SkipListInvariant`, `SkipListFrame`, `SkipListSteps` | the invariant of threads and memory; what interference leaves intact; each step keeps it |
| `SkipListTheorems` | sorted chains, linearizability, progress, iterators, for every run |
| `SkipListOrder`, `SkipListProgress`, `SkipListKeys` | how levels agree; traversals end; where compared keys come from |
| `SkipListCalls`, `SkipListCompletes` | what each call of the schedule leads to, whatever others do; threads left alone finish |
| `SkipList` | the sequential code as a class |
| `InternalKey`, `ByteOrder`, `Bits` | trailers, comparator, byte order, bit arithmetic |
| `Mvcc`, `Memtable` | what a snapshot read means; the memtable's code; reads during concurrent writes |
| `ArenaLayout`, `ArenaFit`, `ArenaMachine`, `ArenaTheorems`, `ArenaStore` | alignment and node layout; when a chunk serves; the step system; its theorems; the sequential code |
| `ArenaCalls`, `ArenaProgress` | what each call of the schedule is answered; threads left alone get their answer |
| `NodeMemory` | nodes as bytes in granted ranges |
| `HazardCalls`, `HazardProgress`, `HazardReuse` | what each call of a client leads to; clients left alone get their answer; which records they get |
| `HazardMachine`, `HazardInvariant`, `HazardSteps`, `HazardTheorems`, `HazardLock` | the domain's step system, its invariant and theorems, and why they need their hypothesis |
| `VarInt`, `WriteBatch`, `WriteThread` | integer encoding, batch framing, writer queue |

## Decisions worth knowing

* **Duplicates.** The arm of `search` that would set `searched_node` is commented out
  (`crates/engine/src/memtable/skip_list.rs:478-485`), so every insert adds a node and a new equal key lands
  before older ones. The unit tests that expect `searched_node.is_some()` describe other behaviour; the model
  follows the code. That order holds on the base level only: `SkipListOrder` gives a run of two racing inserts
  that leaves equal keys in opposite orders on the two lowest levels, and shows that levels never differ on
  other keys.
* **Heights.** The step system lets a draw yield any height from 1 to 8 and no theorem depends on it.
  `SkipList.List.DrawHeight` shows that the code itself never yields more than 3, because its lowering loop
  tests the address of a tower slot and not its content.
* **Comparator.** The skip list is proved for every comparator that is a strict weak order; the internal-key
  comparator is proved to be one. The source panics on keys shorter than a trailer; here the order counts such
  a key as all trailer, so that it is total, and the memtable's contracts say exactly when the panic happens.
  `DefaultComparator` is `ByteOrder.Cmp`.
* **The stale lock.** `try_acquire_available` continues with the pointer it loaded
  (`crates/mem/src/hazard/domain.rs:289`) although `fetch_or` returned the pointer it locked (300-303). The
  ownership theorems therefore carry the hypothesis `SoundRun`: a winning lock step finds the pointer it
  loaded. `HazardLock` shows that the hypothesis is exact, whatever the other clients do during a locked section,
  and gives a run of two clients in which it fails and both end up holding one record.
* **Oversized layouts.** An arena request longer than a block cannot succeed, yet `alloc_raw_fallback` turns
  all remaining capacity into empty chunks before it reports `ArenaFull` (`ArenaStore.OversizedExhausts`).
* **Panics** are results: `Panicked`, `None` or `false`, as each contract says. Arithmetic is modelled with
  overflow checks on.
* **Handles.** One hazard client is one `HzdPtrArray`; a single record is an array of one.
* **Batch lengths.** A length of 2^32 or more is cut to 32 bits by the cast in `put_bytes`;
  `WriteBatch.PutIsRecordIffShort` says exactly which puts are framed correctly.

## Model

| member | source | states |
|---|---|---|
| SkipListTheorems.RunKeeps | crates/engine/src/memtable/skip_list.rs:400-714 | Every state reachable by any schedule of lookups, seeks, iterators, `insert` and `insert_with` satisfies the full invariant of rows, towers, thread contexts, tallies and log |
| SkipListSteps.StepKeeps | crates/engine/src/memtable/skip_list.rs:400-714 | One atomic step of any thread, whatever the others have in flight, keeps that invariant |
| SkipListTheorems.EveryLevelIsASortedChain | crates/engine/src/memtable/skip_list.rs:437-606 | In every interleaving, following the pointers of a level from the sentinel visits finitely many distinct nodes, within their towers, in weak key order, ends in null, and visits only nodes also visited one level down |
| SkipListOrder.LevelsFollowKeys | crates/engine/src/memtable/skip_list.rs:437-606 | In every interleaving, of two nodes on a level the one with the smaller key comes first |
| SkipListOrder.LevelsDifferOnlyOnEqualKeys | crates/engine/src/memtable/skip_list.rs:437-606 | Two levels order two nodes differently only if the comparator finds their keys equal |
| SkipListOrder.EqualKeysMayDiffer | crates/engine/src/memtable/skip_list.rs:541-604 | For every comparator and key there is a run of two racing inserts in which a thread loses a compare-exchange above the base and the two lowest levels end up ordering the equal keys differently |
| SkipListTheorems.EveryAccessIsInTower | crates/engine/src/memtable/skip_list.rs:182-188 | No thread's next load, store or compare-exchange indexes a tower at or above its node's height: the debug assertion never fires |
| SkipListTheorems.RunsAreLinearizable | crates/engine/src/memtable/skip_list.rs:437-606 | The log of linearization points is a legal sequential history that ends in the base row's entries; for every thread it holds exactly what the schedule asked of it, in program order, missing at most the call in progress |
| SkipListTheorems.CallsAreAsked | crates/engine/src/memtable/skip_list.rs:515-714 | What a run takes for a thread's calls is, call by call, what the schedule asks of it when idle: an entry to add for either insert, a key to find for a lookup or a seek |
| SkipListCalls.InsertLinksItsNode | crates/engine/src/memtable/skip_list.rs:515-714 | In every run, an insert that is over has linked a node that did not exist when it was called, with its key and value, on every level below the node's height, which is at most 8 |
| SkipListCalls.IteratorHasItsBound | crates/engine/src/memtable/memtable.rs:300-308 | In every run, a seek ends in an iterator bounded by its key, and an iteration from the start in an unbounded one |
| SkipListCalls.CloseEnds | crates/engine/src/memtable/memtable.rs:295-308 | Closing an iterator makes its thread idle again and changes nothing else |
| SkipListCompletes.AnswerComes | crates/engine/src/memtable/skip_list.rs:437-714 | From every reachable state, whatever other threads are in the middle of, a thread left alone finishes the call it is in |
| SkipListCompletes.InsertCompletes | crates/engine/src/memtable/skip_list.rs:515-714 | Left alone, an insert by either path and for any height drawn from 1 to 8 ends with exactly its entry logged as inserted and its new node, of that height, on all its levels |
| SkipListCompletes.LookupCompletes | crates/engine/src/memtable/skip_list.rs:437-502 | Left alone, a lookup ends with exactly its answer logged, the first entry not before its key |
| SkipListCompletes.SeekCompletes | crates/engine/src/memtable/skip_list.rs:721-735 | Left alone, a seek ends in an iterator bounded by its key, with the first entry not before the key logged |
| SkipListCompletes.FirstCompletes | crates/engine/src/memtable/skip_list.rs:716-719 | Opening an iterator at the first entry takes one step and logs nothing |
| SkipListCompletes.PendingCompletes | crates/engine/src/memtable/skip_list.rs:437-714 | Left alone, a thread ends up having logged exactly what the schedule asked of it |
| SkipListTheorems.StepsLogTheirOwnThread | crates/engine/src/memtable/skip_list.rs:541-571 | A step logs at most one event, and only for the thread that takes it |
| SkipListTheorems.LogOnlyGrows | crates/engine/src/memtable/skip_list.rs:541-571 | The log of any prefix of a run is a prefix of the run's log |
| SkipListTheorems.RealTimeOrder | crates/engine/src/memtable/skip_list.rs:437-606 | A call that has returned took effect, as the call it was, at a log position before that of any call made later by any thread |
| SkipListSteps.LookupIsCorrect | crates/engine/src/memtable/skip_list.rs:437-502 | At the instant of a search's last base-level load, `successors[0]` is the first entry not before the key, or null if there is none, while other inserts run |
| SkipListSteps.CasKeeps | crates/engine/src/memtable/skip_list.rs:552-606 | A compare-exchange at any level, won or lost, keeps the invariant, and the base-level one adds a legal insert to the log |
| SkipListSpec.LinkInserts | crates/engine/src/memtable/skip_list.rs:552-562 | The base-level link changes the entries exactly as the abstract insert does |
| SkipListTheorems.InsertGoesBeforeEquals | crates/engine/src/memtable/skip_list.rs:473-490 | An insert adds exactly one entry: after everything smaller and before every entry that is not, older equal keys included; as multisets the entries grow by that entry |
| SkipListTheorems.InsertKeepsSorted | crates/engine/src/memtable/skip_list.rs:473-490 | An insert keeps the entries sorted |
| SkipListTheorems.InsertsLandInOrder | crates/engine/src/memtable/skip_list.rs:541-571 | In every run, what is linked when an insert takes effect is sorted, the new entry lands after every smaller entry and before every other, older equal keys included, and what is linked in the end is sorted |
| SkipListSpec.LowerBoundUnique | crates/engine/src/memtable/skip_list.rs:468-493 | The position where entries stop sorting before the key is unique |
| SkipListHeap.LinkKeepsInv | crates/engine/src/memtable/skip_list.rs:557-562 | Linking a node after its predecessor at one level keeps every row sorted, acyclic, inside its towers and included in the row below |
| SkipListFrame.LaterPc | crates/engine/src/memtable/skip_list.rs:541-604 | A link by another thread leaves every thread's recorded predecessors, successors and unlinked node usable |
| SkipListTheorems.FailuresAreCharged | crates/engine/src/memtable/skip_list.rs:541-604 | A thread's lost link attempts never exceed the links other threads have won; a failing attempt implies a link by another thread since this thread's last search began, beyond those charged before, at every level including those the search skipped |
| SkipListTheorems.LinksAreOwned | crates/engine/src/memtable/skip_list.rs:541-604 | The links won by all threads add up to the links made |
| SkipListTheorems.ChargesAreDisjoint | crates/engine/src/memtable/skip_list.rs:541-604 | Each lost link attempt of a thread is charged to a nonempty range of links made by other threads since its last search began, and the ranges of two attempts of one thread are disjoint |
| SkipListProgress.TraversalsEnd | crates/engine/src/memtable/skip_list.rs:451-494 | In every run, while nothing is linked, a search or an iterator takes no more of its own steps than the nodes left on its level and the levels below, and one step down for each level |
| SkipListTheorems.IteratorsAreComplete | crates/engine/src/memtable/memtable.rs:295-329 | During concurrent inserts an iterator yields no node twice, in nondecreasing key order and not before its bound, and once ended has yielded every node it owed |
| SkipListTheorems.CursorHistory | crates/engine/src/memtable/memtable.rs:300-308 | An open iterator was opened by one step of the run, has been open ever since, and owes exactly the nodes linked at that step and not before its bound |
| SkipList.List.constructor | crates/engine/src/memtable/skip_list.rs:361-378 | A new list is valid and empty |
| SkipList.List.Search | crates/engine/src/memtable/skip_list.rs:437-496 | The context holds, at each level, a predecessor before the key and the pointer it has now, and `successors[0]` is the first entry not before the key |
| SkipList.List.SkipEmptyLevels | crates/engine/src/memtable/skip_list.rs:448-455 | At every level skipped, visited or not, the sentinel points nowhere |
| SkipList.List.WalkRight | crates/engine/src/memtable/skip_list.rs:465-490 | Moving right ends at the last node before the key on that level |
| SkipList.List.DrawHeight | crates/engine/src/memtable/skip_list.rs:408-419 | A drawn height is 1, 2 or 3: trailing zeros plus one, cut at 3 |
| SkipList.List.RaiseLevel | crates/engine/src/memtable/skip_list.rs:421-434 | `max_level` becomes the larger of itself and the height, and entries do not change |
| SkipList.List.LinkAt | crates/engine/src/memtable/skip_list.rs:541-604 | The retry loop links the node at its level, adding its entry exactly when the level is the base, and terminates |
| SkipList.List.Insert | crates/engine/src/memtable/skip_list.rs:515-606 | The entries become the abstract insert of the old ones, and the node is on every level below its height |
| SkipList.List.InsertWith | crates/engine/src/memtable/skip_list.rs:610-714 | Allocating and writing before searching has the same effect on the entries, for any height drawn |
| SkipList.List.Scan | crates/engine/src/memtable/skip_list.rs:721-790 | Seeking and iterating yields exactly the entries from the lower bound on, in order |
| Memtable.Table.Insert | crates/engine/src/memtable/memtable.rs:236-238 | Completes exactly when the comparator survives the search and key and value fit the node's 16- and 32-bit lengths, and then appends that entry to the history that determines the table's contents; when the comparator panics nothing is inserted |
| Memtable.Table.InsertDirect | crates/engine/src/memtable/memtable.rs:243-263 | Completes exactly under the same limits, a sequence number below 2^56 and no short key in the table, and then appends the same entry as encoding the key and inserting it, for every operation type |
| Memtable.WriteKey | crates/engine/src/memtable/memtable.rs:248-261 | The two copies of the closure fill the node's key bytes with the encoded key exactly when it has at most 65535 bytes, and run past them otherwise |
| Memtable.Table.Get | crates/engine/src/memtable/memtable.rs:160-178 | A read answers from the first entry not before the key, and panics exactly when the comparator is given a key shorter than a trailer |
| Memtable.Table.GetAt | crates/engine/src/memtable/memtable.rs:160-178 | When the history consists of writes, a snapshot read returns the outcome of the newest visible write, `NotFound` exactly when none is visible, and anything else only if there is a newest one |
| Mvcc.GetIsNewest | crates/engine/src/memtable/memtable.rs:160-178 | After any history of writes, a lookup at (user, seq, Max) yields the write of that user with the greatest (seq, op) not above seq, the last linked on exact ties, and `NotFound` exactly when there is none |
| Mvcc.KindDecidesTies | crates/engine/src/memtable/memtable.rs:160-178 | Of writes of one user key at the sequence number read, a merge is preferred to a delete and a delete to a put, whichever was linked later; of several puts the last linked is read |
| Mvcc.FirstGeIsNewest | crates/engine/src/memtable/memtable.rs:225-234 | If some write is visible, the first entry not before the search key is the newest visible one |
| Mvcc.NothingVisible | crates/engine/src/memtable/memtable.rs:165-177 | If no write is visible, the answer is `NotFound` |
| Mvcc.OrderIsOk | crates/engine/src/memtable/memtable.rs:236-263 | The table's entries are a permutation of the writes, in key order, later writes first among equal keys |
| Memtable.ConcurrentGetIsNewest | crates/engine/src/memtable/memtable.rs:160-234 | In every interleaving of lookups and of inserts that are writes a node can hold, the log before a read lists writes and the read answers with the newest visible one among them, and with `NotFound` exactly when there is none |
| Memtable.ComparatorNeverPanics | crates/engine/src/key/comparator.rs:40-53 | In every such run no step gives the comparator a key shorter than a trailer |
| SkipListKeys.ComparedKeysAreCalled | crates/engine/src/memtable/skip_list.rs:468-490 | In every run, whatever holds of the keys of all calls holds of both keys of every comparison |
| Memtable.RecordedLookup | crates/engine/src/memtable/memtable.rs:225-234 | The answer a concurrent read records is the sequential answer on the log before it |
| InternalKey.UnpackPack | crates/engine/src/key/internal_key.rs:64-78 | Unpacking a packed trailer gives the operation and the sequence number modulo 2^56 |
| InternalKey.TrailerKeepsSeqNo | crates/engine/src/key/internal_key.rs:64-67 | The sequence number survives packing if and only if it is below 2^56 |
| InternalKey.EncodeInto | crates/engine/src/key/mod.rs:23-31 | The front of the buffer becomes user key and big-endian trailer; the rest is untouched |
| InternalKey.DecodeEncode | crates/engine/src/key/internal_key.rs:110-125 | Decoding an encoded key gives back user key, sequence number and operation |
| InternalKey.EncodedByte | crates/engine/src/key/internal_key.rs:62-73 | Each byte of an encoded key in numbers: the user key, seven digits of the sequence number to base 256, highest first, then 1, 2, 3 or 255 for put, delete, merge or the search sentinel |
| InternalKey.CmpKeysIsCmpParts | crates/engine/src/key/comparator.rs:40-53 | On encoded keys the comparator answers `Less` exactly if the user key comes first in dictionary order, or is the same with a higher sequence number, or with the same number and a newer kind of operation; `Equal` exactly if all three are the same |
| InternalKey.CmpKeysEqual | crates/engine/src/key/comparator.rs:40-53 | It answers `Equal` only on identical bytes |
| InternalKey.CmpKeysFlips | crates/engine/src/key/comparator.rs:40-53 | Swapping the arguments flips the answer |
| InternalKey.CmpKeysTransitive | crates/engine/src/key/comparator.rs:40-53 | It is transitive, strictly so if either comparison is strict |
| InternalKey.KeyLessIsStrictWeakOrder | crates/engine/src/key/comparator.rs:40-53 | It meets the law the skip list needs |
| InternalKey.BytesLessIsStrictWeakOrder | crates/engine/src/key/comparator.rs:24-28 | The default comparator meets it too |
| InternalKey.BytesLessIsLexLess | crates/engine/src/key/comparator.rs:24-28 | The default comparator is dictionary order |
| ByteOrder.CmpIsLexicographic | crates/engine/src/key/comparator.rs:24-28 | Slice comparison answers `Less` exactly if the first differing byte is smaller or the first slice is a proper prefix |
| ByteOrder.LeDigit | crates/engine/src/db/write_batch.rs:225-232 | Byte k of n little-endian bytes is the digit of 256^k |
| ByteOrder.BeDigit | crates/engine/src/key/internal_key.rs:71-73 | Byte k of n big-endian bytes is the digit of 256^(n-1-k) |
| ByteOrder.BeOrder | crates/engine/src/key/internal_key.rs:69-73 | Comparing big-endian bytes compares the numbers |
| ByteOrder.FromToBe | crates/engine/src/key/internal_key.rs:71-73 | Big-endian bytes give the number back |
| ArenaLayout.AlignedIsLeast | crates/mem/src/arena.rs:172-186 | For every power of two the bit-mask rounding is the least aligned offset at or after the bump |
| ArenaFit.CheckIsFits | crates/mem/src/arena.rs:172-186 | The alignment check succeeds exactly when some aligned offset leaves room, and yields the least one |
| ArenaTheorems.ExecKeeps | crates/mem/src/arena.rs:194-322 | Every interleaving of allocations keeps chunks stacked, totals balanced, and the mutex with at most one thread |
| ArenaTheorems.GrantsAreDisjoint | crates/mem/src/arena.rs:194-238 | Every range won in a chunk is aligned and inside it, and any two are disjoint, even when bump and length were read from different chunks |
| ArenaTheorems.ReturnedRangesAreDisjoint | crates/mem/src/arena.rs:194-238 | Every range an allocation returned is aligned and inside its own chunk, and no two allocations return overlapping ranges |
| ArenaCalls.ReturnsServeCalls | crates/mem/src/arena.rs:194-238 | In every interleaving, the ranges returned have, one by one, the size and alignment of the calls they answer |
| ArenaCalls.CallGetsItsRange | crates/mem/src/arena.rs:194-238 | A call whose thread is idle again was answered by exactly one range, of the size and alignment it asked for |
| ArenaCalls.FullIsFull | crates/mem/src/arena.rs:288-307 | A thread that was told the arena is full asked for what the current chunk does not fit, with no room for a block under the capacity |
| ArenaProgress.AnswerComes | crates/mem/src/arena.rs:194-322 | From every reachable state in which no other thread has the mutex, a thread left alone gets its answer |
| ArenaProgress.CallIsAnswered | crates/mem/src/arena.rs:194-322 | With the mutex free, a call left alone is answered by one range of its size and alignment, or by a full arena when that is so |
| ArenaTheorems.BytesAreConserved | crates/mem/src/arena.rs:213-328 | Allocated bytes are chunks times block size when the mutex is free and never above capacity; bytes counted as used plus those won but not counted are all bytes granted; a chunk's bump is its granted sizes plus padding |
| ArenaStore.Arena.constructor | crates/mem/src/arena.rs:141-165 | A new arena has one empty block |
| ArenaStore.Arena.TryNewChunk | crates/mem/src/arena.rs:288-322 | Fails exactly when the current chunk does not serve and a block would exceed the capacity; grows by exactly one empty block when it does not serve and there is room |
| ArenaStore.Arena.AllocRawFallback | crates/mem/src/arena.rs:241-286 | Terminates after any number of spurious failures of the weak compare-exchange; within a block it adds at most one chunk, is placed at the least offset that serves, and fails exactly when neither the current chunk nor a new block serves; longer layouts always fail within capacity |
| ArenaStore.OversizedExhausts | crates/mem/src/arena.rs:251-259 | After a layout longer than a block the arena holds every chunk its capacity allows, and nothing was granted |
| ArenaStore.Arena.BlocksUsed | crates/mem/src/arena.rs:324-328 | The quotient is the number of chunks |
| ArenaLayout.LayoutPlacesParts | crates/engine/src/memtable/skip_list.rs:117-139 | The offsets used by the pointer arithmetic are those at which the extended layout places tower, key and value |
| ArenaLayout.PartsInBytes | crates/engine/src/memtable/skip_list.rs:117-216 | Offsets and lengths in numbers: 8 bytes of header, 8 bytes a pointer, then key and value without gaps |
| ArenaLayout.NodeLayoutSize | crates/engine/src/memtable/skip_list.rs:117-139 | A node takes 8 + 8 * height + key length + value length bytes, aligned to 8 |
| ArenaLayout.PartsTileLayout | crates/engine/src/memtable/skip_list.rs:117-231 | Every byte of a node's layout belongs to exactly one of header, tower slots, key and value, and no other byte does |
| NodeMemory.AllPartsAreApart | crates/engine/src/memtable/skip_list.rs:174-231 | Distinct parts, of one node or of two nodes in granted ranges, do not overlap and lie inside their chunk |
| ArenaLayout.CopiesFitIffStorable | crates/engine/src/memtable/skip_list.rs:529-536 | The copies of key and value stay inside their parts of a node laid out by the cast lengths if and only if the key has fewer than 2^16 and the value fewer than 2^32 bytes, at any height |
| NodeMemory.PartsHoldLastStore | crates/engine/src/memtable/skip_list.rs:141-239 | After any stores to any nodes, each part holds what was last stored in it |
| NodeMemory.ReturnedNodesArePopulation | crates/engine/src/memtable/skip_list.rs:218-231 | In every interleaving, the nodes placed in the ranges that answered calls for their layouts each have a range, and an address, of their own |
| NodeMemory.NodesReadBack | crates/engine/src/memtable/skip_list.rs:191-239 | In every interleaving of allocations and after any stores to nodes placed in the ranges that answered calls for their layouts, `get_key_bytes`, `get_value_bytes` and `tower_height`, which locate their data through the header bytes in memory, return what was last stored in that node |
| NodeMemory.HeaderTells | crates/engine/src/memtable/skip_list.rs:99-112 | In either byte order the header's bytes give back height, key length and value length |
| NodeMemory.HeaderBytesAre | crates/engine/src/memtable/skip_list.rs:98-112 | Each header byte in numbers, in either byte order: height at 0, key length at 2, value length at 4 |
| NodeMemory.InitNode | crates/engine/src/memtable/skip_list.rs:142-170 | The header and a null in every slot are written, and no other byte changes |
| HazardTheorems.RecordsArePartitioned | crates/mem/src/hazard/domain.rs:283-427 | In every sound run each record is on the available list exactly once or held by exactly one client, none is lost, and no assertion fails, the window before the tail is nulled included |
| HazardTheorems.AcquiredArrayIsChained | crates/mem/src/hazard/domain.rs:252-281 | The array holds N distinct records whose links chain in array order and end in null, whatever mix of reused and new ones, until it is dropped |
| HazardCalls.AcquireYieldsMany | crates/mem/src/hazard/domain.rs:252-281 | In every sound run, the array that answers a call for N records has N, distinct and chained |
| HazardTheorems.AvailableRecordsAreClear | crates/mem/src/hazard/hazard_ptr.rs:306-317 | A record on the available list protects nothing |
| HazardTheorems.RecordsStayListed | crates/mem/src/hazard/domain.rs:211-240 | Every record its creator has published is reachable on the list of all records |
| HazardTheorems.ProtectedPointersAreValidated | crates/mem/src/hazard/hazard_ptr.rs:201-304 | However sources change, a pointer a slot reports was published in that slot's record when a re-read found the source equal to it, and has been published in every state since |
| HazardCalls.SlotsProtectTheirSources | crates/mem/src/hazard/hazard_ptr.rs:278-295 | In every sound run, after a call to protect given sources each slot reports a pointer that its own source held when read again after the call, published in that slot's record ever since; all slots report when the call is over |
| HazardCalls.SourceIsLastWritten | crates/mem/src/hazard/hazard_ptr.rs:201-238 | In every run a source holds what the last change to it put there |
| HazardCalls.FailedCheckRetracts | crates/mem/src/hazard/hazard_ptr.rs:220-238 | A slot whose source changed before the re-read clears its record before it publishes the pointer that the re-read found |
| HazardCalls.ResetClears | crates/mem/src/hazard/hazard_ptr.rs:299-303 | In every sound run, an array whose reset is over is the array it was and protects nothing |
| HazardCalls.DropReturns | crates/mem/src/hazard/hazard_ptr.rs:308-317 | In every sound run, a client idle again after dropping its array has put exactly that array, in order and unprotected, in front of the available list |
| HazardProgress.AnswerComes | crates/mem/src/hazard/domain.rs:211-427 | From every state of a sound run in which no other client has the lock bit, a client left alone gets its answer |
| HazardProgress.AcquireCompletes | crates/mem/src/hazard/domain.rs:252-281 | Left alone, a client that asks for N records ends up with N |
| HazardReuse.AcquireReuses | crates/mem/src/hazard/domain.rs:252-281 | Left alone, a client that asks for N records gets the first available ones, in order, as many as there are up to N, and no more records are created than are missing |
| HazardProgress.ProtectCompletes | crates/mem/src/hazard/hazard_ptr.rs:278-295 | Left alone, a client that protects ends up with slot i reporting and publishing what source i holds |
| HazardProgress.ResetCompletes | crates/mem/src/hazard/hazard_ptr.rs:299-303 | Left alone, a client that resets ends up protecting nothing |
| HazardProgress.DropCompletes | crates/mem/src/hazard/hazard_ptr.rs:308-317 | Left alone, a client that drops ends up idle, its array back on the available list |
| HazardTheorems.ExecKeeps | crates/mem/src/hazard/domain.rs:211-427 | Every step of every sound run keeps free list, list of all records, ownership and lock consistent |
| HazardSteps.ApplyKeeps | crates/mem/src/hazard/domain.rs:211-427 | One step of any client, or a change of a source, keeps that invariant under the hypothesis |
| HazardLock.SectionIsSafeIffPointersAgree | crates/mem/src/hazard/domain.rs:283-382 | Whatever the other clients do meanwhile, a client that wins the lock bit leaves its locked section with the records partitioned and nothing faulting if and only if the pointer it loaded is the one `fetch_or` returned |
| HazardLock.StaleWinBreaks | crates/mem/src/hazard/domain.rs:288-382 | A lock step won with another pointer has a continuation, without any further such step, that breaks the partition or faults |
| HazardLock.HypothesisIsExact | crates/mem/src/hazard/domain.rs:283-427 | A step added to a sound run endangers no sound continuation if and only if it meets the hypothesis |
| HazardLock.StaleLockIsReachable | crates/mem/src/hazard/domain.rs:288-305 | A run reaches a winning lock step in which the two differ |
| HazardLock.StaleLockBreaksPartition | crates/mem/src/hazard/domain.rs:288-316 | Three steps later two clients hold the same record |
| VarInt.New | crates/engine/src/utils/var_int.rs:20-39 | Yields the LEB128 digits of the value, and panics exactly from 2^28 on |
| VarInt.Decode | crates/engine/src/utils/var_int.rs:41-56 | Yields the number denoted by the bytes through the first without a continuation bit, modulo 2^32, and their count; panics exactly when that takes more than five bytes |
| VarInt.RoundTrip | crates/engine/src/utils/var_int.rs:20-56 | For every value below 2^28 and any bytes after it, decoding gives the value and its exact length |
| VarInt.LebLength | crates/engine/src/utils/var_int.rs:26-38 | A value takes at most n bytes exactly when it is below 2^(7n) |
| VarInt.LebDigit | crates/engine/src/utils/var_int.rs:26-31 | Byte k is the digit of 128^k, with the top bit set on all bytes but the last |
| WriteBatch.Batch.constructor | crates/engine/src/db/write_batch.rs:180-187 | A new batch is the empty sequence of puts |
| WriteBatch.Batch.PutBytes | crates/engine/src/db/write_batch.rs:212-233 | The buffer becomes that of the old puts and this one, count included; panics exactly for an unencodable length or a full count |
| WriteBatch.Batch.BatchCount | crates/engine/src/db/write_batch.rs:235-241 | The header count is the number of puts |
| WriteBatch.RecordsRead | crates/engine/src/db/write_batch.rs:20-25 | Every sentence of the documented grammar is read back as its records |
| WriteBatch.RecordsAreRead | crates/engine/src/db/write_batch.rs:20-25 | Whatever the reader accepts is a sentence of the grammar with that text |
| WriteBatch.Unambiguous | crates/engine/src/db/write_batch.rs:20-25 | One text has one derivation, non-minimal length encodings included |
| WriteBatch.PutIsRecordIffShort | crates/engine/src/db/write_batch.rs:212-221 | A completed put is framed as the grammar says if and only if both lengths are below 2^28 |
| WriteBatch.BatchParsesIffShort | crates/engine/src/db/write_batch.rs:212-233 | Of completed puts, the buffer has a parse that says what was put if and only if all lengths are below 2^28 |
| WriteBatch.BatchParses | crates/engine/src/db/write_batch.rs:212-241 | Any sequence of fewer than 2^32 such puts leaves a buffer whose only parse is those puts in order, each of type 1 and column family 0, with their number as count |
| WriteBatch.PutBytesAre | crates/engine/src/db/write_batch.rs:212-221 | The bytes of a put: 1, four zeros, and key and value each after its length |
| WriteBatch.HeaderBytesAre | crates/engine/src/db/write_batch.rs:180-187 | The header bytes in numbers: eight zeros, then the count to base 256, lowest digit first |
| WriteThread.QueueIsReverseLinkOrder | crates/engine/src/db/write_thread.rs:109-140 | In every interleaving the `link_older` chain from `newest_writer` is exactly the linked writers in reverse compare-exchange order, none twice |
| WriteThread.FirstWinnerLeads | crates/engine/src/db/write_thread.rs:127-138 | A call reports leadership exactly if its writer was the first to be linked |
| WriteThread.WriterGetsLinked | crates/engine/src/db/write_thread.rs:109-140 | From every reachable state, a call left alone links its writer |

## Left out

- Memory orderings weaker than sequential consistency, barriers, pointer provenance, and the alignment of chunk base addresses: offsets are relative to their chunk.
- Randomness: the xorshift seed is not modelled; a draw is a parameter.
- Counters that no decision reads: `entries` of the skip list, `count` of the hazard domain, and the memtable's size, sequence and lifecycle fields.
- Memtable.Table.Insert: says nothing of the table after a key of 2^16 bytes or a value of 2^32 bytes or more, because the source casts the length, reserves space by the result and copies the whole, past it.
- Memtable.Table.InsertDirect: says nothing of the table in the same cases.
- Memtable.ConcurrentGetIsNewest: takes inserts that a node can hold and lookups with a trailer, beyond which the code overruns the node or panics.
- ArenaStore.Arena.AllocRawFallback: the number of spurious failures of the weak compare-exchange is any finite number, since with endlessly many the loop does not end.
- HazardTheorems.RecordsArePartitioned: carries the hypothesis that a winning lock step finds the pointer it loaded, because it is false without it.
- `alloc_raw` differs from `alloc_raw_fallback` only in panicking on `ArenaFull` and shares its step system.
- `RangeIter` and `range`: compares raw bytes instead of using the comparator and treats an excluded start as included; adds little beyond seek and iterate.
- `LookUpKey`, `InnerKey`, `IterKey`: storage choices with easy claims.
- Hazard reclamation: `retire_ptr` is a stub and `HzdPtr::drop` is unfinished.
- `WriteThread::set_new_links`, `EnterBatchGroup`, `join`, and `Writer::wait`: unfinished, or timing only.
- Column families, superversions, memtable lists, options, metrics, allocator back ends and display code.
