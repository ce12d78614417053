# A verified model of a two-phase-locking lock manager

This project models the locking core of a small Rust two-phase-locking
system and proves properties of that model in Dafny.

- **Lock modes** (`src/lock.rs`). The three modes are Shared, Exclusive and
  NoLock. Each has a compatibility relation and an upgrade relation.
  Operation kinds map to modes, and the `get_lock_mode!` macro looks up an
  owner's mode. The macro calls `operation.op_type()` (line 21), while
  `Operation` has only the field `op_type` (`src/operation.rs`, lines
  17-21); no file shown expands the macro, and the model reads the call as
  that field.
- **Per-key lock lists** (`src/lock_mgr_macro.rs`). `declare_locks_table!`
  stamps out the same list twice. This model writes it once, as the generic
  class `LockList<K>`: `LockList<string>` is the resource side and
  `LockList<Operation>` is the operation side. Each list is a vector of
  locks that its methods change in place.
- **The lock table and its protocol** (`src/lock_mgr.rs`). The table holds a
  map from resource id to resource list and a map from operation id to
  operation list.
  - `acquire`, `release`, `promote` and the zero-duration case of
    `try_acquire` are methods of the class `LockTable`.
  - Each method is proved against a pure function of an abstract
    `TableState`: `AcquireSpec`, `ReleaseSpec` or `PromoteSpec`.
  - The protocol's properties are lemmas about those functions, in module
    `LockManagerProperties`. They include which outcome each case gives,
    when the code panics, and when each resource list keeps the
    two-phase-locking shape. That shape is a property of the resource lists
    only: it does not say that no two operations hold incompatible locks on
    one resource, and the model reaches tables where they do.
- **Operations** (`src/operation.rs`): access kinds, operations and their
  defaults.
- **The resource-addressing layer** (`src/segment.rs`). A `Segment` splits
  `i32` values into chunks and looks up the chunk for an element index. It
  reads tuples and overwrites one value.

Where the code panics, the model does one of two things:

- The `unwrap`s of the manager in `release` (line 141) and `promote`
  (lines 162-163) become an explicit `Panic` outcome. The table is unchanged
  in that case: each `unwrap` comes before any mutation, and the table's
  reader-writer lock does not poison.
- Index panics in the list and segment code become `requires` clauses.

`usize` is taken to be 64 bits wide. The casts `i32 as usize` and
`usize as i32` are written out (`AsUsize`, `AsI32`). `to_string` and
`join(",")` are modelled exactly (module `Decimal`), so tuple ids and chunk
ids can be parsed back.

The usual two-phase-locking contract and the code differ in several
places. The model follows the code:

- The usual contract lets the sole Shared holder upgrade to Exclusive. The
  code has a `promote` step for the upgrade and `upgradable` (lines 46-52 of
  `src/lock.rs`) only checks "Shared held, Exclusive requested", with no
  condition on who holds it. But `acquire` rejects any operation that
  already has an entry, and `promote` looks up that entry (line 163 of
  `src/lock_mgr.rs`), so this branch always panics.
- The usual contract lets a release drop only the releasing operation's
  locks. In the code, `remove_lock(rid)` (line 142) removes every lock on
  the resource, so a co-holder's later release panics at line 141. Until
  then, a writer finds no resource entry and is granted through the
  fresh-resource branch (lines 116-124) while the other reader still holds
  its Shared lock.
- The usual contract checks a request against every held lock; the macro's
  `lock_conflicts` scan does exactly that. `acquire` instead consults only
  the mode of the first lock on the resource (line 100).
- The usual contract makes a conflicting request wait. The code returns
  `LockConflicts` at once, and a TODO at line 107 notes the missing wait.
  It has no waiter queues, wake-ups, timeout error or deadlock victim.

## Model

| member | source | states |
|---|---|---|
| Operations.DefaultOpType | src/operation.rs:10-14 | the default access kind is NoOp |
| Operations.DefaultOperation | src/operation.rs:23-31 | the default operation is a NoOp with id `_NONE` on resource `_NONE_RID` |
| Operations.NewOperation | src/operation.rs:33-40 | `Operation::new(id, rid, op_type)` keeps its three arguments, with `rid` as the resource |
| Locks.CompatibilityTable | src/lock.rs:37-44 | a held Shared lock admits exactly Shared requests; Exclusive admits nothing; NoLock admits everything |
| Locks.UpgradableExactly | src/lock.rs:46-52 | a mode pair is upgradable exactly when Shared is held and Exclusive is requested |
| Locks.UpgradableExcludesCompatible | src/lock.rs:36-53 | no mode pair is both upgradable and compatible, so the two branches of `acquire` never overlap |
| Locks.CompatibleNotSymmetric | src/lock.rs:37-44 | compatibility is not symmetric: NoLock admits Exclusive, but Exclusive does not admit NoLock |
| Locks.DefaultLockMode | src/lock.rs:55-59 | the default mode is NoLock |
| Locks.RequestedMode | src/lock.rs:7-13 | every access kind is a key of `OP_LOCK_MAPPING`, and the requested mode is its entry there |
| Locks.MappingTotal | src/lock.rs:7-13 | the mapping is total, so `acquire`'s `unwrap` of the lookup never fails; Read maps to Shared, Write to Exclusive, NoOp to NoLock |
| Locks.NewLock | src/lock.rs:68-75 | `Lock::new(mode, op_id, rid)` keeps its three arguments |
| Locks.OwnerLockMode | src/lock.rs:17-27 | the macro gives the mapped mode of the owner recorded for `rid`, or NoLock when there is none |
| Locks.DefaultOperationRequestsNoLock | src/operation.rs:23-31 | the default operation requests the default mode |
| LockLists.FindRid | src/lock_mgr_macro.rs:44-49 | gives the position of the first lock on `rid`, with no earlier lock on it; gives None exactly when no lock is on `rid` |
| LockLists.WithoutRid | src/lock_mgr_macro.rs:35-39 | a lock survives `retain` exactly when it was in the list and is not on `rid`; the list never grows |
| LockLists.LockList.constructor | src/lock_mgr_macro.rs:12-17 | `new(key)` records the key and starts with no locks |
| LockLists.LockList.LockConflicts | src/lock_mgr_macro.rs:20-28 | answers true exactly when some held lock does not admit the requested mode |
| LockLists.LockList.LockSize | src/lock_mgr_macro.rs:30-33 | gives the number of held locks |
| LockLists.LockList.RemoveLock | src/lock_mgr_macro.rs:35-39 | afterwards the list is the old list without its locks on `rid`, in order |
| LockLists.LockList.UpdateLock | src/lock_mgr_macro.rs:41-54 | on a non-empty list, replaces the first lock on `rid` (position 0 when there is none) and keeps the length |
| LockLists.LockList.AddLock | src/lock_mgr_macro.rs:56-59 | appends the lock |
| LockLists.LockList.GetLockMode | src/lock_mgr_macro.rs:61-69 | gives the mode of the first lock on `rid`, or NoLock |
| LockLists.RemoveInsertIsUpdate | src/lock_mgr_macro.rs:50-53 | `remove(i)` followed by `insert(i, x)` replaces element `i` |
| LockLists.WithoutRidAppend | src/lock_mgr_macro.rs:35-39 | removal distributes over concatenation, so the surviving locks keep their order |
| LockLists.WithoutRidNoMatch | src/lock_mgr_macro.rs:35-39 | a list with no lock on `rid` is unchanged |
| LockLists.WithoutRidAllMatch | src/lock_mgr_macro.rs:35-39 | a list whose every lock is on `rid` is emptied |
| LockLists.WithoutRidIdempotent | src/lock_mgr_macro.rs:35-39 | removing twice is the same as removing once |
| LockLists.ModeOfFirstLock | src/lock_mgr_macro.rs:61-69 | when every lock is on `rid`, the reported mode is that of the first lock |
| LockLists.ModeOfMissing | src/lock_mgr_macro.rs:61-69 | with no lock on `rid`, the reported mode is NoLock |
| LockLists.ReplaceIndexInRange | src/lock_mgr_macro.rs:43-53 | the replaced position is in range, and it is 0 when no lock is on `rid` |
| LockLists.EmptyNeverConflicts | src/lock_mgr_macro.rs:20-28 | an empty list never conflicts |
| LockLists.FirstModeDecidesConflicts | src/lock_mgr.rs:100-109 | on a well-shaped list, checking only the first lock's mode gives the same answer as scanning every lock |
| LockManager.LockTable.constructor | src/lock_mgr.rs:31-36 | `LockTable::new()` starts with both maps empty |
| LockManager.LockTable.Acquire | src/lock_mgr.rs:87-129 | outcome and new table equal `AcquireSpec`: duplicate id, fresh resource, upgrade through `promote`, conflict or append |
| LockManager.LockTable.AppendGrant | src/lock_mgr.rs:110-113 | appends the lock to the resource's list, and gives the operation a list holding just that lock |
| LockManager.LockTable.InsertGrant | src/lock_mgr.rs:117-124 | creates a list on each side holding just the lock |
| LockManager.LockTable.InsertResourceEntry | src/lock_mgr.rs:119-123 | adds a resource entry holding just the lock; the operation side is unchanged |
| LockManager.LockTable.InsertOperationEntry | src/lock_mgr.rs:121-124 | adds an operation entry holding just the lock; the resource side is unchanged |
| LockManager.LockTable.TryAcquire | src/lock_mgr.rs:65-67 | with a zero duration, behaves exactly like `acquire` |
| LockManager.LockTable.Release | src/lock_mgr.rs:131-149 | outcome and new table equal `ReleaseSpec`: NoLockHeld, a panic at the resource lookup, or removal |
| LockManager.LockTable.ReleaseResource | src/lock_mgr.rs:141-145 | removes every lock on the resource, and drops the entry once its list is empty |
| LockManager.LockTable.DropOperation | src/lock_mgr.rs:146 | removes only the releasing operation's entry |
| LockManager.LockTable.Promote | src/lock_mgr.rs:151-167 | outcome and new table equal `PromoteSpec`: a panic on a missing entry, else the first lock on the resource is replaced in both lists |
| LockManager.LockTable.UpdateResourceEntry | src/lock_mgr.rs:165 | replaces the first lock on `rid` in the resource's list; the operation side is unchanged |
| LockManager.LockTable.UpdateOperationEntry | src/lock_mgr.rs:166 | replaces the first lock on `rid` in the operation's list; the resource side is unchanged |
| LockManagerProperties.AcquireDuplicate | src/lock_mgr.rs:95-96 | an operation id already in the table gets `DuplicateLock`, and both maps are unchanged |
| LockManagerProperties.AcquireFreshResource | src/lock_mgr.rs:116-126 | on a resource with no entry, both maps gain an entry holding exactly the returned lock |
| LockManagerProperties.AcquireConflict | src/lock_mgr.rs:106-108 | when the first held mode neither upgrades to nor admits the request, the result is `LockConflicts(op_id, rid)` and nothing changes |
| LockManagerProperties.AcquireCompatible | src/lock_mgr.rs:110-115 | when the first held mode admits the request, the lock is appended and returned |
| LockManagerProperties.AcquirePanicsExactlyOnUpgrade | src/lock_mgr.rs:103-104 | `acquire` panics exactly when the id is new, the resource is held, its first mode is Shared and the request is a Write; a panic leaves the table unchanged |
| LockManagerProperties.AcquireOutcomes | src/lock_mgr.rs:87-129 | every success returns the requested lock and records it as the operation's only lock; every failure leaves the table unchanged |
| LockManagerProperties.AcquirePreservesConsistent | src/lock_mgr.rs:98-126 | with Read and Write operations only, `acquire` keeps every resource either all Shared or a single Exclusive, and keeps every operation holding exactly its one lock |
| LockManagerProperties.ReleaseNoLockHeld | src/lock_mgr.rs:137-138 | releasing an operation with no entry gives `NoLockHeld` and changes nothing |
| LockManagerProperties.ReleaseClearsResource | src/lock_mgr.rs:140-146 | on every table whose resource lists hold only locks on their own resource, a release drops the whole resource entry and only the releasing operation's entry |
| LockManagerProperties.ReleasePreservesConsistent | src/lock_mgr.rs:131-149 | a release keeps the table consistent |
| LockManagerProperties.CoHolderReleasePanics | src/lock_mgr.rs:141 | on every such table, after one of two co-holders of a resource releases, the other's release panics |
| LockManagerProperties.AcquireKeepsKeyed | src/lock_mgr.rs:98-126 | for every access kind, NoOp included, `acquire` keeps every lock in the list of its own resource |
| LockManagerProperties.ReleaseKeepsKeyed | src/lock_mgr.rs:140-146 | `release` keeps every lock in the list of its own resource |
| LockManagerProperties.ReachableIsKeyed | src/lock_mgr.rs:87-149 | from any table whose resource lists hold only locks on their own resource, the empty one included, every sequence of `acquire` and `release` calls keeps that property |
| LockManagerProperties.NoOpTableKeyedNotConsistent | src/lock_mgr.rs:98-126 | the table built by a NoOp, a Write and a Read on one resource is reachable but is neither all Shared nor a single Exclusive |
| LockManagerProperties.ReleaseTwice | src/lock_mgr.rs:137-138 | a second release of the same operation gives `NoLockHeld` |
| LockManagerProperties.PromoteReplacesFirst | src/lock_mgr.rs:165-166 | when both entries exist, `promote` succeeds, keeps the keys and lengths, and in each of the two lists replaces only the first lock on the resource |
| LockManagerProperties.TwoReadersShare | src/lock_mgr.rs:178-198 | two Read operations on one resource both succeed, leaving one resource entry and two operation entries |
| LockManagerProperties.ReadAfterWriteConflicts | src/lock_mgr.rs:105-108 | `acquire` does not wait: while a writer holds the resource, a Read by another operation gets `LockConflicts` at once |
| LockManagerProperties.WriterReleaseThenReaderAcquires | src/lock_mgr.rs:200-247 | the steps of `test_wait_lock_state` run in sequence: the writer acquires and releases, after which the reader's acquire succeeds and its lock is the only one on the resource |
| LockManagerProperties.AcquireThenRelease | src/lock_mgr.rs:250-256 | acquire followed by release succeeds and leaves the table empty |
| LockManagerProperties.WriteAfterReadPanics | src/lock_mgr.rs:103-104 | a Write by a second operation on a resource held Shared panics instead of reporting a conflict |
| LockManagerProperties.NoOpFirstLockAdmitsEverything | src/lock_mgr.rs:100-113 | behind a first NoLock lock, an Exclusive and then a Shared lock are both granted together |
| LockManagerProperties.ReaderReleaseAdmitsWriter | src/lock_mgr.rs:140-146 | after two readers share a resource and the first releases, a writer is granted while the second reader still holds Shared; every call succeeds and the resource lists stay consistent |
| Decimal.NatToString | src/segment.rs:61 | `usize::to_string` is a non-empty string of digits whose first digit is `0` only for zero |
| Decimal.IntToString | src/segment.rs:16 | `i32::to_string` starts with a minus sign exactly for a negative value, has only digits after that, and puts no leading zero after the minus sign |
| Decimal.ParseNatToString | src/segment.rs:61 | the decimal digits of a natural number read back as that number |
| Decimal.ParseIntToString | src/segment.rs:16 | the decimal form of an integer reads back as that integer |
| Decimal.SplitJoin | src/segment.rs:14-18 | splitting a comma join of comma-free parts at commas gives the parts back |
| Decimal.IdRoundTrip | src/segment.rs:14-18 | a non-empty comma-joined list of decimal integers parses back as the list |
| Segments.AsUsize | src/segment.rs:106 | `i as usize` equals `i` when `i` is not negative and `i + 2^64` when it is negative, which lies in the top 2^31 values below 2^64 |
| Segments.AsI32 | src/segment.rs:84 | `n as i32` equals `n` below 2^31 and is always congruent to `n` modulo 2^32 |
| Segments.EmptyTuple | src/segment.rs:12-22 | the tuple is named by its comma-joined indices, keeps the indices, and holds no values |
| Segments.SplitFrom | src/segment.rs:52-69 | the chunks from `start` on are never empty, and the first one starts at `start` |
| Segments.StartOfIsProduct | src/segment.rs:53 | counting up one chunk capacity at a time reaches `index * capacity_per_chunk` |
| Segments.ChunkStart | src/segment.rs:53 | gives where chunk `index` starts |
| Segments.ChunksFromInts | src/segment.rs:49-70 | the loop produces exactly the chunks of `SplitChunks` |
| Segments.Segment.FromInts | src/segment.rs:48-77 | the segment records the input length and chunk capacity, holds the chunks of `SplitChunks`, and satisfies the layout invariant |
| Segments.Segment.Capacity | src/segment.rs:83-85 | `capacity()` is the input length below 2^31, and in every case an `i32` congruent to it modulo 2^32, which fixes the value |
| Segments.ChunkPos | src/segment.rs:87-94 | `get_chunk` stops at the first chunk whose end is past `idx`, or else at the last chunk |
| Segments.Segment.GetChunk | src/segment.rs:87-94 | gives the chunk at `ChunkPos`, or None when there are no chunks |
| Segments.Segment.GetChunkIndex | src/segment.rs:103-115 | one entry per index: the element index and its offset in the chunk `get_chunk` finds, with the offset never negative |
| Segments.Segment.GetTuple | src/segment.rs:117-134 | the tuple is named by its indices, keeps them, and holds the value read at each one |
| Segments.Segment.UpdateValue | src/segment.rs:96-101 | as written: writes the chunk at the position equal to the element index, at the offset `get_chunk_index` gives, and keeps the layout |
| Segments.Segment.UpdateValueIntended | src/segment.rs:96-101 | corrected: sets element `index` of the segment's data and changes nothing else |
| Segments.SplitFromLayout | src/segment.rs:52-69 | the chunks from `start` on have the layout: consecutive chunks of `cap` values, and a last chunk ending at `len - 1` |
| Segments.SplitFromFlatten | src/segment.rs:52-69 | the chunks from `start` on together hold the input from `start` up to, but not including, its last value |
| Segments.SplitFromSlices | src/segment.rs:60-65 | each chunk holds the input slice `start..end` |
| Segments.SplitChunksLayout | src/segment.rs:48-77 | `from_ints` produces the layout; each chunk holds its slice; all chunks together hold every input value but the last |
| Segments.ChunkStartsAtMultiple | src/segment.rs:53 | chunk `k` starts at `k * capacity_per_chunk` |
| Segments.ChunkEnds | src/segment.rs:54-59 | every chunk but the last ends `cap` after its start, where the next one begins; the last ends at `len - 1`; the data holds `len - 1` values |
| Segments.ChunkStartAtMost | src/segment.rs:110 | on a segment, the chunk `get_chunk` finds never starts after the index, so the subtraction cannot underflow |
| Segments.AddressableIff | src/segment.rs:117-124 | on a segment, an index can be read exactly when it is below `len - 1`, and the value read is that element of the data |
| Segments.FromIntsTupleValues | src/segment.rs:117-124 | a freshly built segment reads back the input value at every index but the last |
| Segments.IdsRoundTrip | src/segment.rs:125-130 | a tuple id parses back as its indices, and a chunk id as its start and end |
| Segments.WriteKeepsLayout | src/segment.rs:100 | overwriting one value keeps the layout |
| Segments.UpdateIntendedCorrect | src/segment.rs:96-101 | the corrected update keeps the layout and sets exactly element `index` of the data |
| Segments.UpdateFlatten | src/segment.rs:100 | writing offset `off` of chunk `p` sets the data at that chunk's offset plus `off` |
| Segments.OffsetIsStart | src/segment.rs:100 | on a layout, a chunk's data begins in the whole data at the chunk's start |
| Segments.SampleChunks | src/segment.rs:48-77 | over five values with chunks of two, the chunks are `0..2`, `2..4` and an empty `4..4` |
| Segments.SampleWritten | src/segment.rs:96-101 | `update_value(1, 99)` as written turns the data `[10, 20, 30, 40]` into `[10, 20, 30, 99]` |
| Segments.SampleIntended | src/segment.rs:96-101 | the corrected update of element 1 gives `[10, 99, 30, 40]` |
| Segments.UpdateValueMisplaces | src/segment.rs:100 | on that sample, the update as written changes element 3 while the corrected update changes element 1 |

## Left out

- `try_acquire` with a non-zero duration is left out: it loops with `park_timeout` and `Instant` (lines 69-83), which depend on a clock and the scheduler.
- TryAcquire: requires a zero duration, because only that case is modelled.
- `GLOBAL_LOCK_TABLE` and its reader-writer lock are left out. The `Arc<RwLock<..>>` inside each list and all concurrency are left out too. The model is sequential: each manager call uses the table on its own, as it does under the global write lock.
- The `LockManager` wrapper struct is left out, along with its `new` and `Default`. Each table method takes the operation directly.
- `println!` calls are left out, because they are output only.
- `Segment::chunks()` is left out: it only returns a copy of the chunks field.
- The deadlock detector, the operation scheduler and `main` are not part of this model.
- Waiter queues are left out, because the code has none.
- LockLists.LockList.UpdateLock: does not model the `idx as i32` and `replace_id as usize` casts. They only differ from the index past 2^31 locks.
- Segments.Segment.GetTuple: requires every index to be readable. An index outside the chunk's data panics in the code, and the precondition stands for that panic.
- Segments.Segment.UpdateValue: requires both indexings to be in range. Out-of-range indexing panics in the code, and the precondition stands for those panics.
- Segments.Segment.FromInts: requires a positive chunk capacity and a non-empty input. With a zero capacity the loop never ends, and with no input `ints.len() - 1` underflows.

## Findings

| source | as written | input that shows it | evidently intended | confidence | as-written member | corrected member |
|---|---|---|---|---|---|---|
| src/segment.rs:100 | `update_value` indexes the chunk vector with `chunk_index.index`, which `get_chunk_index` sets to the element index (line 109), not the chunk's position | chunk capacity 2, values `[10, 20, 30, 40, 50]`, `update_value(1, 99)`: the data becomes `[10, 20, 30, 99]` | write element 1 in the chunk `get_chunk` finds for it: `[10, 99, 30, 40]` | not executed | Segments.UpdateValueMisplaces | Segments.UpdateIntendedCorrect |
