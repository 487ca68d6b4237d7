# OpenVDB output queue, range and combiner utilities, and the point-sort offset fill, in Dafny

This project models three pieces of OpenVDB:

- **The asynchronous grid output queue** (`openvdb/io/Queue.cc`), as built without TBB.
  - A caller submits grids with `writeGrid`/`writeGridVec`. Each submission gets a task id from a 32-bit counter that starts at 1.
  - Admission needs a free slot (active count below capacity). When there is none, the caller is refused with a time-limit error.
  - An admitted task is marked PENDING and then runs inline, on the submitting thread. It writes the grids and reports SUCCEEDED or FAILED through the completion trampoline.
  - The trampoline stores the status, calls every registered notifier in ascending notifier-id order, evicts a terminal status that some notifier was told about, and releases the task's slot.
  - `status(id)` answers UNKNOWN for an untracked id. It answers a terminal status once and forgets it, and it answers PENDING without forgetting it.
  - The queue is the class `IoQueue.Queue`. Its status table is a `map`, and its notifier registry is the ascending entry list of a `std::map` (`NotifierRegistry`).
  - Notifier calls, status writes and evictions are appended to a ghost event log, in the order the code performs them.
  - The 32-bit id counters and the 32-bit signed active counter wrap explicitly (`FixedWidth`).
- **Utilities from `openvdb/Types.h`.**
  - The non-TBB `BlockedRange` (modelled for `size_t`, so `size()` wraps modulo 2^64) and its 2-D and 3-D products (`BlockedRanges`).
  - `ShortestFittingInt` (`ShortestFittingInt`).
  - `CombineArgs` with its pointer fields and active-state flags, and the `SwappedCombineOp` adapter (`Combine`). Pointees are `Cell` objects, so the result location can alias an input as in the source.
- **`SetOffsets` of the Houdini point-sort node** (`SortPoints`).
  - It fills an offset array in place. The partitioner is its list of buckets of point indices, and `pointOffset` is a function parameter.
  - The written array is specified by `Scatter`. The lemmas give the start index, the window size, the slot of every point, the unchanged slots, the full-range result, and that split ranges compose.

## Model

| member | source | states |
|---|---|---|
| FixedWidth.IncUndoesDec | openvdb/io/Queue.cc:217-248 | the trampoline's `--mNumTasks` followed by `++mNumTasks` restores the counter even at the 32-bit wrap point, and a decrement always changes it |
| FixedWidth.NextIndex32 | openvdb/io/Queue.cc:374 | `id++` on a uint32 counter: the next value modulo 2^32 |
| FixedWidth.Inc32 | openvdb/io/Queue.cc:248 | `++mNumTasks` on an atomic Int32: one more, modulo 2^32 in two's complement |
| FixedWidth.Dec32 | openvdb/io/Queue.cc:217 | `--mNumTasks` on an atomic Int32: one less, modulo 2^32 in two's complement |
| FixedWidth.IssuedIds | openvdb/io/Queue.cc:374 | k successive draws `mNextId++` yield k ids |
| FixedWidth.IssuedIdAt | openvdb/io/Queue.cc:374 | the i-th id drawn is start + i modulo 2^32 |
| FixedWidth.IssuedIdsIncrease | openvdb/io/Queue.cc:371-374 | ids drawn from a counter that does not pass 2^32 - 1 are strictly increasing, hence distinct |
| FixedWidth.IssuedIdsRepeat | openvdb/io/Queue.cc:374 | after 2^32 draws the counter hands out the same ids again |
| NotifierRegistry.Put | openvdb/io/Queue.cc:337 | `mNotifiers[id] = notify` keeps the entries ascending and makes the map `old[id := notify]` |
| NotifierRegistry.Erase | openvdb/io/Queue.cc:346-349 | erase-if-found keeps the entries ascending and makes the map `old - {id}` |
| NotifierRegistry.RegisteredAt | openvdb/io/Queue.cc:259 | an id is registered exactly when some entry carries it |
| NotifierRegistry.EraseUnknownIsNoOp | openvdb/io/Queue.cc:346-349 | removing an unregistered id leaves the registry identical |
| NotifierRegistry.EraseAt | openvdb/io/Queue.cc:346-349 | erasing the id that entry i carries removes entry i and nothing else |
| NotifierRegistry.EraseKnownDropsOneEntry | openvdb/io/Queue.cc:346-349 | removing a registered id drops exactly its entry and keeps the others in order |
| NotifierRegistry.PutFreshAppends | openvdb/io/Queue.cc:336-337 | registering an id above every registered one appends it at the end of the iteration order |
| NotifierRegistry.NoEntriesNoKeys | openvdb/io/Queue.cc:194 | the registry has no entries exactly when its map is empty |
| NotifierRegistry.AscendingKeyCount | openvdb/io/Queue.cc:140 | an ascending list has exactly one entry per key of its `std::map`, so its length is the map's size |
| NotifierRegistry.AscendingIsCanonical | openvdb/io/Queue.cc:194-201 | two ascending registries with the same map are the same list, so the iteration order is the map's key order |
| StatusTable.ReadAnswersStoredStatus | openvdb/io/Queue.cc:317-328 | on a table without UNKNOWN entries, `status` answers UNKNOWN exactly for untracked ids and otherwise the stored status |
| StatusTable.ReadOnce | openvdb/io/Queue.cc:321-325 | a terminal answer erases the entry so the next read answers UNKNOWN; PENDING and UNKNOWN answers leave the table as it was |
| StatusTable.ReadTouchesOnlyItsId | openvdb/io/Queue.cc:323 | a read never changes another id's entry |
| StatusTable.UnobservedCompletionIsReadOnce | openvdb/io/Queue.cc:205-216 | with no notifier, a terminal status is kept for one read and then gone |
| StatusTable.NotifiedCompletionIsEvicted | openvdb/io/Queue.cc:205-216 | a terminal status broadcast to a notifier is evicted at once, so `status` answers UNKNOWN |
| StatusTable.TableShapesPreserved | openvdb/io/Queue.cc:164-174 | completion and reads never store UNKNOWN, and keep a table with only terminal entries that way |
| StatusTable.InlineRunOverwritesPending | openvdb/io/Queue.cc:242-246 | the PENDING written before the inline run is always overwritten by the completion |
| IoQueue.Outcome | openvdb/io/Queue.cc:109-123 | the task's status is SUCCEEDED iff the write returned normally and FAILED iff it threw, whatever it threw |
| IoQueue.BroadcastReachesEachOnce | openvdb/io/Queue.cc:194-201 | the broadcast has one delivery per registered notifier and no other: every delivery goes to a registered notifier with the task's (id, status), each registered notifier is called exactly once, in ascending notifier-id order; this holds for every registry, the empty one included |
| IoQueue.Queue.constructor | openvdb/io/Queue.cc:268-271 | capacity stored as given (even 0), default timeout, both id counters at 1, no status, no notifier, no task |
| IoQueue.Queue.SetCapacity | openvdb/io/Queue.cc:293 | stores max(1, n) |
| IoQueue.Queue.SetTimeout | openvdb/io/Queue.cc:304 | stores the argument unchanged |
| IoQueue.Queue.Size | openvdb/io/Queue.cc:291 | the active count clamped at 0: zero exactly when the count is not positive, the count itself otherwise |
| IoQueue.Queue.EmptyHasNoSize | openvdb/io/Queue.cc:290-291 | `empty()` implies `size() == 0`; the converse fails only while the count is negative |
| IoQueue.Queue.SetStatus | openvdb/io/Queue.cc:164-174 | overwrites the id's status and nothing else |
| IoQueue.Queue.SetStatusWithNotification | openvdb/io/Queue.cc:177-219 | status written first, then one delivery per notifier in registry order, then eviction iff terminal and someone was notified, then, last in the log, one wrapping decrement iff terminal |
| IoQueue.Queue.Execute | openvdb/io/Queue.cc:109-123 | reports `Outcome(write)` exactly once through the trampoline and releases one slot |
| IoQueue.Queue.Enqueue | openvdb/io/Queue.cc:221-249 | admitted iff a slot was free; a refused task is never marked, run or counted; an admitted one is marked PENDING, run to completion (release included), and only then counted, as the log's last event, netting the active count to zero |
| IoQueue.Queue.WriteGridVec | openvdb/io/Queue.cc:371-395 | the id is drawn even when admission fails; success iff a slot was free, returning the drawn id; failure is the time-limit error carrying the timeout; the log shows PENDING, the completion, and the count last; the idle state and id freshness are preserved |
| IoQueue.Queue.WriteGrid | openvdb/io/Queue.cc:364-368 | a one-grid `writeGridVec`, with all its promises: the id is drawn even on failure; success iff a slot was free, returning the drawn id; failure is the time-limit error carrying the timeout; the idle state and id freshness are preserved |
| IoQueue.Queue.Status | openvdb/io/Queue.cc:310-329 | answers and updates the table as `Read` does: UNKNOWN iff untracked, terminal answers evicted |
| IoQueue.Queue.AddNotifier | openvdb/io/Queue.cc:332-339 | registers under the next notifier id and advances the counter; with fresh ids the new entry comes last |
| IoQueue.Queue.RemoveNotifier | openvdb/io/Queue.cc:342-350 | removes exactly the id's registration; an unknown id changes nothing |
| IoQueue.Queue.ClearNotifiers | openvdb/io/Queue.cc:353-358 | leaves no registration |
| BlockedRanges.DefaultRangeIsEmpty | openvdb/Types.h:306 | the default range is empty, indivisible and of size 0 |
| BlockedRanges.SizeIsDifference | openvdb/Types.h:313 | `size()` is `end - begin` for an ordered range and wraps modulo 2^64 for a reversed one |
| BlockedRanges.EmptyIffNoIndex | openvdb/Types.h:316 | `empty()` holds iff the range holds no index of [begin, end) |
| BlockedRanges.SizeCountsIndices | openvdb/Types.h:313 | for an ordered range, `size()` is the number of indices |
| BlockedRanges.DivisibleOrderedRangeIsNotEmpty | openvdb/Types.h:313-317 | an ordered divisible range is not empty; a reversed range is empty but has a positive wrapped size |
| BlockedRanges.DefaultGrainDivisibleIff | openvdb/Types.h:307-317 | with the default grain size 1, an ordered range is divisible iff it holds at least two indices |
| BlockedRanges.Empty2DIffNoCell | openvdb/Types.h:345 | a 2-D range is empty iff it holds no (row, col) cell |
| BlockedRanges.Divisible2DIff | openvdb/Types.h:333-346 | a default-grain 2-D range is divisible iff a side holds at least two indices |
| BlockedRanges.Empty3DIffNoCell | openvdb/Types.h:381 | a 3-D range is empty iff it holds no (page, row, col) cell |
| BlockedRanges.Divisible3DIff | openvdb/Types.h:365-382 | a default-grain 3-D range is divisible iff a side holds at least two indices |
| ShortestFittingInt.NBytes | openvdb/Types.h:239-245 | `NBytes` lies in 1..8 and is the fewest whole bytes holding NBits bits |
| ShortestFittingInt.FittingType | openvdb/Types.h:246-256 | the chosen type holds NBytes bytes and no narrower candidate does |
| ShortestFittingInt.CompilesIff | openvdb/Types.h:239-245 | the static assertions accept exactly NBits in 1..64 |
| ShortestFittingInt.FittingTypeMonotone | openvdb/Types.h:246-256 | more bits never yield a narrower type |
| Combine.SwapArgs | openvdb/Types.h:907-908 | the swapped bundle follows the default activity rule |
| Combine.SwappedSeesExchangedInputs | openvdb/Types.h:905-910 | the adapted functor sees A := b and B := a with the flags exchanged, writes the same result, and changes nothing else |
| Combine.SwapTwiceIsIdentity | openvdb/Types.h:898-910 | swapping twice gives back the functor on every bundle in default activity state |
| Combine.AsWrittenIgnoresOpActivity | openvdb/Types.h:905-910 | as written, the caller keeps its old result activity whenever the functor set another one |
| Combine.AsWrittenCounterexample | openvdb/Types.h:905-910 | a concrete functor and bundle on which the as-written adapter leaves the result active where it should be inactive, and swapping twice does not give the functor back |
| Combine.CombineArgs.Default | openvdb/Types.h:816-824 | no inputs, result stored inside, all flags off |
| Combine.CombineArgs.WithResult | openvdb/Types.h:826-836 | inputs and external result as given, result active iff an input is |
| Combine.CombineArgs.WithOwnResult | openvdb/Types.h:838-847 | inputs as given, result stored inside, result active iff an input is |
| Combine.CombineArgs.SetResult | openvdb/Types.h:860 | writes through the result pointer |
| Combine.CombineArgs.SetARef | openvdb/Types.h:863 | redirects A |
| Combine.CombineArgs.SetBRef | openvdb/Types.h:865 | redirects B |
| Combine.CombineArgs.SetResultRef | openvdb/Types.h:867 | redirects the result |
| Combine.CombineArgs.UpdateResultActive | openvdb/Types.h:886 | result active iff A or B is |
| Combine.CombineArgs.SetAIsActive | openvdb/Types.h:877 | sets A's flag, keeps B's, and restores result active iff A or B |
| Combine.CombineArgs.SetBIsActive | openvdb/Types.h:879 | sets B's flag, keeps A's, and restores result active iff A or B |
| Combine.CombineArgs.SetResultIsActive | openvdb/Types.h:881 | sets the result flag and leaves the A/B flags (and every value) unchanged |
| Combine.RunOp | openvdb/Types.h:909 | a functor call: the result location and flag end as the functor decided from what it saw |
| Combine.SwappedCombineOp.constructor | openvdb/Types.h:903 | keeps the functor |
| Combine.SwappedCombineOp.Apply | openvdb/Types.h:905-910 | corrected `operator()`: result value and flag as the functor computes them on the swapped bundle; the caller's A/B flags unchanged; with no aliasing, the caller's bundle equals `ApplyOp(SwapOp(op), old bundle)` |
| Combine.SwappedCombineOp.ApplyAsWritten | openvdb/Types.h:905-910 | `operator()` as written: the result value as the swapped functor computes it, the caller's result flag unchanged |
| SortPoints.MapOffsets | openvdb_houdini/houdini/SOP_OpenVDB_Sort_Points.cc:112-114 | one offset per point of the bucket, in the bucket's order, each `pointOffset` of the index |
| SortPoints.Flatten | openvdb_houdini/houdini/SOP_OpenVDB_Sort_Points.cc:111-115 | the concatenated offsets have one slot per point of all buckets |
| SortPoints.SumSplit | openvdb_houdini/houdini/SOP_OpenVDB_Sort_Points.cc:106-115 | the prefix sum up to j splits at i into the part before the range and the range's own size |
| SortPoints.FlattenAt | openvdb_houdini/houdini/SOP_OpenVDB_Sort_Points.cc:111-115 | point j of bucket n sits after all earlier buckets' points, j places into its own bucket |
| SortPoints.Scatter | openvdb_houdini/houdini/SOP_OpenVDB_Sort_Points.cc:104-116 | the array after a call keeps its length |
| SortPoints.SetOffsets | openvdb_houdini/houdini/SOP_OpenVDB_Sort_Points.cc:104-116 | the array ends as `Scatter` of its old contents: the range's window holds its buckets' offsets and every other slot is unchanged |
| SortPoints.StartIndex | openvdb_houdini/houdini/SOP_OpenVDB_Sort_Points.cc:106-109 | the first write index is the sum of the sizes of the buckets before the range |
| SortPoints.WriteBuckets | openvdb_houdini/houdini/SOP_OpenVDB_Sort_Points.cc:111-115 | from the range's first slot on, the range's buckets' offsets are laid down bucket after bucket, the index ends after the last of them, and slots before and after are unchanged |
| SortPoints.WriteBucket | openvdb_houdini/houdini/SOP_OpenVDB_Sort_Points.cc:112-114 | one bucket's offsets land in consecutive slots from the current index, which advances by the bucket's size; nothing else changes |
| SortPoints.SortedOffsets | openvdb_houdini/houdini/SOP_OpenVDB_Sort_Points.cc:228-232 | a fresh array of one slot per point, filled over all buckets, equals the flattened offsets |
| SortPoints.ScatterPlacesEachPoint | openvdb_houdini/houdini/SOP_OpenVDB_Sort_Points.cc:111-115 | in bucket order and then index order, point j of bucket n is written, as its offset, to slot (sizes of buckets before n) + j, inside the window |
| SortPoints.ScatterKeepsOutside | openvdb_houdini/houdini/SOP_OpenVDB_Sort_Points.cc:113 | slots outside the range's window are unchanged |
| SortPoints.WindowOfRange | openvdb_houdini/houdini/SOP_OpenVDB_Sort_Points.cc:106-115 | the window starts at the sizes of the earlier buckets and has exactly as many slots as the range's buckets hold points, contiguously |
| SortPoints.ScatterFullRange | openvdb_houdini/houdini/SOP_OpenVDB_Sort_Points.cc:229-232 | on the full range an array of the right size ends up equal to the flattened offsets |
| SortPoints.DisjointRangesDisjointWindows | openvdb_houdini/houdini/SOP_OpenVDB_Sort_Points.cc:104-116 | non-overlapping bucket ranges write non-overlapping, ordered windows |
| SortPoints.ScatterLowerThenUpper | openvdb_houdini/houdini/SOP_OpenVDB_Sort_Points.cc:104-116 | running [begin, mid) then [mid, end) leaves the same array as running [begin, end) |
| SortPoints.ScatterUpperThenLower | openvdb_houdini/houdini/SOP_OpenVDB_Sort_Points.cc:104-116 | running [mid, end) then [begin, mid) leaves the same array as running [begin, end) |

## Left out

- TBB build paths of the queue (`tbb::task` inheritance, `tbb::task::enqueue`, task allocation and destruction, `concurrent_hash_map` accessors): the model follows the build without TBB, where the task runs inline.
- Wall-clock polling and sleeping in `enqueue`: nothing can free a slot while the submitting thread polls, so the loop can only end in the time-limit error. It is modelled as an immediate refusal, `Err(TimeLimitExpired(timeout))`, without clock arithmetic.
- The destructor's drain loop: it waits for other threads. Between public calls the active count is 0 (`Queue.Idle`), so it would return at once.
- Mutexes, and the deadlock when a notifier calls back into the queue: notifiers are entries in the ghost event log and cannot re-enter.
- Notifiers are assumed to return normally. In the source a notifier that throws (any client callback may, and an empty `std::function` registered with `addNotifier` throws `std::bad_function_call`) at openvdb/io/Queue.cc:199 skips the remaining notifiers, leaves the terminal entry in the table (205-216), skips both `--mNumTasks` (217) and `++mNumTasks` (248), escapes `execute`, whose `try` covers only the write (111-119), and escapes `writeGridVec` (385-393): the caller gets an exception although the task ran and its id was used up. The model has no such path.
- The definitions the lemmas and method contracts above are about, and which have no row of their own: `StatusTable.Read` (`status`, openvdb/io/Queue.cc:317-328), `StatusTable.Complete` (the table part of openvdb/io/Queue.cc:177-219), `IoQueue.Broadcast` and `IoQueue.CompletionEvents` (the notifier loop and eviction, openvdb/io/Queue.cc:194-216), `BlockedRanges.BlockedRange.Size`, `Empty` and `IsDivisible` (openvdb/Types.h:313-317), the 2-D and 3-D `Empty`/`IsDivisible` (openvdb/Types.h:345-346, 381-382), `BlockedRanges.DefaultRange`, `MakeRange`, `MakeRange2D`, `MakeRange3D` (the constructors, openvdb/Types.h:306-308, 333-337, 365-371), and `Combine.ApplyOp`, `Combine.SwapOp`, `Combine.SwappedAsWritten` (a functor call, the corrected adapter and the adapter as written, openvdb/Types.h:905-910). Each is stated by the lemmas named in its rows above (`ReadOnce`, `NotifiedCompletionIsEvicted`, `BroadcastReachesEachOnce`, `SizeIsDifference`, `EmptyIffNoIndex`, `Empty2DIffNoCell`, `SwapTwiceIsIdentity`, `AsWrittenIgnoresOpActivity` and the others).
- `Archive::write`, the grids, the metadata and `OPENVDB_LOG_ERROR`: the write is an input saying how it ended (`WriteResult`), and the error message is not logged.
- The queue's `DEFAULT_TIMEOUT` (120) is declared in Queue.h, which is not part of this model; the value is the queue's documented default. `DEFAULT_CAPACITY`, which `Impl` starts with (openvdb/io/Queue.cc:151) and which Queue.h gives the `Queue` constructor as its default argument, is not modelled: the model's constructor always takes its capacity explicitly, and that value overwrites the `Impl` default (openvdb/io/Queue.cc:270).
- `Queue.Capacity`, `Queue.Timeout`, `Queue.Empty` and `Queue.CanEnqueue` are plain getters of `capacity()`, `timeout()`, `empty()` and `canEnqueue()`; their behaviour is stated by the members that use them (`EmptyHasNoSize`, `Enqueue`, `WriteGridVec`).
- `Combinable` / `EnumerableThreadSpecific`, the type traits, shared-pointer casts and `typeNameAsString` of Types.h: thread-local storage and compile-time metaprogramming.
- `openvdb/Platform.h` and `openvdb/util/CpuTimer.h`: preprocessor macros and clock reads. Only the non-TBB meaning of `OPENVDB_FOR_EACH` (a direct call on the whole range) is used, in `SortPoints.SortedOffsets`.
- `CopyElements`, the partitioner's construction and the rest of the sort node: Houdini API calls. The partitioner is its list of buckets, `pointOffset` is a function parameter, and the array has one slot per point in the buckets.
- `BlockedRange` is modelled for `size_t` only; the other instantiations are not used by the modelled code.
- `CombineArgs`'s getters `a()`, `b()`, `result()`, `aIsActive()`, `bIsActive()`, `resultIsActive()` are the fields themselves (`A`, `B`, `Result`, `aOn`, `bOn`, `resultOn`).
- A combiner functor is modelled as a function from what it sees to the result value and result flag it sets (`CombineOp`). A functor that leaves the flag alone is one that returns the flag it saw. Functors that redirect the bundle's pointers are not modelled.
- `SortPoints.SetOffsets` requires the range to be ordered and inside the bucket list, and the array to cover its buckets. On a reversed range the source's `n != N` loop on a `size_t` runs past the last bucket, calling `indices(n)` on buckets that do not exist, until `n` wraps around to `N`, and the caller always passes `[0, partitioner.size())` with an array of one slot per point. `size_t` overflow of `idx` cannot happen under those conditions.
- `IoQueue.Queue.WriteGridVec` and `IoQueue.Queue.AddNotifier`: id freshness (`FreshIds`) is promised only while the counter stays below 2^32 - 1. After the wrap, ids repeat (`FixedWidth.IssuedIdsRepeat`).

Behaviour of the code a reader may not expect:

- A refused submission still consumes its task id: `mNextId++` runs before `enqueue`, and the exception is only rethrown (openvdb/io/Queue.cc:374, 385-393).
- In this build PENDING is never observable between calls. It is written just before the task runs inline, and the completion overwrites it before `enqueue` returns (openvdb/io/Queue.cc:242-248).
- The constructor stores the capacity unclamped, so a queue built with capacity 0 refuses every submission until `setCapacity` is called (openvdb/io/Queue.cc:268-271).

## Findings

| source | as written | input that shows it | evidently intended | confidence | as-written member | corrected member |
|---|---|---|---|---|---|---|
| openvdb/Types.h:905-910 | `SwappedCombineOp::operator()` runs the functor on a temporary swapped `CombineArgs` and copies nothing back, so a result active state the functor sets with `setResultIsActive` is lost and the caller keeps its old flag | functor `(a, false)` (keep A, mark the result inactive) on a = 1 active, b = 2 inactive: the swapped functor marks the result inactive, but the caller's result stays active | the caller's result flag is set to the swapped bundle's final flag, as the adapter's purpose (the functor with A and B exchanged) requires | medium, not executed | Combine.SwappedCombineOp.ApplyAsWritten, Combine.AsWrittenCounterexample | Combine.SwappedCombineOp.Apply, Combine.SwapTwiceIsIdentity |
