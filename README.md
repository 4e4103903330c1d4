# Ring buffer queues and their lock-free wrapper, in Dafny

The repository implements a fixed-capacity FIFO queue on an array three
times, and wraps one of them for concurrent use:

- `RingBuffer<T>` (`RingBuffer/RingBuffer.cs`) is the plain ring buffer.
- `CircleQueue.Queue<T>` (`ConsoleApp1/Queue.cs`) is the same buffer with a `lock` inside `Enq`.
- `RingBuffer.Queue<T>` (`RingBuffer/Queue.cs`) gates every operation with an
  `Interlocked.Exchange` try-flag. The flag is a static field of the generic class, so all queues of the same element type share it.
- `ConcurrentQueue<T>` (`RingBuffer/ConcurrentQueue.cs`) owns a private copy of a
  `Queue<T>` and serialises access with its own flag. Acquiring it uses a
  bounded spin in `TryEnq`, `TryDeq` and `TryDeqAll`. It also offers a lazy drain, `TryDeqAllLazy`.

The model is organised as follows:

- `Fifo` is the abstract queue: a capacity and the stored items, oldest first.
  Enqueue is refused on a full queue, dequeue on an empty one, and a drain takes everything.
- `Ring` is the array layout the three buffers share:
  - `size` items are stored from `head`, wrapping past the end of the array;
  - `tail == (head + size) % capacity`;
  - every slot outside the window holds `default(T)`.

  Its lemmas prove that one enqueue step and one dequeue step keep this
  layout, and that they append to and pop the front of the window.
- `RingBuffer`, `CircleQueue` and `RingBufferQueue` are the three classes.
  - Each keeps its array and indices as fields and changes them in place.
  - Each method's postcondition ties its result and new state to `Fifo.Enq` or `Fifo.Deq` of the old abstract state.
  - This is how all three refine the one abstract queue.
  - The postconditions also state the concrete index and slot updates the source performs.
- `Interlocked.Flag` is the `int` cell behind `Interlocked.Exchange`. It also keeps a ghost count of exchanges.
- `RingBufferConcurrent` is the wrapper:
  - its spin-acquire loop;
  - `TryEnq`, `TryDeq`, `TryDeqAll`;
  - the lazy drain as an explicit cursor class, and a `foreach` over it.
- `Scenarios` replays the single-threaded unit tests and the closing steps of the load test as client methods. Each test's assertions are postconditions, proved from the operations' contracts alone. It also exhibits an early exit from the lazy drain (see Findings).

The model is sequential. A flag is state that only these operations change.
An operation either finds the flag free and takes it, or finds it held for its whole retry budget.

## Model

| member | source | states |
|---|---|---|
| Fifo.Enq | RingBuffer/RingBuffer.cs:22-36 | enqueue keeps the capacity and the bound of at most `capacity` stored items |
| Fifo.Deq | RingBuffer/RingBuffer.cs:41-56 | dequeue keeps the capacity and the bound; it removes exactly one item when it returns one and none otherwise |
| Fifo.Drain | RingBuffer/ConcurrentQueue.cs:143-148 | the drained items followed by what is left are the stored items, and what is left is empty with the same capacity |
| Fifo.DeqUntilEmptyIsDrain | RingBuffer/ConcurrentQueue.cs:143-148 | dequeuing one item at a time until the queue reports empty yields exactly the stored items, oldest first, and leaves the queue empty |
| Fifo.EnqAllWithRoom | RingBufferTest/QueueTest.cs:37-49 | while there is room, every enqueue is accepted and the items are appended in order |
| Fifo.EnqAllWhenFull | RingBufferTest/QueueTest.cs:55-67 | on a full queue every further enqueue is refused and the queue is unchanged |
| Fifo.FillRejectDrain | RingBufferTest/QueueTest.cs:37-67 | filling an empty queue of capacity n with n items accepts them all, refuses every later item, and draining then returns the n items in order |
| Fifo.EnqDeqCommute | RingBuffer/RingBuffer.cs:22-56 | on a queue neither empty nor full, enqueue then dequeue equals dequeue then enqueue, and returns the same front item |
| Fifo.Step | RingBuffer/RingBuffer.cs:22-56 | one enqueue, dequeue or drain keeps a valid queue valid with the same capacity, and the items it delivers followed by those stored are the old items followed by those it accepted |
| Fifo.RunConserves | RingBuffer/RingBuffer.cs:22-56 | for any mix of enqueues, dequeues and drains, the items delivered followed by the items still stored are the initial items followed by the accepted ones; the capacity bound holds throughout |
| Fifo.RunKeepsOnly | RingBufferTest/QueueTest.cs:103-115 | a queue that is only ever offered one value `x` only ever holds `x` |
| Fifo.RefillDelivers | RingBufferTest/QueueTest.cs:120-123 | on a queue with room holding only `x`, offering `x` and then dequeuing delivers exactly `x` |
| Fifo.ThreeTakesMakeRoom | RingBufferTest/QueueTest.cs:103-119 | after any mix of offers of `x` and single dequeues, three more dequeues leave the queue below capacity and holding only `x` |
| Fifo.RandomRunThenRefill | RingBufferTest/QueueTest.cs:96-124 | for every sequence of offers of `x` and single dequeues on a queue of positive capacity, three dequeues, an offer of `x` and a dequeue deliver `x` last; offering `x` and dequeuing from the state after the three dequeues delivers exactly `[x]` |
| Fifo.FinalDrainDeliversAll | RingBuffer/ConcurrentQueue.cs:121-151 | from an empty queue, any run followed by one final drain delivers exactly the accepted items, in order |
| Ring.Window | RingBuffer/RingBuffer.cs:8-12 | the stored-items view of the array has exactly `size` items |
| Ring.WindowAt | RingBuffer/RingBuffer.cs:50-52 | the k-th stored item is in slot `(head + k) % capacity` |
| Ring.OccupiedSlots | RingBuffer/RingBuffer.cs:10-12 | a slot is inside the window exactly when it is `(head + k) % capacity` for some `k < size` (both directions) |
| Ring.FreshLayout | RingBuffer/RingBuffer.cs:14-18 | a freshly allocated all-default array is an empty ring with head and tail at 0 |
| Ring.EnqStep | RingBuffer/RingBuffer.cs:31-33 | writing at `tail` and advancing it modulo the capacity keeps the layout invariant and appends the item to the window |
| Ring.DeqStep | RingBuffer/RingBuffer.cs:50-53 | the slot at `head` holds the oldest item; clearing it and advancing `head` modulo the capacity keeps the layout and drops exactly that item |
| Ring.DeqKeepsLayout | RingBuffer/RingBuffer.cs:50-53 | clearing the slot at `head` and advancing `head` modulo the capacity keeps the layout invariant with one item fewer |
| Ring.DeqDropsOldest | RingBuffer/RingBuffer.cs:50-53 | the slot at `head` holds the oldest item, and whatever is then written there, the window from the next slot is the old window without its first item |
| Ring.EmptyLayout | RingBuffer/RingBuffer.cs:51 | when no item is stored, every slot holds the default value |
| RingBuffer.RingBuffer.constructor | RingBuffer/RingBuffer.cs:14-18 | a new buffer is the empty abstract queue of the given capacity; all slots are default and all indices 0 |
| RingBuffer.RingBuffer.Enq | RingBuffer/RingBuffer.cs:22-36 | the result and new contents are the abstract enqueue; refused exactly when full; on success, the item is written at the old `tail`, `tail` advances modulo the capacity and `size` grows by one; on refusal nothing changes |
| RingBuffer.RingBuffer.Deq | RingBuffer/RingBuffer.cs:41-56 | the result and new contents are the abstract dequeue; on an empty buffer it fails with the default item and changes nothing; otherwise it returns the old `array[head]`, clears that slot, advances `head` modulo the capacity and shrinks `size` by one |
| RingBuffer.RingBuffer.GetQueueCopy | RingBuffer/RingBuffer.cs:62-66 | a fresh array equal to the buffer's array, default slots included |
| RingBuffer.Create | RingBuffer/RingBuffer.cs:14-18 | construction fails with `OverflowException` exactly when the capacity is negative and succeeds exactly when it is not; capacity 0 gives a valid empty buffer |
| CircleQueue.Queue.constructor | ConsoleApp1/Queue.cs:14-18 | a new queue is the empty abstract queue; all slots are default and `first`, `last`, `count` are 0 |
| CircleQueue.Queue.Enq | ConsoleApp1/Queue.cs:22-39 | the abstract enqueue; refused exactly when `count == capacity`; otherwise it writes at the old `last`, advances `last` modulo the capacity and increments `count` |
| CircleQueue.Queue.Deq | ConsoleApp1/Queue.cs:44-58 | the abstract dequeue; on empty it fails with the default item; otherwise it returns `array[first]`, clears it, advances `first` modulo the capacity and decrements `count` |
| CircleQueue.Queue.GetQueueCopy | ConsoleApp1/Queue.cs:64-68 | a fresh array equal to the queue's array |
| CircleQueue.Create | ConsoleApp1/Queue.cs:14-18 | construction fails with `OverflowException` exactly when the capacity is negative and succeeds exactly when it is not, giving the empty queue of that capacity |
| RingBufferQueue.Queue.constructor | RingBuffer/Queue.cs:21-25 | a new queue of positive capacity is the empty abstract queue; all slots are default; it shares the given flag |
| RingBufferQueue.Queue.Copy | RingBuffer/ConcurrentQueue.cs:20 | the copy has its own fresh array with the same slots, the same indices, the same flag, and so the same abstract contents |
| RingBufferQueue.Queue.Enq | RingBuffer/Queue.cs:29-49 | with the flag free it is the abstract enqueue and leaves the flag at 0; with the flag held it is refused, changes nothing and leaves 1 in the flag; on success it performs the same slot and index updates as the plain buffer |
| RingBufferQueue.Queue.Deq | RingBuffer/Queue.cs:54-75 | with the flag free it is the abstract dequeue and leaves the flag at 0, failing with the default item and changing nothing when the queue is empty; with the flag held it fails with the default item, leaves the contents unchanged and leaves 1 in the flag; on success it returns the front item and the rest remains, in order |
| RingBufferQueue.Queue.GetQueueCopy | RingBuffer/Queue.cs:81-85 | a fresh array equal to the queue's array |
| RingBufferQueue.Queue.GetPrivateArrayCopy | RingBuffer/ConcurrentQueue.cs:159 | a fresh array equal to the queue's array |
| RingBufferQueue.Queue.GetPrivateSizeCopy | RingBuffer/ConcurrentQueue.cs:107 | the number of stored items, between 0 and the capacity |
| RingBufferQueue.Create | RingBufferTest/QueueTest.cs:13-19 | construction fails with `ArgumentException` exactly when the capacity is not positive and succeeds exactly when it is, giving the empty queue sharing the given flag |
| Interlocked.Flag.constructor | RingBuffer/Queue.cs:14 | a flag starts with the given value and no exchanges |
| Interlocked.Flag.Exchange | RingBuffer/Queue.cs:34 | stores the new value, returns the one it replaced, and counts one exchange |
| Collections.List.Add | RingBuffer/ConcurrentQueue.cs:147 | appends the item at the end of the list |
| RingBufferConcurrent.SpinAcquire | RingBuffer/ConcurrentQueue.cs:31-51 | the flag is acquired exactly when it was free; the loop always ends with the busy tag in the flag; it takes one exchange on success, and gives up after exactly `limit + 11` exchanges when the flag stays held |
| RingBufferConcurrent.ConcurrentQueue.constructor | RingBuffer/ConcurrentQueue.cs:16-21 | the wrapper owns a fresh copy of the queue with the same contents and its own free flag, so later operations on the original cannot reach it |
| RingBufferConcurrent.ConcurrentQueue.TryEnq | RingBuffer/ConcurrentQueue.cs:28-59 | with the flag free it returns the inner enqueue's result, appends the item exactly when accepted, and frees the flag; with the flag held it gives up, returns false, leaves the queue untouched and the flag set |
| RingBufferConcurrent.ConcurrentQueue.TryDeq | RingBuffer/ConcurrentQueue.cs:66-97 | with the flag free it succeeds exactly when the inner queue can dequeue, returns the front item leaving the rest, and frees the flag; when it fails the item is the default and the contents are unchanged |
| RingBufferConcurrent.ConcurrentQueue.TryDeqAll | RingBuffer/ConcurrentQueue.cs:121-151 | with the flag free it appends every stored item to the list, oldest first, leaves the queue as the abstract drain leaves it, sets every slot to the default and frees the flag; otherwise the list and queue are unchanged |
| RingBufferConcurrent.ConcurrentQueue.DrainInto | RingBuffer/ConcurrentQueue.cs:143-148 | the drain loop appends the stored items to the list in order, ends with the queue empty, and leaves every slot default |
| RingBufferConcurrent.ConcurrentQueue.TakeFront | RingBuffer/ConcurrentQueue.cs:145 | one inner dequeue on a non-empty queue with the gate free returns the front item and leaves the rest, in order |
| RingBufferConcurrent.ConcurrentQueue.TryDeqAllLazy | RingBuffer/ConcurrentQueue.cs:103-115 | returns a fresh drain over this wrapper that has not started, so the flag is untouched until the first step |
| RingBufferConcurrent.ConcurrentQueue.GetPrivateArrayCopy | RingBuffer/ConcurrentQueue.cs:157-160 | a fresh copy of the inner queue's array; nothing changes |
| RingBufferConcurrent.ConcurrentQueue.GetPrivateSizeCopy | RingBuffer/ConcurrentQueue.cs:166-169 | the inner queue's item count, between 0 and its capacity |
| RingBufferConcurrent.LazyDrain.constructor | RingBuffer/ConcurrentQueue.cs:103 | a drain starts before its first step |
| RingBufferConcurrent.LazyDrain.TakeNext | RingBuffer/ConcurrentQueue.cs:107-114 | once the flag is held: on a non-empty queue it yields the front item, leaves the rest and does not touch the flag; on an empty queue it frees the flag and finishes |
| RingBufferConcurrent.LazyDrain.MoveNext | RingBuffer/ConcurrentQueue.cs:105-114 | each step on a non-empty queue yields the front item and leaves the rest; the first step that yields leaves the lazy tag in the flag and later yielding steps leave the flag as they found it, so an operation that gave up inside the loop body does not stop the drain; the step that finds the queue empty frees the flag and finishes; a finished drain changes nothing |
| RingBufferConcurrent.LazyDrain.DisposeAsWritten | RingBuffer/ConcurrentQueue.cs:103-115 | disposing the drain as compiled ends it and writes nothing else, so a drain left early keeps the flag |
| RingBufferConcurrent.LazyDrain.Dispose | RingBuffer/ConcurrentQueue.cs:103-115 | disposing with a release in a `finally`: a drain that holds the flag frees it, any other leaves the flag as it is; the drain ends |
| RingBufferConcurrent.EnumerateLazyDrain | RingBuffer/ConcurrentQueue.cs:103-115 | enumerating the lazy drain to the end and disposing it as compiled yields exactly the abstract drain's items, oldest first, leaves the queue empty and frees the flag |
| RingBufferConcurrent.Create | RingBuffer/ConcurrentQueue.cs:16-21 | construction fails with `NullReferenceException` exactly when the queue is null and succeeds exactly when it is not; then the wrapper has the original's contents |
| Scenarios.QueueRejectsNonPositiveCapacity | RingBufferTest/QueueTest.cs:13-19 | capacities 0 and `int.MinValue` are both rejected with `ArgumentException` |
| Scenarios.QueueEnqueuesAndDequeuesInOrder | RingBufferTest/QueueTest.cs:33-49 | for any positive capacity n, enqueuing 1..n all succeed, the array snapshot is 1..n, and n dequeues all succeed and return 1..n |
| Scenarios.QueueRefusesWhenFull | RingBufferTest/QueueTest.cs:51-67 | for any positive capacity n, n enqueues succeed, n more are refused, and the snapshot holds the n items |
| Scenarios.QueueDequeuesOnlyWhatWasEnqueued | RingBufferTest/QueueTest.cs:69-86 | n dequeues on an empty queue fail; after one enqueue the next dequeue returns that item, and the one after fails with the default value |
| Scenarios.QueueWrapsAround | RingBufferTest/QueueTest.cs:129-147 | capacity 3: four enqueues (the fourth refused) and four dequeues (the fourth refused); a further enqueue then dequeue returns the item |
| Scenarios.ConcurrentQueueRejectsNull | RingBufferTest/ConcurrentQueueTest.cs:23-27 | a wrapper built from null fails with `NullReferenceException` |
| Scenarios.ConcurrentQueueIndependentOfQueue | RingBufferTest/ConcurrentQueueTest.cs:29-46 | capacity 1: a dequeue on the original queue does not take the wrapper's item; the wrapper returns "A", then fails with the default value |
| Scenarios.ConcurrentQueueWorksAtCapacityOne | RingBufferTest/ConcurrentQueueTest.cs:50-63 | capacity 1: the second enqueue is refused, the first dequeue returns "A" and the second fails with the default value |
| Scenarios.ConcurrentQueueRefusesWhenFull | RingBufferTest/ConcurrentQueueTest.cs:65-79 | capacity 3: three enqueues succeed, three more are refused, and the snapshot is `[A, B, C]` |
| Scenarios.ConcurrentQueueEmptyDequeueFails | RingBufferTest/ConcurrentQueueTest.cs:81-91 | capacity 3: four dequeues on the empty wrapper all fail |
| Scenarios.ConcurrentQueueDequeuesInOrder | RingBufferTest/ConcurrentQueueTest.cs:93-107 | A, B and the default value are accepted and C is refused; three dequeues all succeed and return them in order; the fourth fails; every slot of the snapshot is then the default value |
| Scenarios.ConcurrentQueueDrainsIntoList | RingBuffer/ConcurrentQueue.cs:121-151 | a bulk drain of a wrapper holding A, B, C hands the list exactly `[A, B, C]` |
| Scenarios.ConcurrentQueueRecoversAfterLoad | RingBufferTest/ConcurrentQueueTest.cs:206-214 | on a capacity-1 wrapper in any state with both flags free, three dequeues, an enqueue of `number` and a dequeue return `number`, and the size is between 0 and the capacity |
| Scenarios.LazyDrainSurvivesRefusedEnqueue | RingBuffer/ConcurrentQueue.cs:103-115 | a lazy drain over A, B, C that has yielded A, followed by an enqueue in the loop body that is refused because the drain holds the flag, next yields B |
| Scenarios.AbandonedLazyDrainBlocksWrapper | RingBuffer/ConcurrentQueue.cs:103-115 | a lazy drain left after yielding A and disposed as compiled keeps the flag, so a later enqueue and dequeue both fail although two items are stored |
| Scenarios.AbandonedLazyDrainDisposed | RingBuffer/ConcurrentQueue.cs:103-115 | the same early exit with the flag freed on disposal: a later enqueue of D is accepted and the next dequeue returns B |

## Left out

- Real interleavings, the memory model, the atomicity of `Interlocked.Exchange` and the `volatile` field are not modelled. The model is sequential: each flag is a heap cell that only the modelled operations write.
- Cross-instance interference through the static `_usingResource` of `RingBuffer/Queue.cs` is not modelled. In C# that field exists once per element type, so it is shared by all queues of one element type. Queues built with the same `Interlocked.Flag` object share it, and the model captures that an operation finding it held does nothing. It does not capture another thread releasing it midway.
- `Thread.Yield` calls are left out; they have no effect on a single thread.
- `RingBufferQueue.Create` and `RingBufferQueue.Queue.constructor` reject a capacity that is not positive, although the constructor in `RingBuffer/Queue.cs:21-25` has no such check.
  - The tests require `ArgumentException` for capacities 0 and `int.MinValue` (`RingBufferTest/QueueTest.cs:13-19`).
  - The constructor in that file would instead accept 0 and throw `OverflowException` for a negative capacity.
  - The model follows the tests.
- `RingBufferQueue.Queue.Copy`, `RingBufferQueue.Queue.GetPrivateArrayCopy` and `RingBufferQueue.Queue.GetPrivateSizeCopy` are called by the wrapper (`RingBuffer/ConcurrentQueue.cs:20`, `:107`, `:159`) but are not defined in `RingBuffer/Queue.cs`. They are modelled from those calls: a deep copy, an array snapshot and the item count.
- `RingBufferConcurrent.LazyDrain.MoveNext`: the generator's unbounded acquire spin (`RingBuffer/ConcurrentQueue.cs:105`) is not modelled as a loop. The first step requires the flag to be free and takes it with one exchange. A held flag would make the source spin until another thread frees it.
- `RingBufferConcurrent.ConcurrentQueue.TryDeqAll`, `RingBufferConcurrent.ConcurrentQueue.DrainInto` and `RingBufferConcurrent.LazyDrain.MoveNext` require the inner queue's shared gate to be free.
  - Sequentially it always is between operations.
  - If it were held, every inner `Deq` would fail while the size stays positive, and the source loops would keep running until another thread released it. Each pass of the `TryDeqAll` loop would still add the failed `Deq`'s `default(T)` to the caller's list (`RingBuffer/ConcurrentQueue.cs:143-148`), and each step of the lazy drain would yield `default(T)` (`RingBuffer/ConcurrentQueue.cs:107-112`).
- Generator suspension is modelled by an explicit cursor (`LazyDrain` with a phase and `current`) rather than by C# iterator machinery.
- `RingBufferConcurrent.ConcurrentQueue.TryEnq`, `RingBufferConcurrent.ConcurrentQueue.TryDeq`: their postconditions state the inner queue's new contents directly rather than through `Fifo`. The inner queue's own contracts already tie those contents to `Fifo`.
- The `TryDeqAll()` overload with no argument, called by the benchmarks, does not exist in `RingBuffer/ConcurrentQueue.cs`. It is not modelled.
- Benchmarks (`Benchmark/`, `RingBufferTest/ConcurrentReadWriteBenchmarkTest.cs`) and the thread phases of the stress tests in `RingBufferTest/ConcurrentQueueTest.cs:113-253` are not modelled.
  - Their size assertions, `0 <= size <= capacity`, are part of every class invariant here.
  - The assertion that at least one enqueue of a concurrent batch succeeded (`RingBufferTest/ConcurrentQueueTest.cs:203`) depends on thread timing and is not modelled.
  - The sequential steps after the threads finish (`RingBufferTest/ConcurrentQueueTest.cs:206-214`) are `Scenarios.ConcurrentQueueRecoversAfterLoad`, for every state the load can leave. `Fifo.RandomRunThenRefill` is the same recovery on the abstract queue.
- `RingBufferTest/QueueTest.cs:21-31` (reflection over generic types) is not modelled. The classes are generic over any type with a default value.
- Console output is left out.
- `int` is 32-bit in the source and unbounded here. Every index and count stays between 0 and the capacity, so no operation can overflow. `++_tail` and `++_head` only ever reach the capacity before `%` is applied.
- The random-operation test `RingBufferTest/QueueTest.cs:96-124` draws its choices from `Random`. It is stated on the abstract queue for every possible choice sequence (`Fifo.RandomRunThenRefill`) rather than replayed on a class.
- `Scenarios.ConcurrentQueueRecoversAfterLoad` assumes both flags are free when the threads have finished, as they are once every task has returned.
- `Scenarios.ConcurrentQueueEmptyDequeueFails` and `Scenarios.ConcurrentQueueDequeuesInOrder` split one test at a point where the queue is empty and both flags are free. Each half starts from a fresh wrapper in that same state.

## Findings

| source | as written | input that shows it | evidently intended | confidence | as-written member | corrected member |
|---|---|---|---|---|---|---|
| RingBuffer/ConcurrentQueue.cs:103-115 | the flag is freed only after the generator's loop finds the queue empty; there is no `try`/`finally`, so disposing a `foreach` that exits early leaves the lazy tag in the flag | a wrapper of capacity 3 holding A, B, C; a `foreach` over `TryDeqAllLazy()` that breaks after A; then `TryEnq("D")` and `TryDeq` | the flag is released in a `finally`, so leaving the loop early frees the wrapper | medium, not executed | Scenarios.AbandonedLazyDrainBlocksWrapper | RingBufferConcurrent.LazyDrain.Dispose |
