# AsyncPCCollection — a verified model of the TaskManager hand-off queue

`AsyncPCCollection<T>` is a FIFO queue that connects producers and consumers.
It holds a `Queue<T>` buffer, a consumed counter, a produced counter and a
one-way `finished` flag. Every public operation runs its whole body inside one
critical section guarded by a `SemaphoreSlim(1, 1)`. No operation blocks waiting
for items. An empty buffer is reported by returning `null`, never by throwing.

The model has five modules:

- `QueueExtensions` (`queue_extensions.dfy`): `IsEmpty` and `IsNotEmpty` as
  predicates over the buffer, modelled as a sequence whose length is the queue's
  `Count`.
- `ProducerConsumer` (`producer_consumer.dfy`): the guarded state as a value
  (`Queue<T>`), with one function per critical section: `Create`, `Produce`,
  `ProduceBatch` (the `foreach`, one `Produce` per item), `Get`, `Drain` (the
  `for` loop of `GetAll`), `GetAll`, `Finish` and `IsFinishedAndEmpty`.
  `Step` and `Run` apply any sequence of these operations in the order the
  semaphore serialises them. The lemmas state what such a run does: FIFO
  order, the counters, the `finished` flag and the terminal state.
- `Threading` (`async_pc_collection.dfy`): the class `AsyncPCCollection<T>`.
  Its fields are `items: seq<T>`, `consumed: nat`, `produced: nat` and
  `finished: bool`. Each public operation is one atomic method. Each method
  states its new state field by field. It also ties that state (`Snapshot()`)
  to the matching `ProducerConsumer` step, so the lemmas about runs apply to
  any sequence of calls on an object. `GetAll` keeps the source's array and
  indexed loop. `ProduceBatch` keeps its loop.
- `AsyncPCCollectionTests` (`async_pc_collection_tests.dfy`): the unit tests
  of the collection, each stated as a method whose postcondition is the test's
  assertions, proved for every choice of items.
- `Wrappers` (`wrappers.dfy`): `Option`, standing for the nullable results of
  `GetAsync` and `GetAllAsync`.

Behaviour kept exactly as the code has it:

- The seeding constructor marks the queue finished only when the seed is
  non-empty. It does not count seeded items as produced. The counter invariant
  is therefore `|items| + consumed == seedLen + produced`, with `seedLen` a
  ghost constant fixed by the constructor. For a seeded queue,
  `_totalProduced - _totalConsumed` is not the buffer length.
- Production after `Finish` is accepted and buffered. Nothing checks the flag.
- `Get` and `GetAll` keep draining the buffer after `Finish` (drain-then-stop).
- `GetAll` on an empty buffer returns `None`, never an empty sequence.

C# method names drop the `Async` suffix. The two `ProduceAsync` overloads become
`Produce` and `ProduceBatch`. The two constructors become the anonymous
constructor and `FromItems`.

## Model

| member | source | states |
|---|---|---|
| `QueueExtensions.IsEmpty` | TaskManager/Common/QueueExtensions.cs:5-6 | true exactly when the queue holds no item |
| `QueueExtensions.IsNotEmpty` | TaskManager/Common/QueueExtensions.cs:8-9 | exactly the negation of `IsEmpty`, i.e. true iff `Count > 0`, the guard that makes `Dequeue` safe |
| `ProducerConsumer.ProduceBatchAppends` | TaskManager/Threading/AsyncPCCollection.cs:138-142 | the `foreach` of one enqueue per item appends the whole batch in its order and raises the produced counter by the batch length |
| `ProducerConsumer.DrainTakesPrefix` | TaskManager/Threading/AsyncPCCollection.cs:63-67 | `n` counted dequeues return the first `n` items in order, leave the rest and raise the consumed counter by `n` |
| `ProducerConsumer.GetAllTakesEverything` | TaskManager/Threading/AsyncPCCollection.cs:54-78 | on a non-empty buffer `GetAll` returns exactly the buffer in order, empties it and counts every item; on an empty buffer it returns `None` and changes nothing |
| `ProducerConsumer.GetAllTwiceYieldsNone` | TaskManager/Threading/AsyncPCCollection.cs:59-72 | a second `GetAll` right after a first returns `None` and changes nothing |
| `ProducerConsumer.DrainIsRepeatedGet` | TaskManager/Threading/AsyncPCCollection.cs:34-78 | one step of the drain loop is one `Get`: the first item drained is `Get`'s result and the rest is the drain of `Get`'s new state |
| `ProducerConsumer.DrainIsGets` | TaskManager/Threading/AsyncPCCollection.cs:34-78 | `n` counted dequeues of the drain loop give the same state and the same items as a run of `n` successive `Get` calls |
| `ProducerConsumer.GetAllIsGets` | TaskManager/Threading/AsyncPCCollection.cs:54-78 | on a non-empty buffer, `GetAll` leaves the state and hands out the items that `|items|` successive `Get` calls would |
| `ProducerConsumer.FinishIsIdempotent` | TaskManager/Threading/AsyncPCCollection.cs:150-164 | `Finish` only sets the flag, and finishing twice gives the same state as finishing once |
| `ProducerConsumer.ProduceAfterFinishIsAccepted` | TaskManager/Threading/AsyncPCCollection.cs:119-131 | an item produced after `Finish` is still appended, and the queue is then not terminal |
| `ProducerConsumer.GetAfterFinishDrains` | TaskManager/Threading/AsyncPCCollection.cs:34-52 | after `Finish`, `Get` still returns the head of a non-empty buffer and removes it |
| `ProducerConsumer.CreateEstablishes` | TaskManager/Threading/AsyncPCCollection.cs:19-27 | the seeded state buffers the seed, satisfies the counter invariant for the seed length, is finished iff the seed is non-empty and is never terminal |
| `ProducerConsumer.SeededQueueIsNotProducedMinusConsumed` | TaskManager/Threading/AsyncPCCollection.cs:19-27 | a queue seeded with one item has produced and consumed both 0 but one buffered item, so `produced - consumed` is not the buffer length |
| `ProducerConsumer.StepAccounts` | TaskManager/Threading/AsyncPCCollection.cs:34-164 | each state-changing operation keeps FIFO order (items handed out followed by the buffer equal the old buffer followed by the items supplied), moves each counter by exactly the items handed out or supplied, and sets `finished` only for `Finish` |
| `ProducerConsumer.RunIsFifo` | TaskManager/Threading/AsyncPCCollection.cs:34-148 | over any sequence of operations, everything consumers receive, followed by what is still buffered, equals the starting buffer followed by every produced item in production order; the counters move by the counts received and supplied |
| `ProducerConsumer.RunKeepsCountersAgreeing` | TaskManager/Threading/AsyncPCCollection.cs:19-148 | `|items| + consumed == seedLen + produced` holds after any sequence of operations if it held before |
| `ProducerConsumer.RunFinished` | TaskManager/Threading/AsyncPCCollection.cs:150-164 | after any sequence of operations the queue is finished iff it was finished before or one of them was `Finish`, so the flag never goes back to false |
| `ProducerConsumer.TerminalIsStable` | TaskManager/Threading/AsyncPCCollection.cs:166-177 | once finished and empty, any sequence of operations that produces nothing hands out nothing and leaves the queue finished and empty |
| `Threading.AsyncPCCollection.constructor` | TaskManager/Threading/AsyncPCCollection.cs:14-17 | a fresh collection is empty and open with both counters at zero |
| `Threading.AsyncPCCollection.FromItems` | TaskManager/Threading/AsyncPCCollection.cs:19-27 | the buffer is the seed in order, both counters are zero, and the collection is finished iff the seed is non-empty |
| `Threading.AsyncPCCollection.Get` | TaskManager/Threading/AsyncPCCollection.cs:34-52 | on a non-empty buffer returns the old head, leaves the old tail and adds one to consumed; on an empty buffer returns `None` and changes nothing; produced and finished are unchanged; the counter invariant is kept |
| `Threading.AsyncPCCollection.GetAll` | TaskManager/Threading/AsyncPCCollection.cs:54-78 | on a non-empty buffer returns exactly the old buffer in order, leaves it empty and adds its length to consumed; on an empty buffer returns `None` and changes nothing; the counter invariant is kept |
| `Threading.AsyncPCCollection.IsEmpty` | TaskManager/Threading/AsyncPCCollection.cs:80-91 | true iff the buffer is empty, i.e. iff a `Get` now would return `None`; changes nothing |
| `Threading.AsyncPCCollection.IsFinished` | TaskManager/Threading/AsyncPCCollection.cs:93-104 | returns the flag, and when it is set a further `Finish` would change nothing; changes nothing |
| `Threading.AsyncPCCollection.GetConsumedCount` | TaskManager/Threading/AsyncPCCollection.cs:106-117 | returns the consumed counter; changes nothing |
| `Threading.AsyncPCCollection.Produce` | TaskManager/Threading/AsyncPCCollection.cs:119-131 | appends the item at the tail and adds one to produced, with consumed, finished and the existing items unchanged, whether or not finished is set |
| `Threading.AsyncPCCollection.ProduceBatch` | TaskManager/Threading/AsyncPCCollection.cs:133-148 | the buffer becomes the old buffer followed by the batch in order, and produced grows by the batch length; consumed and finished are unchanged |
| `Threading.AsyncPCCollection.Finish` | TaskManager/Threading/AsyncPCCollection.cs:150-164 | sets finished and leaves the buffer and both counters unchanged |
| `Threading.AsyncPCCollection.IsFinishedAndEmpty` | TaskManager/Threading/AsyncPCCollection.cs:166-177 | true iff finished and the buffer is empty, read in one step; changes nothing |
| `Threading.AsyncPCCollection.GetProducedCount` | TaskManager/Threading/AsyncPCCollection.cs:179-190 | returns the produced counter, which on a valid collection never exceeds consumed plus buffered; changes nothing |
| `AsyncPCCollectionTests.ProduceAddsNewItem` | TaskManager.UnitTests/AsyncPCCollectionTests.cs:8-19 | one produce on a fresh collection gives a produced count of 1 |
| `AsyncPCCollectionTests.GetReturnsItem` | TaskManager.UnitTests/AsyncPCCollectionTests.cs:21-35 | `Get` returns the produced item and the consumed count is 1 |
| `AsyncPCCollectionTests.GetReturnsNoneWhenDrained` | TaskManager.UnitTests/AsyncPCCollectionTests.cs:37-51 | a `Get` after the only item was taken returns `None` |
| `AsyncPCCollectionTests.GetsInFifoOrder` | TaskManager.UnitTests/AsyncPCCollectionTests.cs:53-66 | two produces and two gets return the items in production order, with consumed count 2 |
| `AsyncPCCollectionTests.GetAllInFifoOrder` | TaskManager.UnitTests/AsyncPCCollectionTests.cs:68-89 | after two produces and `Finish`, `GetAll` returns both items in order, both counters are 2 and the collection is empty |
| `AsyncPCCollectionTests.GetAllReturnsNoneWhenEmpty` | TaskManager.UnitTests/AsyncPCCollectionTests.cs:91-109 | the collection is non-empty before the first `GetAll`, the second `GetAll` returns `None`, and the collection is empty |
| `AsyncPCCollectionTests.SeededCollectionIsFinished` | TaskManager.UnitTests/AsyncPCCollectionTests.cs:111-120 | a collection built from three items is finished at once |
| `AsyncPCCollectionTests.FinishFinishesCollection` | TaskManager.UnitTests/AsyncPCCollectionTests.cs:122-133 | `Finish` on a fresh collection makes `IsFinished` true |
| `AsyncPCCollectionTests.GetAfterFinishReturnsItem` | TaskManager.UnitTests/AsyncPCCollectionTests.cs:135-150 | `Get` after `Finish` still returns the buffered item, with consumed count 1 |
| `AsyncPCCollectionTests.ProduceBatchProducesAll` | TaskManager.UnitTests/AsyncPCCollectionTests.cs:152-165 | the batch overload leaves the collection non-empty with produced count 2 |
| `AsyncPCCollectionTests.FinishedAndEmptyAfterDrain` | TaskManager.UnitTests/AsyncPCCollectionTests.cs:167-181 | batch produce, `Finish` and `GetAll` make the collection terminal, with both counters at 2 |
| `AsyncPCCollectionTests.EmptyButOpenIsNotTerminal` | TaskManager.UnitTests/AsyncPCCollectionTests.cs:183-197 | batch produce and `GetAll` without `Finish` leave the collection non-terminal, with both counters at 2 |

## Left out

- The `SemaphoreSlim`, `async`/`await` and the blocking `GetAwaiter().GetResult()` call in the seeding constructor. Each critical section is synchronous and free of I/O, so each public operation is one atomic method. Mutual exclusion, waiting and fairness between callers are not modelled.
- The `CancellationToken` of both produce overloads. A cancelled wait throws before the buffer is touched, so the queue's state is the one before the call. The `finally` block (AsyncPCCollection.cs:129, 146) then calls `Release()` on a semaphore this call never acquired. If another caller holds the semaphore, the release raises its count to 1 while that caller is still inside, so a third caller can enter and the operations are no longer atomic. If the semaphore is free (the token was cancelled before the call), `Release()` on a `SemaphoreSlim(1, 1)` throws `SemaphoreFullException`, which replaces the cancellation exception. Neither consequence is modelled. `ProducerConsumer.Step`, `ProducerConsumer.Run` and the `Run*` lemmas describe the object only for histories with no cancelled produce.
- The finalizer that disposes the semaphore. It is resource cleanup with no effect on the queue's contents.
- Threading.AsyncPCCollection.GetConsumedCount: the counter is an unbounded `nat`; the C# `uint` wraps to 0 after 2^32 - 1 increments, which is not modelled.
- Threading.AsyncPCCollection.GetProducedCount: the counter is an unbounded `nat`; the C# `uint` wraps to 0 after 2^32 - 1 increments, which is not modelled.
- Threading.AsyncPCCollection.ProduceBatch: the batch is a finite, fully materialised sequence. The C# overload enumerates its `IEnumerable<T>` lazily inside the critical section. If the enumerator throws after `k` items, those `k` items stay enqueued and counted and the exception propagates; a `null` batch throws after the semaphore is taken. Such a partial append is not modelled, so the model's batch is always appended whole.
- Threading.AsyncPCCollection.Get: items are assumed non-null. `where T : class` does not stop a `null` item at run time. `GetAsync` would then return `null` for a real item and still count it as consumed, and the caller cannot tell that result from the `null` of an empty buffer. The model's `Some`/`None` keeps the two cases apart.
- The interfaces `IAsyncConsumer<T>` and `IAsyncProducer<T>`. They are bare signatures with no behaviour. The class carries both sets of members directly.
- Read-only queries do not appear in `ProducerConsumer.Op` traces. Their methods change no state.
