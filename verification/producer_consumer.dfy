/** The hand-off queue as a value: one function per atomic operation of
    `AsyncPCCollection<T>`, each the whole critical section of that operation,
    and lemmas about what any sequence of such operations does. */
module ProducerConsumer {
  import opened Wrappers
  import opened QueueExtensions

  /** The state guarded by the collection's semaphore: the buffered items
      (head first), the two counters and the one-way `finished` flag. */
  datatype Queue<T> = Queue(items: seq<T>, consumed: nat, produced: nat, finished: bool)

  /** Construction from a seed collection: the seed is buffered in order but is
      not counted as produced, and the queue is finished only when the seed is
      non-empty. */
  function Create<T>(seed: seq<T>): Queue<T>
  {
    Queue(seed, 0, 0, IsNotEmpty(seed))
  }

  /** Enqueue one item at the tail; no check of `finished`. */
  function Produce<T>(q: Queue<T>, item: T): Queue<T>
  {
    q.(items := q.items + [item], produced := q.produced + 1)
  }

  /** The `foreach` of the batch overload: one `Produce` per item, in order. */
  function ProduceBatch<T>(q: Queue<T>, batch: seq<T>): Queue<T>
    decreases |batch|
  {
    if batch == [] then q else ProduceBatch(Produce(q, batch[0]), batch[1..])
  }

  /** Dequeue the head if there is one; otherwise nothing changes and the
      result is `None` (the C# `null`). */
  function Get<T>(q: Queue<T>): (Queue<T>, Option<T>)
  {
    if IsNotEmpty(q.items) then
      (q.(items := q.items[1..], consumed := q.consumed + 1), Some(q.items[0]))
    else
      (q, None)
  }

  /** The `for` loop of `GetAll`: `n` dequeues, each counted as consumed,
      collecting the dequeued items in order. */
  function Drain<T>(q: Queue<T>, n: nat): (Queue<T>, seq<T>)
    requires n <= |q.items|
    decreases n
  {
    if n == 0 then (q, [])
    else
      var (rest, taken) := Drain(q.(items := q.items[1..], consumed := q.consumed + 1), n - 1);
      (rest, [q.items[0]] + taken)
  }

  /** Drain the whole buffer if it is non-empty; an empty buffer yields `None`,
      never an empty sequence. */
  function GetAll<T>(q: Queue<T>): (Queue<T>, Option<seq<T>>)
  {
    if IsNotEmpty(q.items) then
      var (rest, taken) := Drain(q, |q.items|);
      (rest, Some(taken))
    else
      (q, None)
  }

  /** Set `finished` if it is not already set. */
  function Finish<T>(q: Queue<T>): Queue<T>
  {
    if !q.finished then q.(finished := true) else q
  }

  /** The termination signal, read in one critical section. */
  predicate IsFinishedAndEmpty<T>(q: Queue<T>)
  {
    q.finished && IsEmpty(q.items)
  }

  /** The counter invariant for a queue that was seeded with `seedLen` items:
      everything seeded or produced is either still buffered or consumed. */
  predicate CountersAgree<T>(q: Queue<T>, seedLen: nat)
  {
    |q.items| + q.consumed == seedLen + q.produced
  }

  // ---------------------------------------------------------------------------
  // Closed forms of the two loops

  /** The batch overload appends the whole batch in order and counts each item. */
  lemma {:induction false} ProduceBatchAppends<T>(q: Queue<T>, batch: seq<T>)
    ensures ProduceBatch(q, batch) == q.(items := q.items + batch, produced := q.produced + |batch|)
    decreases |batch|
  {
    if batch != [] {
      ProduceBatchAppends(Produce(q, batch[0]), batch[1..]);
      assert q.items + [batch[0]] + batch[1..] == q.items + batch;
    }
  }

  /** `n` dequeues return the first `n` items, leave the rest and count `n`. */
  lemma {:induction false} DrainTakesPrefix<T>(q: Queue<T>, n: nat)
    requires n <= |q.items|
    ensures Drain(q, n) == (q.(items := q.items[n..], consumed := q.consumed + n), q.items[..n])
    decreases n
  {
    if n > 0 {
      var next := q.(items := q.items[1..], consumed := q.consumed + 1);
      DrainTakesPrefix(next, n - 1);
      assert next.items[n - 1..] == q.items[n..];
      assert [q.items[0]] + next.items[..n - 1] == q.items[..n];
    }
  }

  /** `GetAll` on a non-empty buffer returns exactly the buffer, in order, and
      leaves it empty with every item counted; on an empty buffer it returns
      `None` and changes nothing. Nothing else is touched in either case. */
  lemma GetAllTakesEverything<T>(q: Queue<T>)
    ensures q.items != [] ==>
      GetAll(q) == (q.(items := [], consumed := q.consumed + |q.items|), Some(q.items))
    ensures q.items == [] ==> GetAll(q) == (q, None)
  {
    if q.items != [] {
      DrainTakesPrefix(q, |q.items|);
      assert q.items[..|q.items|] == q.items;
      assert q.items[|q.items|..] == [];
    }
  }

  /** A second `GetAll` right after a first one always returns `None`. */
  lemma GetAllTwiceYieldsNone<T>(q: Queue<T>)
    ensures GetAll(GetAll(q).0).1 == None
    ensures GetAll(GetAll(q).0).0 == GetAll(q).0
  {
    GetAllTakesEverything(q);
    GetAllTakesEverything(GetAll(q).0);
  }

  /** One step of the drain loop is one `Get`: the first item drained is what
      `Get` returns, and the rest is the drain of `Get`'s new state. */
  lemma DrainIsRepeatedGet<T>(q: Queue<T>, n: nat)
    requires 0 < n <= |q.items|
    ensures Get(q).1 == Some(Drain(q, n).1[0])
    ensures Drain(Get(q).0, n - 1) == (Drain(q, n).0, Drain(q, n).1[1..])
  {
  }

  /** `n` counted dequeues are `n` successive `Get` calls. */
  lemma {:induction false} DrainIsGets<T>(q: Queue<T>, n: nat)
    requires n <= |q.items|
    ensures Run(q, seq(n, _ => GetOp)) == Drain(q, n)
    decreases n
  {
    if n > 0 {
      var gets: seq<Op<T>> := seq(n, _ => GetOp);
      assert gets[0] == GetOp;
      assert gets[1..] == seq(n - 1, _ => GetOp);
      DrainIsGets(Get(q).0, n - 1);
      DrainIsRepeatedGet(q, n);
    }
  }

  /** On a non-empty buffer, `GetAll` leaves the state and hands out the items
      that `|items|` successive `Get` calls would. */
  lemma GetAllIsGets<T>(q: Queue<T>)
    requires q.items != []
    ensures GetAll(q).0 == Run(q, seq(|q.items|, _ => GetOp)).0
    ensures GetAll(q).1 == Some(Run(q, seq(|q.items|, _ => GetOp)).1)
  {
    DrainIsGets(q, |q.items|);
  }

  /** `Finish` sets the flag, touches nothing else, and a second call is a no-op. */
  lemma FinishIsIdempotent<T>(q: Queue<T>)
    ensures Finish(q) == q.(finished := true)
    ensures Finish(Finish(q)) == Finish(q)
  {
  }

  /** Production is accepted after `Finish`: the item is still buffered. */
  lemma ProduceAfterFinishIsAccepted<T>(q: Queue<T>, item: T)
    ensures Produce(Finish(q), item).items == q.items + [item]
    ensures Produce(Finish(q), item).finished
    ensures !IsFinishedAndEmpty(Produce(Finish(q), item))
  {
  }

  /** Consumption after `Finish` still drains the buffer (drain-then-stop). */
  lemma GetAfterFinishDrains<T>(q: Queue<T>)
    requires q.items != []
    ensures Get(Finish(q)).1 == Some(q.items[0])
    ensures Get(Finish(q)).0.items == q.items[1..]
  {
  }

  /** The seeded construction satisfies the counter invariant for its seed
      length and starts open exactly when the seed is empty. */
  lemma CreateEstablishes<T>(seed: seq<T>)
    ensures CountersAgree(Create(seed), |seed|)
    ensures Create(seed).items == seed
    ensures Create(seed).finished <==> seed != []
    ensures IsFinishedAndEmpty(Create(seed)) == false
  {
  }

  /** Seeded items are buffered but not counted as produced, so for a seeded
      queue `produced - consumed` is not the buffer length. */
  lemma SeededQueueIsNotProducedMinusConsumed<T>(x: T)
    ensures Create([x]).produced - Create([x]).consumed != |Create([x]).items|
  {
  }

  // ---------------------------------------------------------------------------
  // Any sequence of operations

  /** The state-changing operations of the collection; the read-only queries
      are left out of traces because they change nothing. */
  datatype Op<T> = ProduceOp(item: T) | ProduceBatchOp(batch: seq<T>) | GetOp | GetAllOp | FinishOp

  /** One operation: the new state and the items it handed to a consumer. */
  function Step<T>(q: Queue<T>, op: Op<T>): (Queue<T>, seq<T>)
  {
    match op
    case ProduceOp(item) => (Produce(q, item), [])
    case ProduceBatchOp(batch) => (ProduceBatch(q, batch), [])
    case GetOp =>
      var (next, r) := Get(q);
      (next, if r.Some? then [r.value] else [])
    case GetAllOp =>
      var (next, r) := GetAll(q);
      (next, if r.Some? then r.value else [])
    case FinishOp => (Finish(q), [])
  }

  /** The items an operation puts into the buffer. */
  function SuppliedBy<T>(op: Op<T>): seq<T>
  {
    match op
    case ProduceOp(item) => [item]
    case ProduceBatchOp(batch) => batch
    case _ => []
  }

  /** Operations applied one after another, as the semaphore linearises them;
      the second component is everything consumers received, in order. */
  function Run<T>(q: Queue<T>, ops: seq<Op<T>>): (Queue<T>, seq<T>)
    decreases |ops|
  {
    if ops == [] then (q, [])
    else
      var (next, out) := Step(q, ops[0]);
      var (last, rest) := Run(next, ops[1..]);
      (last, out + rest)
  }

  /** Everything the operations supply, in order. */
  function Supplied<T>(ops: seq<Op<T>>): seq<T>
    decreases |ops|
  {
    if ops == [] then [] else SuppliedBy(ops[0]) + Supplied(ops[1..])
  }

  /** One operation keeps FIFO order and the books: what it hands out followed
      by what stays buffered is the old buffer followed by what it supplies. */
  lemma StepAccounts<T>(q: Queue<T>, op: Op<T>)
    ensures Step(q, op).1 + Step(q, op).0.items == q.items + SuppliedBy(op)
    ensures Step(q, op).0.consumed == q.consumed + |Step(q, op).1|
    ensures Step(q, op).0.produced == q.produced + |SuppliedBy(op)|
    ensures Step(q, op).0.finished == (q.finished || op == FinishOp)
  {
    match op
    case ProduceOp(item) =>
    case ProduceBatchOp(batch) => ProduceBatchAppends(q, batch);
    case GetOp =>
      if q.items != [] {
        assert [q.items[0]] + q.items[1..] == q.items;
      }
    case GetAllOp => GetAllTakesEverything(q);
    case FinishOp =>
  }

  /** `Run` on a non-empty sequence is its first step followed by the rest. */
  lemma RunUnfolds<T>(q: Queue<T>, ops: seq<Op<T>>)
    requires ops != []
    ensures Run(q, ops).0 == Run(Step(q, ops[0]).0, ops[1..]).0
    ensures Run(q, ops).1 == Step(q, ops[0]).1 + Run(Step(q, ops[0]).0, ops[1..]).1
    ensures Supplied(ops) == SuppliedBy(ops[0]) + Supplied(ops[1..])
  {
  }

  /** FIFO over any interleaving: the items consumers receive, followed by what
      is still buffered, are exactly the starting buffer followed by every
      produced item, in production order. The counters move by exactly the
      number of items received and supplied. */
  lemma {:induction false} RunIsFifo<T>(q: Queue<T>, ops: seq<Op<T>>)
    ensures Run(q, ops).1 + Run(q, ops).0.items == q.items + Supplied(ops)
    ensures Run(q, ops).0.consumed == q.consumed + |Run(q, ops).1|
    ensures Run(q, ops).0.produced == q.produced + |Supplied(ops)|
    decreases |ops|
  {
    if ops != [] {
      var next, out := Step(q, ops[0]).0, Step(q, ops[0]).1;
      var last, rest := Run(next, ops[1..]).0, Run(next, ops[1..]).1;
      RunUnfolds(q, ops);
      StepAccounts(q, ops[0]);
      RunIsFifo(next, ops[1..]);
      assert Run(q, ops).1 + Run(q, ops).0.items == out + (rest + last.items);
      assert out + (next.items + Supplied(ops[1..])) == (out + next.items) + Supplied(ops[1..]);
      assert |out + rest| == |out| + |rest|;
    }
  }

  /** The counter invariant holds after any sequence of operations. */
  lemma RunKeepsCountersAgreeing<T>(q: Queue<T>, seedLen: nat, ops: seq<Op<T>>)
    requires CountersAgree(q, seedLen)
    ensures CountersAgree(Run(q, ops).0, seedLen)
  {
    RunIsFifo(q, ops);
    assert |Run(q, ops).1 + Run(q, ops).0.items| == |q.items + Supplied(ops)|;
  }

  /** `finished` after any sequence of operations is true exactly when it was
      true before or some operation was a `Finish`: it never goes back. */
  lemma {:induction false} RunFinished<T>(q: Queue<T>, ops: seq<Op<T>>)
    ensures Run(q, ops).0.finished <==> q.finished || FinishOp in ops
    decreases |ops|
  {
    if ops != [] {
      StepAccounts(q, ops[0]);
      RunFinished(Step(q, ops[0]).0, ops[1..]);
      assert ops == [ops[0]] + ops[1..];
      assert FinishOp in ops <==> ops[0] == FinishOp || FinishOp in ops[1..];
    }
  }

  /** The terminal state is final as long as nothing more is produced: no
      consumer receives anything and the queue stays finished and empty. */
  lemma TerminalIsStable<T>(q: Queue<T>, ops: seq<Op<T>>)
    requires IsFinishedAndEmpty(q)
    requires Supplied(ops) == []
    ensures Run(q, ops).1 == []
    ensures IsFinishedAndEmpty(Run(q, ops).0)
  {
    RunIsFifo(q, ops);
    RunFinished(q, ops);
  }
}
