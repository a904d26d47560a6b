/** `AsyncPCCollection<T>`: the FIFO hand-off queue. Every public operation of
    the C# class runs its whole body under one semaphore, so each is modelled
    here as one atomic method on the guarded state; each method's new state is
    the corresponding step of `ProducerConsumer`, whose lemmas then apply to any
    sequence of calls. */
module Threading {
  import opened Wrappers
  import QueueExtensions
  import PC = ProducerConsumer

  /** `T(0)` stands for the C# constraint `where T : class`: a default value
      (`null` there) exists, which the array that `GetAll` fills needs. */
  class AsyncPCCollection<T(0)> {
    var items: seq<T>      // the `Queue<T>` buffer, head first
    var consumed: nat      // `_totalConsumed`
    var produced: nat      // `_totalProduced`
    var finished: bool     // `_finished`

    /** How many items the constructor seeded; they are buffered but never
        counted as produced. */
    ghost const seedLen: nat

    /** The guarded state as a value. */
    ghost function Snapshot(): PC.Queue<T>
      reads this
    {
      PC.Queue(items, consumed, produced, finished)
    }

    /** The object invariant: seeded plus produced equals buffered plus consumed. */
    ghost predicate Valid()
      reads this
    {
      PC.CountersAgree(Snapshot(), seedLen)
    }

    /** The parameterless constructor: an empty, open queue. */
    constructor ()
      ensures Valid() && seedLen == 0
      ensures items == [] && consumed == 0 && produced == 0 && !finished
      ensures Snapshot() == PC.Create([])
    {
      items, consumed, produced, finished := [], 0, 0, false;
      seedLen := 0;
    }

    /** The seeding constructor: the seed is buffered in order, neither counter
        moves, and the queue is finished at once when the seed is non-empty. */
    constructor FromItems(seed: seq<T>)
      ensures Valid() && seedLen == |seed|
      ensures items == seed && consumed == 0 && produced == 0
      ensures finished <==> seed != []
      ensures Snapshot() == PC.Create(seed)
    {
      items, consumed, produced, finished := seed, 0, 0, false;
      seedLen := |seed|;
      new;
      if QueueExtensions.IsNotEmpty(items) {
        Finish();
      }
    }

    /** Dequeue the head, or return `None` on an empty buffer. Works the same
        whether or not the queue is finished. */
    method Get() returns (r: Option<T>)
      requires Valid()
      modifies this
      ensures Valid()
      ensures (Snapshot(), r) == PC.Get(old(Snapshot()))
      ensures old(items) != [] ==>
        r == Some(old(items)[0]) && items == old(items)[1..] && consumed == old(consumed) + 1
      ensures old(items) == [] ==> r == None && items == old(items) && consumed == old(consumed)
      ensures produced == old(produced) && finished == old(finished)
    {
      if QueueExtensions.IsNotEmpty(items) {
        var item := items[0];
        items := items[1..];
        consumed := consumed + 1;
        return Some(item);
      }
      return None;
    }

    /** Drain the whole buffer into an array, in order, counting each item;
        `None` (not an empty sequence) when the buffer is empty. */
    method GetAll() returns (r: Option<seq<T>>)
      requires Valid()
      modifies this
      ensures Valid()
      ensures (Snapshot(), r) == PC.GetAll(old(Snapshot()))
      ensures old(items) != [] ==>
        r == Some(old(items)) && items == [] && consumed == old(consumed) + |old(items)|
      ensures old(items) == [] ==> r == None && items == old(items) && consumed == old(consumed)
      ensures produced == old(produced) && finished == old(finished)
    {
      PC.GetAllTakesEverything(Snapshot());
      if QueueExtensions.IsNotEmpty(items) {
        var itemsToReturn := |items|;
        var taken := new T[itemsToReturn];
        for i := 0 to itemsToReturn
          invariant taken[..i] == old(items)[..i]
          invariant items == old(items)[i..]
          invariant consumed == old(consumed) + i
          invariant produced == old(produced) && finished == old(finished)
        {
          taken[i] := items[0];
          items := items[1..];
          consumed := consumed + 1;
        }
        assert taken[..] == taken[..itemsToReturn] == old(items);
        assert items == [];
        return Some(taken[..]);
      }
      return None;
    }

    /** `IsEmpty` of the buffer, read under the lock. */
    method IsEmpty() returns (r: bool)
      ensures r <==> items == []
      ensures r <==> !PC.Get(Snapshot()).1.Some?
    {
      r := QueueExtensions.IsEmpty(items);
    }

    /** The `finished` flag. */
    method IsFinished() returns (r: bool)
      ensures r == finished
      ensures r ==> PC.Finish(Snapshot()) == Snapshot()
    {
      r := finished;
    }

    /** The consumed counter. */
    method GetConsumedCount() returns (n: nat)
      ensures n == consumed
    {
      n := consumed;
    }

    /** The produced counter; on a valid queue it never exceeds the number of
        items ever consumed or still buffered. */
    method GetProducedCount() returns (n: nat)
      requires Valid()
      ensures n == produced
      ensures n <= consumed + |items|
    {
      n := produced;
    }

    /** Enqueue one item at the tail; accepted even after `Finish`. */
    method Produce(item: T)
      requires Valid()
      modifies this
      ensures Valid()
      ensures Snapshot() == PC.Produce(old(Snapshot()), item)
      ensures items == old(items) + [item] && produced == old(produced) + 1
      ensures consumed == old(consumed) && finished == old(finished)
    {
      items := items + [item];
      produced := produced + 1;
    }

    /** Enqueue a whole batch, in its order, in one critical section. */
    method ProduceBatch(batch: seq<T>)
      requires Valid()
      modifies this
      ensures Valid()
      ensures Snapshot() == PC.ProduceBatch(old(Snapshot()), batch)
      ensures items == old(items) + batch && produced == old(produced) + |batch|
      ensures consumed == old(consumed) && finished == old(finished)
    {
      for k := 0 to |batch|
        invariant items == old(items) + batch[..k]
        invariant produced == old(produced) + k
        invariant consumed == old(consumed) && finished == old(finished)
      {
        assert batch[..k + 1] == batch[..k] + [batch[k]];
        items := items + [batch[k]];
        produced := produced + 1;
      }
      assert batch[..|batch|] == batch;
      PC.ProduceBatchAppends(old(Snapshot()), batch);
    }

    /** Set `finished`; idempotent, and nothing else changes. */
    method Finish()
      requires Valid()
      modifies this
      ensures Valid()
      ensures Snapshot() == PC.Finish(old(Snapshot()))
      ensures finished
      ensures items == old(items) && consumed == old(consumed) && produced == old(produced)
    {
      if !finished {
        finished := true;
      }
    }

    /** The termination signal: finished and nothing left, read atomically. */
    method IsFinishedAndEmpty() returns (r: bool)
      ensures r <==> finished && items == []
      ensures r == PC.IsFinishedAndEmpty(Snapshot())
    {
      r := finished && QueueExtensions.IsEmpty(items);
    }
  }
}
