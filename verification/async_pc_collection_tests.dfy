/** The collection's unit-test scenarios, each written as calls on the class, with its
    outcome stated as a postcondition that holds for every choice of items. */
module AsyncPCCollectionTests {
  import opened Wrappers
  import opened Threading

  /** One produce on a fresh collection counts one produced item. */
  method ProduceAddsNewItem<T(0)>(x: T) returns (producedCount: nat)
    ensures producedCount == 1
  {
    var collection := new AsyncPCCollection<T>();
    collection.Produce(x);
    producedCount := collection.GetProducedCount();
  }

  /** `Get` returns the produced item and counts it as consumed. */
  method GetReturnsItem<T(0)>(x: T) returns (item: Option<T>, consumedCount: nat)
    ensures item == Some(x) && consumedCount == 1
  {
    var collection := new AsyncPCCollection<T>();
    collection.Produce(x);
    item := collection.Get();
    consumedCount := collection.GetConsumedCount();
  }

  /** A `Get` on a drained collection returns `None`. */
  method GetReturnsNoneWhenDrained<T(0)>(x: T) returns (item: Option<T>)
    ensures item == None
  {
    var collection := new AsyncPCCollection<T>();
    collection.Produce(x);
    var _ := collection.Get();
    item := collection.Get();
  }

  /** Two produces then two gets yield the items in production order. */
  method GetsInFifoOrder<T(0)>(a: T, b: T) returns (first: Option<T>, second: Option<T>, consumedCount: nat)
    ensures first == Some(a) && second == Some(b) && consumedCount == 2
  {
    var collection := new AsyncPCCollection<T>();
    collection.Produce(a);
    collection.Produce(b);
    first := collection.Get();
    second := collection.Get();
    consumedCount := collection.GetConsumedCount();
  }

  /** After `Finish`, `GetAll` still returns every item in order and leaves the
      collection empty, with both counters at two. */
  method GetAllInFifoOrder<T(0)>(a: T, b: T)
    returns (all: Option<seq<T>>, consumedCount: nat, producedCount: nat, empty: bool)
    ensures all == Some([a, b]) && consumedCount == 2 && producedCount == 2 && empty
  {
    var collection := new AsyncPCCollection<T>();
    collection.Produce(a);
    collection.Produce(b);
    assert collection.items == [a, b];
    collection.Finish();
    all := collection.GetAll();
    consumedCount := collection.GetConsumedCount();
    producedCount := collection.GetProducedCount();
    empty := collection.IsEmpty();
  }

  /** A second `GetAll` returns `None`, not an empty sequence. */
  method GetAllReturnsNoneWhenEmpty<T(0)>(a: T, b: T) returns (emptyBefore: bool, all: Option<seq<T>>, emptyAfter: bool)
    ensures !emptyBefore && all == None && emptyAfter
  {
    var collection := new AsyncPCCollection<T>();
    collection.Produce(a);
    collection.Produce(b);
    collection.Finish();
    emptyBefore := collection.IsEmpty();
    var _ := collection.GetAll();
    all := collection.GetAll();
    emptyAfter := collection.IsEmpty();
  }

  /** A collection built from three items is finished at once. */
  method SeededCollectionIsFinished<T(0)>(a: T, b: T, c: T) returns (finished: bool)
    ensures finished
  {
    var collection := new AsyncPCCollection<T>.FromItems([a, b, c]);
    finished := collection.IsFinished();
  }

  /** `Finish` on a fresh collection finishes it. */
  method FinishFinishesCollection<T(0)>() returns (finished: bool)
    ensures finished
  {
    var collection := new AsyncPCCollection<T>();
    collection.Finish();
    finished := collection.IsFinished();
  }

  /** `Get` after `Finish` still returns the buffered item. */
  method GetAfterFinishReturnsItem<T(0)>(x: T) returns (item: Option<T>, consumedCount: nat)
    ensures item == Some(x) && consumedCount == 1
  {
    var collection := new AsyncPCCollection<T>();
    collection.Produce(x);
    collection.Finish();
    item := collection.Get();
    consumedCount := collection.GetConsumedCount();
  }

  /** The batch overload produces every item of the batch. */
  method ProduceBatchProducesAll<T(0)>(a: T, b: T) returns (empty: bool, producedCount: nat)
    ensures !empty && producedCount == 2
  {
    var collection := new AsyncPCCollection<T>();
    collection.ProduceBatch([a, b]);
    empty := collection.IsEmpty();
    producedCount := collection.GetProducedCount();
  }

  /** Produce, finish and drain: the termination signal is raised. */
  method FinishedAndEmptyAfterDrain<T(0)>(a: T, b: T)
    returns (terminal: bool, producedCount: nat, consumedCount: nat)
    ensures terminal && producedCount == 2 && consumedCount == 2
  {
    var collection := new AsyncPCCollection<T>();
    collection.ProduceBatch([a, b]);
    collection.Finish();
    var _ := collection.GetAll();
    terminal := collection.IsFinishedAndEmpty();
    producedCount := collection.GetProducedCount();
    consumedCount := collection.GetConsumedCount();
  }

  /** Produce and drain without finishing: empty but not terminal. */
  method EmptyButOpenIsNotTerminal<T(0)>(a: T, b: T)
    returns (terminal: bool, producedCount: nat, consumedCount: nat)
    ensures !terminal && producedCount == 2 && consumedCount == 2
  {
    var collection := new AsyncPCCollection<T>();
    collection.ProduceBatch([a, b]);
    var _ := collection.GetAll();
    terminal := collection.IsFinishedAndEmpty();
    producedCount := collection.GetProducedCount();
    consumedCount := collection.GetConsumedCount();
  }
}
