/** The two extension methods that decide every branch of the hand-off queue.
    A `Queue<T>` is modelled by the sequence of its items, head first, so the
    queue's `Count` is the sequence length. Both helpers only read `Count`. */
module QueueExtensions {

  /** `queue.Count == 0`. */
  predicate IsEmpty<T>(queue: seq<T>)
    ensures IsEmpty(queue) <==> queue == []
  {
    |queue| == 0
  }

  /** The negation of `IsEmpty`: the guard under which `Dequeue` is safe. */
  predicate IsNotEmpty<T>(queue: seq<T>)
    ensures IsNotEmpty(queue) <==> !IsEmpty(queue)
    ensures IsNotEmpty(queue) <==> |queue| > 0
  {
    !IsEmpty(queue)
  }
}
