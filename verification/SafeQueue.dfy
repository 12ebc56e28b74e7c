/** The queue of safe_queue.h.  Each method body runs under the queue's lock, so it is one atomic step. */
module Queues {
  import opened Wrappers
  import opened ErrorItems

  // TActionQueueItem: which client a message is from, and the message itself, held by value.
  datatype Action = Action(socket: int, m: Queued)

  class SafeQueue<T> {
    var q: seq<T>

    constructor ()
      ensures q == []
    {
      q := [];
    }

    method Enqueue(t: T)
      modifies this
      ensures q == old(q) + [t]
    {
      q := q + [t];
    }

    /** What `dequeue` returns when it wakes: nothing once `done` is set or while the queue is empty,
        otherwise the oldest element. */
    method Dequeue(done: bool) returns (r: Option<T>)
      modifies this
      ensures done || old(q) == [] ==> r == None && q == old(q)
      ensures !done && old(q) != [] ==> r == Some(old(q)[0]) && q == old(q)[1..]
    {
      if done || q == [] { return None; }
      r := Some(q[0]);
      q := q[1..];
    }
  }
}
