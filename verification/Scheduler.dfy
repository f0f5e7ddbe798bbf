/** The ready queue of the source (scheduler.hpp). */
module Scheduler {
  class RoundRobin<T> {
    var queue: seq<T>

    constructor ()
      ensures queue == []
    {
      queue := [];
    }

    method Enqueue(t: T)
      modifies this
      ensures queue == old(queue) + [t]
    {
      queue := queue + [t];
    }

    method Dequeue() returns (t: T)
      requires queue != []
      modifies this
      ensures [t] + queue == old(queue)
    {
      t := queue[0];
      queue := queue[1..];
    }

    method Num() returns (n: nat)
      ensures n == |queue|
    {
      n := |queue|;
    }
  }
}
