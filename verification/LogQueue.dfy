/** The queue between the loggers and the worker threads, with its three ways to add a message. */
module LogQueue {
  import opened Prelude
  import opened CircularQueue
  import Fifo = BoundedFifo

  class MpmcBlockingQueue<T(0)> {
    const q: CircularQ<T>
    var discardCounter: nat
    ghost const capacity: nat
    ghost var history: seq<Fifo.Event<T>>

    ghost predicate Valid()
      reads this, q
    {
      q.Valid() && q.maxItems == capacity + 1
    }

    /** The queue holds, and has given up, what the bounded FIFO of its capacity does after the same events. */
    ghost predicate Follows()
      reads this, q, q.v
    {
      && Valid()
      && q.Contents() == Fifo.Queue(history, capacity)
      && q.overrunCounter == |Fifo.Dropped(history, capacity)|
    }

    constructor (maxItems: nat)
      ensures Follows() && history == [] && capacity == maxItems && discardCounter == 0 && fresh(q) && fresh(q.v)
    {
      q := new CircularQ(maxItems);
      capacity := maxItems;
      discardCounter := 0;
      history := [];
    }

    ghost method Record(e: Fifo.Event<T>)
      modifies `history
      ensures history == old(history) + [e]
      ensures var h, before := history, old(history);
              && Fifo.Queue(h, capacity) == (var w := Fifo.Queue(before, capacity);
                                             if e.Push? then Fifo.Enqueue(w, e.item, capacity)
                                             else if w != [] then w[1..] else w)
              && |Fifo.Dropped(h, capacity)| == |Fifo.Dropped(before, capacity)|
                 + (if e.Push? && |Fifo.Queue(before, capacity)| >= capacity then 1 else 0)
    {
      Fifo.QueueStep(history, e, capacity);
      Fifo.RecordStep(history, e, capacity);
      history := history + [e];
    }

    /**
     One look at the condition that the caller waits for: with room the message is added and nothing is given up,
     without room nothing changes and the caller goes on waiting.
     */
    method Enqueue(item: T) returns (done: bool)
      requires Follows()
      modifies `history, q, q.v
      ensures Follows() && done == (old(|q.Contents()|) < capacity)
      ensures history == if done then old(history) + [Fifo.Push(item)] else old(history)
      ensures q.v == old(q.v) && q.overrunCounter == old(q.overrunCounter)
    {
      var full := q.Full();
      if full {
        return false;
      }
      q.PushBack(item);
      Record(Fifo.Push(item));
      return true;
    }

    /** Never waits; gives up the oldest message of a full queue. */
    method EnqueueNowait(item: T)
      requires Follows()
      modifies `history, q, q.v
      ensures Follows() && history == old(history) + [Fifo.Push(item)]
      ensures q.v == old(q.v)
    {
      q.PushBack(item);
      Record(Fifo.Push(item));
    }

    /** Adds the message only if there is room, and counts it otherwise. */
    method EnqueueIfHaveRoom(item: T)
      requires Follows()
      modifies `history, `discardCounter, q, q.v
      ensures Follows() && q.v == old(q.v) && q.overrunCounter == old(q.overrunCounter)
      ensures if old(|q.Contents()|) < capacity
              then history == old(history) + [Fifo.Push(item)] && discardCounter == old(discardCounter)
              else history == old(history) && discardCounter == old(discardCounter) + 1
    {
      var pushed := false;
      var full := q.Full();
      if !full {
        q.PushBack(item);
        Record(Fifo.Push(item));
        pushed := true;
      }
      if !pushed {
        discardCounter := discardCounter + 1;
      }
    }

    /** One look at the condition that a worker waits for: the oldest message, or none and the wait goes on. */
    method Dequeue() returns (r: Option<T>)
      requires Follows()
      modifies `history, q
      ensures Follows() && q.v == old(q.v)
      ensures match r
              case Some(item) => old(q.Contents()) != [] && item == old(q.Contents())[0]
                                 && history == old(history) + [Fifo.Pop]
              case None => old(q.Contents()) == [] && history == old(history)
    {
      var empty := q.Empty();
      if empty {
        return None;
      }
      var item := q.Front();
      q.PopFront();
      Record(Fifo.Pop);
      return Some(item);
    }

    /** A wait that ends with the time has found the queue empty to the last. */
    method DequeueFor() returns (r: Option<T>)
      requires Follows()
      modifies `history, q
      ensures Follows() && q.v == old(q.v)
      ensures r.Some? <==> old(q.Contents()) != []
      ensures r.Some? ==> r.value == old(q.Contents())[0] && history == old(history) + [Fifo.Pop]
      ensures r.None? ==> history == old(history)
    {
      r := Dequeue();
    }
  }

  /** Pushes are pops, messages waiting and overruns; with no overrun, what came out and what waits is what went in. */
  lemma {:induction false} PushesAreAccountedFor<T(0)>(queue: MpmcBlockingQueue<T>)
    requires queue.Follows()
    ensures var h, capacity := queue.history, queue.capacity;
            && |Fifo.Log(h)| == |Fifo.Delivered(h, capacity)| + |queue.q.Contents()| + queue.q.overrunCounter
            && (queue.q.overrunCounter == 0 ==> Fifo.Log(h) == Fifo.Delivered(h, capacity) + queue.q.Contents())
  {
    Fifo.PushesAreAccountedFor(queue.history, queue.capacity);
    if queue.q.overrunCounter == 0 {
      Fifo.NothingLost(queue.history, queue.capacity);
    }
  }
}
