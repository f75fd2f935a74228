/** One worker thread of the log pool at work on its queue. */
module LogWorker {
  import opened Prelude
  import Fifo = BoundedFifo
  import opened LogPool
  import opened LogQueue

  /** The messages before the first terminate message. */
  function Ahead(ms: seq<Msg>): (r: seq<Msg>)
    ensures r <= ms && Terminate !in r
    ensures |r| < |ms| ==> ms[|r|] == Terminate
  {
    if ms == [] || ms[0].Terminate? then [] else [ms[0]] + Ahead(ms[1..])
  }

  /** The messages after the first terminate message. */
  function Behind(ms: seq<Msg>): seq<Msg> {
    if ms == [] then [] else if ms[0].Terminate? then ms[1..] else Behind(ms[1..])
  }

  /** A queue with a terminate message is what is ahead of the first one, the message and what is behind it. */
  lemma {:induction false} AheadAndBehind(ms: seq<Msg>)
    requires Terminate in ms
    ensures ms == Ahead(ms) + [Terminate] + Behind(ms)
  {
    if !ms[0].Terminate? {
      AheadAndBehind(ms[1..]);
      assert ms == [ms[0]] + ms[1..];
    } else {
      assert ms == [ms[0]] + ms[1..];
    }
  }

  lemma {:induction false} AheadStep(done: seq<Msg>, ms: seq<Msg>)
    ensures if ms == [] then Ahead(ms) == [] && Behind(ms) == []
            else if ms[0].Terminate? then Ahead(ms) == [] && Behind(ms) == ms[1..] && Terminate in ms
            else done + Ahead(ms) == done + [ms[0]] + Ahead(ms[1..]) && Behind(ms) == Behind(ms[1..])
                 && (Terminate in ms <==> Terminate in ms[1..])
  {
    if ms != [] && !ms[0].Terminate? {
      assert Ahead(ms) == [ms[0]] + Ahead(ms[1..]);
      assert ms == [ms[0]] + ms[1..];
    }
  }

  class ThreadPool {
    const q: MpmcBlockingQueue<Msg>
    /** The messages given to the sinks, and the flushes whose promise has been kept. */
    var logged: seq<nat>
    var flushed: seq<nat>
    ghost var processed: seq<Msg>

    ghost predicate Valid()
      reads this, q, q.q, q.q.v
    {
      q.Follows()
    }

    ghost function Waiting(): seq<Msg>
      requires Valid()
      reads this, q, q.q, q.q.v
    {
      q.q.Contents()
    }

    constructor (maxItems: nat)
      ensures Valid() && Waiting() == [] && q.capacity == maxItems && processed == [] && logged == flushed == []
      ensures fresh(q) && fresh(q.q) && fresh(q.q.v)
    {
      q := new MpmcBlockingQueue(maxItems);
      logged, flushed, processed := [], [], [];
    }

    /** A post that blocks goes on waiting while there is no room; the others are done at once. */
    method PostAsyncMsg(m: Msg, policy: Policy) returns (done: bool)
      requires Valid()
      modifies q, q.q, q.q.v
      ensures Valid() && q.q.v == old(q.q.v)
      ensures done <==> policy != Block || old(|Waiting()|) < q.capacity
      ensures var added := policy == OverrunOldest || old(|Waiting()|) < q.capacity;
              && q.history == (if added then old(q.history) + [Fifo.Push(m)] else old(q.history))
              && q.discardCounter == old(q.discardCounter) + (if policy == DiscardNew && !added then 1 else 0)
    {
      done := true;
      match policy {
        case Block => done := q.Enqueue(m);
        case OverrunOldest => q.EnqueueNowait(m);
        case DiscardNew => q.EnqueueIfHaveRoom(m);
      }
    }

    /** Takes one message; the worker goes on unless it is a terminate message. Without a message it goes on waiting. */
    method ProcessNextMsg() returns (active: Option<bool>)
      requires Valid()
      modifies this, q, q.q
      ensures Valid() && q.q.v == old(q.q.v)
      ensures active.None? <==> old(Waiting()) == []
      ensures active.None? ==> Waiting() == [] && processed == old(processed)
                               && logged == old(logged) && flushed == old(flushed)
      ensures active.Some? ==>
                var m := old(Waiting())[0];
                && Waiting() == old(Waiting())[1..]
                && (active.value <==> m != Terminate)
                && processed == old(processed) + (if active.value then [m] else [])
                && logged == old(logged) + (if m.Log? then [m.id] else [])
                && flushed == old(flushed) + (if m.Flush? then [m.id] else [])
    {
      Fifo.QueueStep(q.history, Fifo.Pop, q.capacity);
      var r := q.Dequeue();
      if r.None? {
        return None;
      }
      var m := r.value;
      var goesOn := true;
      match m {
        case Log(id) =>
          logged := logged + [id];
        case Flush(id) =>
          flushed := flushed + [id];
        case Terminate =>
          goesOn := false;
      }
      processed := processed + (if goesOn then [m] else []);
      return Some(goesOn);
    }

    /**
     Runs until the first terminate message, has processed all before it and leaves all after it. Without a terminate
     message it has processed everything and waits.
     */
    method WorkerLoop() returns (stopped: bool)
      requires Valid()
      modifies this, q, q.q
      ensures Valid() && (stopped <==> Terminate in old(Waiting()))
      ensures processed == old(processed) + Ahead(old(Waiting())) && Waiting() == Behind(old(Waiting()))
    {
      ghost var ms, done := Waiting(), processed;
      var active := Some(true);
      while active == Some(true)
        invariant Valid() && q.q.v == old(q.q.v)
        invariant active == Some(true) ==> (Terminate in Waiting() <==> Terminate in ms)
        invariant active != Some(true) ==> (active.Some? <==> Terminate in ms)
        invariant processed + (if active == Some(true) then Ahead(Waiting()) else []) == done + Ahead(ms)
        invariant (if active == Some(true) then Behind(Waiting()) else Waiting()) == Behind(ms)
        decreases |Waiting()| + (if active == Some(true) then 1 else 0)
      {
        AheadStep(processed, Waiting());
        active := ProcessNextMsg();
      }
      stopped := active.Some?;
    }
  }
}
