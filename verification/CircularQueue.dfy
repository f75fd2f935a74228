/** The circular queue of the log back end, with one slot kept free to tell a full queue from an empty one. */
module CircularQueue {
  import opened BoundedFifo
  import opened Ring

  /** The number of items between two indices. */
  function Between(head: nat, tail: nat, size: nat): (n: nat)
    requires head < size && tail < size
    ensures n < size && tail == Slot(head, n, size)
  {
    if tail >= head then tail - head else size - (head - tail)
  }

  lemma {:induction false} CountAfterPop(head: nat, tail: nat, size: nat)
    requires head < size && tail < size && head != tail
    ensures Between(Slot(head, 1, size), tail, size) == Between(head, tail, size) - 1
  {
  }

  lemma {:induction false} CountAfterPush(head: nat, tail: nat, size: nat)
    requires head < size && tail < size
    ensures Slot(tail, 1, size) == head <==> Between(head, tail, size) == size - 1
    ensures Slot(tail, 1, size) == head ==> Between(Slot(head, 1, size), head, size) == size - 1
    ensures Slot(tail, 1, size) != head ==> Between(head, Slot(tail, 1, size), size) == Between(head, tail, size) + 1
  {
  }

  /** What the slots hold after an item is written at the tail, which uses the free slot up or not. */
  lemma {:induction false} Pushed<T>(slots: seq<T>, head: nat, n: nat, item: T)
    requires head < |slots| && n < |slots|
    ensures var size, written := |slots|, slots[Slot(head, n, |slots|) := item];
            && (n < size - 1 ==> Window(written, head, n + 1) == Enqueue(Window(slots, head, n), item, size - 1))
            && (n == size - 1 ==>
                  Window(written, Slot(head, 1, size), n) == Enqueue(Window(slots, head, n), item, size - 1))
  {
    WindowAdd(slots, head, n, item);
    if n == |slots| - 1 {
      WindowDropFirst(slots[Slot(head, n, |slots|) := item], head, n + 1);
    }
  }

  class CircularQ<T(0)> {
    var maxItems: nat
    var head: nat
    var tail: nat
    var overrunCounter: nat
    var v: array<T>

    ghost predicate Valid()
      reads this
    {
      v.Length == maxItems && (if maxItems == 0 then head == tail == 0 else head < maxItems && tail < maxItems)
    }

    ghost function Count(): (n: nat)
      requires Valid()
      reads this
      ensures maxItems > 0 ==> n < maxItems && tail == Slot(head, n, maxItems)
    {
      if maxItems == 0 then 0 else Between(head, tail, maxItems)
    }

    /** The items from the oldest to the newest. */
    ghost function Contents(): (q: seq<T>)
      requires Valid()
      reads this, v
      ensures |q| == Count()
    {
      if maxItems == 0 then [] else Window(v[..], head, Count())
    }

    /** A disabled queue: it holds nothing and ignores what is pushed. */
    constructor Disabled()
      ensures Valid() && maxItems == 0 && overrunCounter == 0 && fresh(v)
    {
      maxItems, head, tail, overrunCounter := 0, 0, 0, 0;
      v := new T[0];
    }

    constructor (capacity: nat)
      ensures Valid() && maxItems == capacity + 1 && Contents() == [] && overrunCounter == 0 && fresh(v)
    {
      maxItems, head, tail, overrunCounter := capacity + 1, 0, 0, 0;
      v := new T[capacity + 1];
    }

    /** The index after `i`, around the end of the vector. */
    method Next(i: nat) returns (next: nat)
      requires i < maxItems
      ensures next == Slot(i, 1, maxItems)
    {
      SlotIsModulo(i, 1, maxItems);
      next := (i + 1) % maxItems;
    }

    /** A bounded FIFO of capacity `maxItems - 1`, which may be 0; what it gives up is counted. */
    method PushBack(item: T)
      requires Valid()
      modifies `head, `tail, `overrunCounter, v
      ensures Valid()
      ensures maxItems == 0 ==> Contents() == [] && overrunCounter == old(overrunCounter)
      ensures maxItems > 0 ==>
                var full := |old(Contents())| >= maxItems - 1;
                && Contents() == Enqueue(old(Contents()), item, maxItems - 1)
                && overrunCounter == old(overrunCounter) + (if full then 1 else 0)
    {
      if maxItems > 0 {
        ghost var slots, n := v[..], Count();
        CountAfterPush(head, tail, maxItems);
        Pushed(slots, head, n, item);
        v[tail] := item;
        assert v[..] == slots[tail := item];
        tail := Next(tail);
        if tail == head {
          head := Next(head);
          overrunCounter := overrunCounter + 1;
        }
      }
    }

    method PopFront()
      requires Valid() && Contents() != []
      modifies `head
      ensures Valid() && Contents() == old(Contents())[1..]
    {
      ghost var slots, n := v[..], Count();
      WindowDropFirst(slots, head, n);
      CountAfterPop(head, tail, maxItems);
      head := Next(head);
      assert v[..] == slots && Count() == n - 1;
    }

    method Front() returns (item: T)
      requires Valid() && Contents() != []
      ensures item == Contents()[0]
    {
      WindowDropFirst(v[..], head, Count());
      item := v[head];
    }

    method Size() returns (n: nat)
      requires Valid()
      ensures n == |Contents()|
    {
      if tail >= head {
        n := tail - head;
      } else {
        n := maxItems - (head - tail);
      }
    }

    method At(i: nat) returns (item: T)
      requires Valid() && i < |Contents()|
      ensures item == Contents()[i]
    {
      SlotIsModulo(head, i, maxItems);
      item := v[(head + i) % maxItems];
    }

    method Empty() returns (empty: bool)
      requires Valid()
      ensures empty <==> Contents() == []
    {
      empty := tail == head;
    }

    /** Full means that the next push gives up an item; a disabled queue is never full. */
    method Full() returns (full: bool)
      requires Valid()
      ensures full <==> maxItems > 0 && |Contents()| == maxItems - 1
    {
      if maxItems > 0 {
        var next := Next(tail);
        return next == head;
      }
      return false;
    }

    /** Takes the contents of another queue over and leaves that one disabled. */
    method MoveFrom(other: CircularQ<T>)
      requires Valid() && other.Valid() && other != this
      modifies this, other
      ensures Valid() && Contents() == old(other.Contents())
      ensures maxItems == old(other.maxItems) && overrunCounter == old(other.overrunCounter)
      ensures other.Valid() && other.maxItems == 0 && other.Contents() == [] && other.overrunCounter == 0
    {
      maxItems := other.maxItems;
      head := other.head;
      tail := other.tail;
      overrunCounter := other.overrunCounter;
      v := other.v;
      other.v := new T[0];
      other.maxItems := 0;
      other.head, other.tail := 0, 0;
      other.overrunCounter := 0;
    }
  }
}
