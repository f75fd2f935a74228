/** A run of slots that continues around the end of a buffer. */
module Ring {

  /** The slot `i` places after `head`. */
  function Slot(head: nat, i: nat, size: nat): (slot: nat)
    requires head < size && i <= size
    ensures slot < size
  {
    if head + i < size then head + i else head + i - size
  }

  lemma {:induction false} SlotIsModulo(head: nat, i: nat, size: nat)
    requires head < size && i <= size
    ensures Slot(head, i, size) == (head + i) % size
  {
    if head + i >= size {
      assert (head + i) / size == 1;
    }
  }

  /** The `count` items from `head` on. */
  function Window<T>(slots: seq<T>, head: nat, count: nat): (w: seq<T>)
    requires head < |slots| && count <= |slots|
    ensures |w| == count
  {
    seq(count, i requires 0 <= i < count => slots[Slot(head, i, |slots|)])
  }

  lemma {:induction false} WindowDropFirst<T>(slots: seq<T>, head: nat, count: nat)
    requires head < |slots| && 0 < count <= |slots|
    ensures Window(slots, Slot(head, 1, |slots|), count - 1) == Window(slots, head, count)[1..]
    ensures Window(slots, head, count)[0] == slots[head]
    ensures Slot(Slot(head, 1, |slots|), count - 1, |slots|) == Slot(head, count, |slots|)
  {
  }

  lemma {:induction false} WindowAdd<T>(slots: seq<T>, head: nat, count: nat, item: T)
    requires head < |slots| && count < |slots|
    ensures Window(slots[Slot(head, count, |slots|) := item], head, count + 1) == Window(slots, head, count) + [item]
    ensures Slot(Slot(head, count, |slots|), 1, |slots|) == Slot(head, count + 1, |slots|)
  {
  }
}
