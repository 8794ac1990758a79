/** A circular byte buffer, refining a first-in first-out queue of bounded length. */
module RingBuffer {
  import opened Gf2
  import opened Wrappers

  lemma WrapIndex(i: nat, n: nat)
    requires i < n
    ensures (i + 1) % n == if i + 1 == n then 0 else i + 1
  {
  }

  class RingBuffer {
    const capacity: nat
    const buf: array<Byte>
    var head: nat
    var tail: nat
    var count: nat
    ghost var contents: seq<Byte>

    ghost predicate Valid()
      reads this, buf
    {
      && capacity >= 2 && buf.Length == capacity
      && tail < capacity && count <= capacity
      && head == Slot(count)
      && |contents| == count
      && forall i :: 0 <= i < count ==> contents[i] == buf[Slot(i)]
    }

    /** Where the i-th byte in the queue lies. */
    ghost function Slot(i: nat): nat
      reads this
      requires tail < capacity && i <= count <= capacity
      ensures Slot(i) < capacity
    {
      if tail + i < capacity then tail + i else tail + i - capacity
    }

    constructor (capacity: nat)
      requires capacity >= 2
      ensures Valid() && this.capacity == capacity && contents == [] && fresh(buf)
    {
      this.capacity := capacity;
      buf := new Byte[capacity];
      head, tail, count, contents := 0, 0, 0, [];
    }

    method Push(b: Byte) returns (ok: bool)
      requires Valid()
      modifies this, buf
      ensures Valid()
      ensures ok == (|old(contents)| < capacity)
      ensures contents == old(contents) + if ok then [b] else []
    {
      if count == capacity {
        return false;
      }
      WrapIndex(head, capacity);
      buf[head] := b;
      head := (head + 1) % capacity;
      count, contents := count + 1, contents + [b];
      return true;
    }

    method Pop() returns (b: Option<Byte>)
      requires Valid()
      modifies this
      ensures Valid()
      ensures b == if old(contents) == [] then None else Some(old(contents)[0])
      ensures contents == if old(contents) == [] then [] else old(contents)[1..]
    {
      if count == 0 {
        return None;
      }
      WrapIndex(tail, capacity);
      b := Some(buf[tail]);
      tail := (tail + 1) % capacity;
      count, contents := count - 1, contents[1..];
    }
  }
}
