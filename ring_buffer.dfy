/** `RingBuffer<T>`: the plain ring buffer, with no synchronisation. */
module RingBuffer {
  import opened Outcomes
  import Fifo
  import Ring

  class RingBuffer<T(0)> {
    const buffer: array<T>
    const capacity: int
    /** `default(T)`, the value a cleared slot holds. */
    const empty: T
    var head: int
    var tail: int
    var size: int

    ghost predicate Valid()
      reads this, buffer
    {
      capacity == buffer.Length && Ring.Layout(buffer[..], head, tail, size, empty)
    }

    /** The stored items, oldest first. */
    ghost function Contents(): seq<T>
      reads this, buffer
      requires Valid()
    {
      Ring.Window(buffer[..], head, size)
    }

    ghost function Model(): Fifo.BoundedQueue<T>
      reads this, buffer
      requires Valid()
    {
      Fifo.BoundedQueue(capacity, Contents())
    }

    /** A negative capacity makes the array allocation throw; zero is allowed. */
    constructor (capacity: int)
      requires capacity >= 0
      ensures Valid() && fresh(buffer)
      ensures Model() == Fifo.Empty(capacity)
      ensures head == 0 && tail == 0 && size == 0
      ensures forall i :: 0 <= i < capacity ==> buffer[i] == empty
    {
      var d := Ring.DefaultValue<T>();
      buffer := new T[capacity](_ => d);
      this.capacity := capacity;
      empty := d;
      head, tail, size := 0, 0, 0;
      new;
      Ring.FreshLayout(buffer[..], empty);
    }

    /**
     * Refused when full; otherwise stores `item` at the old `tail`, advances
     * `tail` modulo the capacity and counts one more item.
     */
    method Enq(item: T) returns (ok: bool)
      requires Valid()
      modifies this, buffer
      ensures Valid()
      ensures (ok, Model()) == Fifo.Enq(old(Model()), item)
      ensures ok == (old(size) != capacity)
      ensures ok ==> buffer[..] == old(buffer[..])[old(tail) := item] && head == old(head)
                     && tail == (old(tail) + 1) % capacity && size == old(size) + 1
      ensures !ok ==> buffer[..] == old(buffer[..]) && head == old(head)
                      && tail == old(tail) && size == old(size)
    {
      var previousIndex := tail;
      if size == capacity {
        return false;
      }
      Ring.EnqStep(buffer[..], head, tail, size, empty, item);
      tail := (tail + 1) % capacity;
      buffer[previousIndex] := item;
      size := size + 1;
      return true;
    }

    /**
     * Refused (with the default item) when empty; otherwise returns the item
     * at `head`, clears that slot, advances `head` modulo the capacity and
     * counts one item fewer.
     */
    method Deq() returns (ok: bool, item: T)
      requires Valid()
      modifies this, buffer
      ensures Valid()
      ensures (if ok then Some(item) else None, Model()) == Fifo.Deq(old(Model()))
      ensures !ok ==> item == empty
      ensures ok == (old(size) != 0)
      ensures ok ==> item == old(buffer[head]) && buffer[..] == old(buffer[..])[old(head) := empty]
                     && head == (old(head) + 1) % capacity && tail == old(tail) && size == old(size) - 1
      ensures !ok ==> buffer[..] == old(buffer[..]) && head == old(head)
                      && tail == old(tail) && size == old(size)
    {
      item := empty;
      if size == 0 {
        return false, item;
      }
      Ring.DeqStep(buffer[..], head, tail, size, empty);
      item := buffer[head];
      buffer[head] := empty;
      head := (head + 1) % capacity;
      size := size - 1;
      return true, item;
    }

    /** A fresh array with the same slots, default values included. */
    method GetQueueCopy() returns (copy: array<T>)
      ensures fresh(copy) && copy[..] == buffer[..]
    {
      copy := new T[buffer.Length](i requires 0 <= i < buffer.Length reads buffer => buffer[i]);
    }
  }

  /** `new RingBuffer<T>(capacity)`, with the allocation failure made explicit. */
  method Create<T(0)>(capacity: int) returns (r: Result<RingBuffer<T>>)
    ensures capacity < 0 <==> r == Failure(OverflowException)
    ensures r.Success? <==> 0 <= capacity
    ensures r.Success? ==> fresh(r.value) && r.value.Valid() && r.value.Model() == Fifo.Empty(capacity)
  {
    if capacity < 0 {
      return Failure(OverflowException);
    }
    var b := new RingBuffer<T>(capacity);
    return Success(b);
  }
}
