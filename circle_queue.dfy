/**
 * `CircleQueue.Queue<T>`: the same ring buffer with the indices named
 * `first`/`last`/`count`. Its `lock` only scopes the updates in `Enq`, so in
 * this sequential model it has no effect.
 */
module CircleQueue {
  import opened Outcomes
  import Fifo
  import Ring

  class Queue<T(0)> {
    const buffer: array<T>
    const capacity: int
    /** `default(T)`, the value a cleared slot holds. */
    const empty: T
    var first: int
    var last: int
    var count: int

    ghost predicate Valid()
      reads this, buffer
    {
      capacity == buffer.Length && Ring.Layout(buffer[..], first, last, count, empty)
    }

    /** The stored items, oldest first. */
    ghost function Contents(): seq<T>
      reads this, buffer
      requires Valid()
    {
      Ring.Window(buffer[..], first, count)
    }

    ghost function Model(): Fifo.BoundedQueue<T>
      reads this, buffer
      requires Valid()
    {
      Fifo.BoundedQueue(capacity, Contents())
    }

    /** A negative capacity makes the array allocation throw; zero is allowed. */
    constructor (capacity: int)
      requires capacity >= 0
      ensures Valid() && fresh(buffer)
      ensures Model() == Fifo.Empty(capacity)
      ensures first == 0 && last == 0 && count == 0
      ensures forall i :: 0 <= i < capacity ==> buffer[i] == empty
    {
      var d := Ring.DefaultValue<T>();
      buffer := new T[capacity](_ => d);
      this.capacity := capacity;
      empty := d;
      first, last, count := 0, 0, 0;
      new;
      Ring.FreshLayout(buffer[..], empty);
    }

    /**
     * Refused when full; otherwise stores `item` at the old `last`, advances
     * `last` modulo the capacity and counts one more item.
     */
    method Enq(item: T) returns (ok: bool)
      requires Valid()
      modifies this, buffer
      ensures Valid()
      ensures (ok, Model()) == Fifo.Enq(old(Model()), item)
      ensures ok == (old(count) != capacity)
      ensures ok ==> buffer[..] == old(buffer[..])[old(last) := item] && first == old(first)
                     && last == (old(last) + 1) % capacity && count == old(count) + 1
      ensures !ok ==> buffer[..] == old(buffer[..]) && first == old(first)
                      && last == old(last) && count == old(count)
    {
      var previousIndex := last;
      if count == capacity {
        return false;
      }
      Ring.EnqStep(buffer[..], first, last, count, empty, item);
      last := (last + 1) % capacity;
      buffer[previousIndex] := item;
      count := count + 1;
      return true;
    }

    /**
     * Refused (with the default item) when empty; otherwise returns the item
     * at `first`, clears that slot, advances `first` modulo the capacity and
     * counts one item fewer.
     */
    method Deq() returns (ok: bool, item: T)
      requires Valid()
      modifies this, buffer
      ensures Valid()
      ensures (if ok then Some(item) else None, Model()) == Fifo.Deq(old(Model()))
      ensures !ok ==> item == empty
      ensures ok == (old(count) != 0)
      ensures ok ==> item == old(buffer[first]) && buffer[..] == old(buffer[..])[old(first) := empty]
                     && first == (old(first) + 1) % capacity && last == old(last) && count == old(count) - 1
      ensures !ok ==> buffer[..] == old(buffer[..]) && first == old(first)
                      && last == old(last) && count == old(count)
    {
      item := empty;
      if count == 0 {
        return false, item;
      }
      Ring.DeqStep(buffer[..], first, last, count, empty);
      item := buffer[first];
      buffer[first] := empty;
      first := (first + 1) % capacity;
      count := count - 1;
      return true, item;
    }

    /** A fresh array with the same slots, default values included. */
    method GetQueueCopy() returns (copy: array<T>)
      ensures fresh(copy) && copy[..] == buffer[..]
    {
      copy := new T[buffer.Length](i requires 0 <= i < buffer.Length reads buffer => buffer[i]);
    }
  }

  /** `new Queue<T>(capacity)`, with the allocation failure made explicit. */
  method Create<T(0)>(capacity: int) returns (r: Result<Queue<T>>)
    ensures capacity < 0 <==> r == Failure(OverflowException)
    ensures r.Success? <==> 0 <= capacity
    ensures r.Success? ==> fresh(r.value) && r.value.Valid() && r.value.Model() == Fifo.Empty(capacity)
  {
    if capacity < 0 {
      return Failure(OverflowException);
    }
    var q := new Queue<T>(capacity);
    return Success(q);
  }
}
