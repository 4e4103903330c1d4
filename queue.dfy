/**
 * `RingBuffer.Queue<T>`: the ring buffer with every operation gated by a
 * try-flag. The flag is a static field of the generic class, so every queue
 * of the same element type shares it; here it is one `Interlocked.Flag`
 * object that all queues built from the same flag refer to as `gate`. An
 * operation that finds the flag taken leaves 1 in it, changes nothing else
 * and reports failure.
 */
module RingBufferQueue {
  import opened Outcomes
  import Fifo
  import Ring
  import Interlocked

  class Queue<T(0)> {
    const buffer: array<T>
    const capacity: int
    /** `default(T)`, the value a cleared slot holds. */
    const empty: T
    /** The shared static `_usingResource` flag. */
    const gate: Interlocked.Flag
    var head: int
    var tail: int
    var size: int

    ghost predicate Valid()
      reads this, buffer
    {
      capacity == buffer.Length && capacity > 0 &&
      Ring.Layout(buffer[..], head, tail, size, empty)
    }

    /** The stored items, oldest first. */
    ghost function Contents(): seq<T>
      reads this, buffer
      requires Valid()
    {
      Ring.Window(buffer[..], head, size)
    }

    ghost function Model(): Fifo.BoundedQueue<T>
      reads this, buffer
      requires Valid()
    {
      Fifo.BoundedQueue(capacity, Contents())
    }

    /** A capacity that is not positive is rejected (see `Create`). */
    constructor (capacity: int, gate: Interlocked.Flag)
      requires capacity > 0
      ensures Valid() && fresh(buffer) && this.gate == gate
      ensures Model() == Fifo.Empty(capacity)
      ensures head == 0 && tail == 0 && size == 0
      ensures forall i :: 0 <= i < capacity ==> buffer[i] == empty
    {
      var d := Ring.DefaultValue<T>();
      buffer := new T[capacity](_ => d);
      this.capacity := capacity;
      empty := d;
      this.gate := gate;
      head, tail, size := 0, 0, 0;
      new;
      Ring.FreshLayout(buffer[..], empty);
    }

    /**
     * Copy constructor: an independent queue with its own array holding the
     * same slots, the same indices and therefore the same items in order.
     */
    constructor Copy(other: Queue<T>)
      requires other.Valid()
      ensures Valid() && fresh(buffer)
      ensures buffer[..] == other.buffer[..] && empty == other.empty && gate == other.gate
      ensures head == other.head && tail == other.tail && size == other.size
      ensures Model() == other.Model()
    {
      buffer := new T[other.buffer.Length](i requires 0 <= i < other.buffer.Length reads other.buffer => other.buffer[i]);
      capacity := other.capacity;
      empty := other.empty;
      gate := other.gate;
      head, tail, size := other.head, other.tail, other.size;
    }

    /**
     * With the flag free: refused when full, otherwise stores `item` at the
     * old `tail`, advances `tail` modulo the capacity and counts one more
     * item; the flag is free again afterwards. With the flag taken: refused,
     * nothing changes, and the exchange leaves 1 in the flag.
     */
    method Enq(item: T) returns (ok: bool)
      requires Valid()
      modifies this, buffer, gate
      ensures Valid()
      ensures gate.value == if old(gate.value) == 0 then 0 else 1
      ensures (ok, Model()) == if old(gate.value) == 0 then Fifo.Enq(old(Model()), item) else (false, old(Model()))
      ensures ok == (old(gate.value) == 0 && old(size) != capacity)
      ensures Contents() == if ok then old(Contents()) + [item] else old(Contents())
      ensures ok ==> buffer[..] == old(buffer[..])[old(tail) := item] && head == old(head)
                     && tail == (old(tail) + 1) % capacity && size == old(size) + 1
      ensures !ok ==> buffer[..] == old(buffer[..]) && head == old(head)
                      && tail == old(tail) && size == old(size)
    {
      ok := false;
      var previous := gate.Exchange(1);
      if previous == 0 {
        if size != capacity {
          var previousIndex := tail;
          Ring.EnqStep(buffer[..], head, tail, size, empty, item);
          tail := (tail + 1) % capacity;
          buffer[previousIndex] := item;
          size := size + 1;
          ok := true;
        }
        var _ := gate.Exchange(0);
      }
    }

    /**
     * With the flag free: refused (default item) when empty, otherwise returns
     * the item at `head`, clears that slot, advances `head` modulo the
     * capacity and counts one item fewer; the flag is free again afterwards.
     * With the flag taken: refused with the default item, nothing changes.
     */
    method Deq() returns (ok: bool, item: T)
      requires Valid()
      modifies this, buffer, gate
      ensures Valid()
      ensures gate.value == if old(gate.value) == 0 then 0 else 1
      ensures (if ok then Some(item) else None, Model())
           == if old(gate.value) == 0 then Fifo.Deq(old(Model())) else (None, old(Model()))
      ensures !ok ==> item == empty
      ensures ok == (old(gate.value) == 0 && old(size) != 0)
      ensures ok ==> item == old(Contents())[0] && Contents() == old(Contents())[1..]
      ensures !ok ==> Contents() == old(Contents())
      ensures ok ==> item == old(buffer[head]) && buffer[..] == old(buffer[..])[old(head) := empty]
                     && head == (old(head) + 1) % capacity && tail == old(tail) && size == old(size) - 1
      ensures !ok ==> buffer[..] == old(buffer[..]) && head == old(head)
                      && tail == old(tail) && size == old(size)
    {
      item := empty;
      ok := false;
      var previous := gate.Exchange(1);
      if previous == 0 {
        if size != 0 {
          Ring.DeqStep(buffer[..], head, tail, size, empty);
          item := buffer[head];
          buffer[head] := empty;
          head := (head + 1) % capacity;
          size := size - 1;
          ok := true;
        }
        var _ := gate.Exchange(0);
      }
    }

    /** A fresh array with the same slots, default values included. */
    method GetQueueCopy() returns (copy: array<T>)
      ensures fresh(copy) && copy[..] == buffer[..]
    {
      copy := new T[buffer.Length](i requires 0 <= i < buffer.Length reads buffer => buffer[i]);
    }

    /** The array snapshot the wrapper and the tests read; same as `GetQueueCopy`. */
    method GetPrivateArrayCopy() returns (copy: array<T>)
      ensures fresh(copy) && copy[..] == buffer[..]
    {
      copy := GetQueueCopy();
    }

    /** The number of stored items. */
    function GetPrivateSizeCopy(): (n: int)
      reads this, buffer
      requires Valid()
      ensures n == |Contents()| && 0 <= n <= capacity
    {
      size
    }
  }

  /** `new Queue<T>(capacity)`: a capacity that is not positive throws `ArgumentException`. */
  method Create<T(0)>(capacity: int, gate: Interlocked.Flag) returns (r: Result<Queue<T>>)
    ensures capacity <= 0 <==> r == Failure(ArgumentException)
    ensures r.Success? <==> 0 < capacity
    ensures r.Success? ==> fresh(r.value) && r.value.Valid() && r.value.gate == gate
                           && r.value.Model() == Fifo.Empty(capacity)
  {
    if capacity <= 0 {
      return Failure(ArgumentException);
    }
    var q := new Queue<T>(capacity, gate);
    return Success(q);
  }
}
