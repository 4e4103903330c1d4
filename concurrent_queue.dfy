/**
 * `ConcurrentQueue<T>`: a wrapper that owns a private copy of a
 * `RingBuffer.Queue<T>` and serialises access to it with its own
 * `_usingResource` flag. The model is sequential: the flag is state that
 * only these operations change, so an operation either finds it free and
 * takes it, or finds it held for its whole retry budget and gives up.
 */
module RingBufferConcurrent {
  import opened Outcomes
  import Fifo
  import Interlocked
  import Collections
  import RingBufferQueue
  import Ring

  /** The value `TryEnq`, `TryDeq` and `TryDeqAll` store in the flag while they hold it. */
  const BusyTag := 2
  /** The value the lazy drain stores in the flag while it holds it. */
  const LazyTag := 3

  /**
   * The bounded acquire loop of `TryEnq`/`TryDeq` (limit 5) and `TryDeqAll`
   * (limit 2): try the flag while a counter runs down from 5 to -1, then keep
   * trying while it climbs back up, and give up once it has passed `limit`.
   * A failed exchange still writes the tag. With the flag held throughout, it
   * gives up after exactly `limit + 11` exchanges.
   */
  method SpinAcquire(flag: Interlocked.Flag, limit: int) returns (acquired: bool)
    requires 0 <= limit
    modifies flag
    ensures acquired == (old(flag.value) == 0)
    ensures flag.value == BusyTag
    ensures flag.exchanges == old(flag.exchanges) + if acquired then 1 else limit + 11
  {
    acquired := true;
    var count := 5;
    var previous := flag.Exchange(BusyTag);
    while previous != 0
      invariant -1 <= count <= 5
      invariant flag.value == BusyTag
      invariant count == 5 ==> previous == old(flag.value)
      invariant count < 5 ==> previous == BusyTag && old(flag.value) != 0
      invariant flag.exchanges == old(flag.exchanges) + 6 - count
      decreases count + 1
    {
      count := count - 1;
      if count + 1 < 0 {
        previous := flag.Exchange(BusyTag);
        while previous != 0
          invariant -2 <= count <= limit + 1
          invariant flag.value == BusyTag && previous == BusyTag
          invariant flag.exchanges == old(flag.exchanges) + 10 + count
          decreases limit + 1 - count
        {
          count := count + 1;
          if count - 1 > limit {
            acquired := false;
            return;
          }
          previous := flag.Exchange(BusyTag);
        }
        break;
      }
      previous := flag.Exchange(BusyTag);
    }
  }

  class ConcurrentQueue<T(0)> {
    const queue: RingBufferQueue.Queue<T>
    const usingResource: Interlocked.Flag

    ghost predicate Valid()
      reads this, queue, queue.buffer
    {
      queue.Valid() && usingResource != queue.gate
    }

    /** Stores a copy of `original`; the wrapper never touches `original` again. */
    constructor (original: RingBufferQueue.Queue<T>)
      requires original.Valid()
      ensures Valid() && fresh(queue) && fresh(queue.buffer) && fresh(usingResource)
      ensures queue.Model() == original.Model() && queue.buffer[..] == original.buffer[..]
      ensures queue.gate == original.gate && usingResource.value == 0
      ensures queue.head == original.head && queue.tail == original.tail && queue.size == original.size
    {
      queue := new RingBufferQueue.Queue.Copy(original);
      usingResource := new Interlocked.Flag(0);
    }

    /**
     * With the flag free: the inner `Enq`'s result and effect, and the flag is
     * free again. With the flag held: refused after the bounded retries, the
     * queue untouched and the flag still held.
     */
    method TryEnq(item: T) returns (ok: bool)
      requires Valid()
      modifies usingResource, queue, queue.buffer, queue.gate
      ensures Valid() && queue.head == old(queue.head)
      ensures old(usingResource.value) != 0 ==>
        !ok && usingResource.value == BusyTag && unchanged(queue, queue.buffer, queue.gate)
      ensures old(usingResource.value) == 0 ==>
        usingResource.value == 0 && queue.gate.value == (if old(queue.gate.value) == 0 then 0 else 1)
      ensures old(usingResource.value) == 0 ==>
        ok == (old(queue.gate.value) == 0 && |old(queue.Contents())| != queue.capacity)
      ensures queue.Contents() == if ok then old(queue.Contents()) + [item] else old(queue.Contents())
    {
      var acquired := SpinAcquire(usingResource, 5);
      if !acquired {
        return false;
      }
      ok := queue.Enq(item);
      var _ := usingResource.Exchange(0);
    }

    /**
     * With the flag free: the inner `Deq`'s result and effect, and the flag is
     * free again. With the flag held: refused with the default item after the
     * bounded retries, the queue untouched and the flag still held.
     */
    method TryDeq() returns (ok: bool, item: T)
      requires Valid()
      modifies usingResource, queue, queue.buffer, queue.gate
      ensures Valid()
      ensures old(usingResource.value) != 0 ==>
        !ok && usingResource.value == BusyTag && unchanged(queue, queue.buffer, queue.gate)
      ensures old(usingResource.value) == 0 ==>
        usingResource.value == 0 && queue.gate.value == (if old(queue.gate.value) == 0 then 0 else 1)
      ensures old(usingResource.value) == 0 ==>
        ok == (old(queue.gate.value) == 0 && old(queue.Contents()) != [])
      ensures ok ==> item == old(queue.Contents())[0] && queue.Contents() == old(queue.Contents())[1..]
      ensures !ok ==> item == queue.empty && queue.Contents() == old(queue.Contents())
    {
      item := queue.empty;
      var acquired := SpinAcquire(usingResource, 5);
      if !acquired {
        return false, item;
      }
      ok, item := queue.Deq();
      var _ := usingResource.Exchange(0);
    }

    /**
     * With the flag free: appends every stored item to `list`, oldest first,
     * leaves the queue empty (every slot back to the default value) and
     * frees the flag. With the flag held: gives up after the bounded retries
     * and changes neither `list` nor the queue. The shared gate of the inner
     * queue must be free, as it always is between operations: otherwise the
     * inner `Deq` fails forever and the drain never ends.
     */
    method TryDeqAll(list: Collections.List<T>)
      requires Valid() && queue.gate.value == 0
      modifies usingResource, queue, queue.buffer, queue.gate, list
      ensures Valid() && queue.gate.value == 0
      ensures usingResource.value == if old(usingResource.value) == 0 then 0 else BusyTag
      ensures old(usingResource.value) == 0 ==>
        list.items == old(list.items) + old(queue.Contents()) &&
        queue.Model() == Fifo.Drain(old(queue.Model())).1 &&
        forall i :: 0 <= i < queue.buffer.Length ==> queue.buffer[i] == queue.empty
      ensures old(usingResource.value) != 0 ==>
        list.items == old(list.items) && unchanged(queue, queue.buffer, queue.gate)
    {
      var acquired := SpinAcquire(usingResource, 2);
      if !acquired {
        return;
      }
      DrainInto(list);
      var _ := usingResource.Exchange(0);
    }

    /** The body of `TryDeqAll` once the flag is held: dequeue into `list` until the queue is empty. */
    method DrainInto(list: Collections.List<T>)
      requires Valid() && queue.gate.value == 0
      modifies queue, queue.buffer, queue.gate, list
      ensures Valid() && queue.gate.value == 0
      ensures list.items == old(list.items) + old(queue.Contents())
      ensures queue.Model() == Fifo.Drain(old(queue.Model())).1
      ensures forall i :: 0 <= i < queue.buffer.Length ==> queue.buffer[i] == queue.empty
    {
      ghost var start := queue.Contents();
      ghost var k := 0;
      while queue.GetPrivateSizeCopy() > 0
        invariant queue.Valid() && queue.gate.value == 0
        invariant 0 <= k <= |start| && queue.Contents() == start[k..]
        invariant list.items == old(list.items) + start[..k]
        decreases queue.size
      {
        assert start[..k + 1] == start[..k] + [start[k]];
        assert start[k + 1..] == start[k..][1..];
        var item := TakeFront();
        list.Add(item);
        k := k + 1;
      }
      Ring.EmptyLayout(queue.buffer[..], queue.head, queue.tail, queue.empty);
    }

    /** One inner `Deq` on a non-empty queue with the gate free: it hands out the front item. */
    method TakeFront() returns (item: T)
      requires Valid() && queue.gate.value == 0 && queue.Contents() != []
      modifies queue, queue.buffer, queue.gate
      ensures Valid() && queue.gate.value == 0
      ensures [item] + queue.Contents() == old(queue.Contents())
      ensures queue.size < old(queue.size)
    {
      var _, taken := queue.Deq();
      item := taken;
    }

    /** `TryDeqAllLazy()`: a drain that does nothing until it is first advanced. */
    method TryDeqAllLazy() returns (drain: LazyDrain<T>)
      requires Valid()
      ensures fresh(drain) && drain.owner == this && drain.phase == NotStarted
    {
      drain := new LazyDrain(this);
    }

    /** Forwards to the inner queue; changes nothing. */
    method GetPrivateArrayCopy() returns (copy: array<T>)
      ensures fresh(copy) && copy[..] == queue.buffer[..]
    {
      copy := queue.GetPrivateArrayCopy();
    }

    /** Forwards to the inner queue: the number of stored items. */
    function GetPrivateSizeCopy(): (n: int)
      reads this, queue, queue.buffer
      requires Valid()
      ensures n == |queue.Contents()| && 0 <= n <= queue.capacity
    {
      queue.GetPrivateSizeCopy()
    }
  }

  /** Where the lazy drain's generator body is suspended. */
  datatype Phase = NotStarted | Draining | Finished

  /**
   * The generator behind `TryDeqAllLazy`, as an explicit state machine. The
   * first `MoveNext` takes the flag; each `MoveNext` that finds an item
   * dequeues it into `current`; the one that finds the queue empty frees the
   * flag and finishes. Between those two steps the drain never reads or
   * writes the flag, so whatever another operation leaves there in the
   * meantime does not stop it.
   */
  class LazyDrain<T(0)> {
    const owner: ConcurrentQueue<T>
    var phase: Phase
    var current: T

    ghost predicate Valid()
      reads this, owner, owner.queue, owner.queue.buffer
    {
      owner.Valid()
    }

    constructor (owner: ConcurrentQueue<T>)
      requires owner.Valid()
      ensures this.owner == owner && phase == NotStarted
    {
      this.owner := owner;
      phase := NotStarted;
      current := owner.queue.empty;
    }

    /**
     * Advance the drain. The acquire spin on the first call has no bound, so
     * the flag must be free then; the inner queue's shared gate must be free
     * as it always is between operations.
     */
    method MoveNext() returns (more: bool)
      requires Valid() && owner.queue.gate.value == 0
      requires phase == NotStarted ==> owner.usingResource.value == 0
      modifies this, owner.usingResource, owner.queue, owner.queue.buffer, owner.queue.gate
      ensures Valid() && owner.queue.gate.value == 0
      ensures old(phase) == Finished ==>
        !more && phase == Finished && unchanged(owner.queue, owner.queue.buffer, owner.usingResource)
      ensures old(phase) == NotStarted && more ==> owner.usingResource.value == LazyTag
      ensures old(phase) == Draining && more ==> owner.usingResource.value == old(owner.usingResource.value)
      ensures old(phase) != Finished && old(owner.queue.Contents()) != [] ==>
        more && phase == Draining && [current] + owner.queue.Contents() == old(owner.queue.Contents())
      ensures old(phase) != Finished && old(owner.queue.Contents()) == [] ==>
        !more && phase == Finished && owner.usingResource.value == 0 && owner.queue.Contents() == []
    {
      if phase == Finished {
        return false;
      }
      if phase == NotStarted {
        // The acquire spin: its first exchange finds the flag free.
        var _ := owner.usingResource.Exchange(LazyTag);
        phase := Draining;
      }
      more := TakeNext();
    }

    /** One pass of the generator's loop once the flag is held: yield the next item, or free the flag and finish. */
    method TakeNext() returns (more: bool)
      requires Valid() && owner.queue.gate.value == 0 && phase == Draining
      modifies this, owner.usingResource, owner.queue, owner.queue.buffer, owner.queue.gate
      ensures Valid() && owner.queue.gate.value == 0
      ensures old(owner.queue.Contents()) != [] ==>
        more && phase == Draining && [current] + owner.queue.Contents() == old(owner.queue.Contents()) &&
        owner.usingResource.value == old(owner.usingResource.value)
      ensures old(owner.queue.Contents()) == [] ==>
        !more && phase == Finished && owner.usingResource.value == 0 && owner.queue.Contents() == []
    {
      if owner.queue.GetPrivateSizeCopy() > 0 {
        current := owner.TakeFront();
        return true;
      }
      var _ := owner.usingResource.Exchange(0);
      phase := Finished;
      return false;
    }

    /**
     * `Dispose` as compiled from `TryDeqAllLazy`, which has no `finally`: a
     * `foreach` left early ends the drain but never frees the flag.
     */
    method DisposeAsWritten()
      modifies this
      ensures phase == Finished
    {
      phase := Finished;
    }

    /**
     * `Dispose` with the release of the flag in a `finally`: a drain left
     * while it holds the flag frees it; otherwise the flag is not touched.
     */
    method Dispose()
      requires Valid()
      modifies this, owner.usingResource
      ensures Valid() && phase == Finished
      ensures old(phase) == Draining ==> owner.usingResource.value == 0
      ensures old(phase) != Draining ==> owner.usingResource.value == old(owner.usingResource.value)
    {
      if phase == Draining {
        var _ := owner.usingResource.Exchange(0);
      }
      phase := Finished;
    }
  }

  /**
   * A `foreach` over `TryDeqAllLazy()` run to exhaustion and then disposed
   * as compiled: yields the stored items oldest first, empties the queue and
   * leaves the flag free, since the exhausting step already freed it.
   */
  method EnumerateLazyDrain<T(0)>(cq: ConcurrentQueue<T>) returns (items: seq<T>)
    requires cq.Valid() && cq.queue.gate.value == 0 && cq.usingResource.value == 0
    modifies cq.usingResource, cq.queue, cq.queue.buffer, cq.queue.gate
    ensures cq.Valid() && cq.queue.gate.value == 0 && cq.usingResource.value == 0
    ensures (items, cq.queue.Model()) == Fifo.Drain(old(cq.queue.Model()))
  {
    ghost var start := cq.queue.Contents();
    var drain := cq.TryDeqAllLazy();
    items := [];
    var more := drain.MoveNext();
    while more
      invariant drain.owner == cq && drain.Valid() && cq.queue.gate.value == 0
      invariant |items| <= |start| && items == start[..|items|]
      invariant more ==> drain.phase == Draining && |items| < |start| &&
                         [drain.current] + cq.queue.Contents() == start[|items|..]
      invariant !more ==> drain.phase == Finished && cq.usingResource.value == 0 &&
                          cq.queue.Contents() == [] && items == start
      decreases more, cq.queue.size
    {
      ghost var k := |items|;
      assert start[..k + 1] == start[..k] + [start[k]];
      assert start[k + 1..] == start[k..][1..];
      items := items + [drain.current];
      more := drain.MoveNext();
    }
    drain.DisposeAsWritten();
  }

  /** `new ConcurrentQueue<T>(queue)`: a null queue throws `NullReferenceException`. */
  method Create<T(0)>(original: RingBufferQueue.Queue?<T>) returns (r: Result<ConcurrentQueue<T>>)
    requires original != null ==> original.Valid()
    ensures original == null <==> r == Failure(NullReferenceException)
    ensures r.Success? <==> original != null
    ensures r.Success? ==> fresh(r.value) && r.value.Valid() && r.value.queue.Model() == original.Model()
  {
    if original == null {
      return Failure(NullReferenceException);
    }
    var cq := new ConcurrentQueue(original);
    return Success(cq);
  }
}
