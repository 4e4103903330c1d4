/**
 * The repository's unit tests, replayed as clients of the model: each
 * method runs the test's calls and its postcondition states what the test
 * asserts, proved from the operations' contracts alone.
 */
module Scenarios {
  import opened Outcomes
  import Interlocked
  import Collections
  import RingBufferQueue
  import RingBufferConcurrent
  import Ring

  /** Capacity zero or int.MinValue is rejected with `ArgumentException`. */
  method QueueRejectsNonPositiveCapacity() returns (zero: Result<RingBufferQueue.Queue<string>>, minimum: Result<RingBufferQueue.Queue<string>>)
    ensures zero == Failure(ArgumentException) && minimum == Failure(ArgumentException)
  {
    var gate := new Interlocked.Flag(0);
    zero := RingBufferQueue.Create<string>(0, gate);
    minimum := RingBufferQueue.Create<string>(-0x8000_0000, gate);
  }

  /** Enqueue 1..n into an empty queue of capacity n; every enqueue is accepted. */
  method FillAscending(q: RingBufferQueue.Queue<int>) returns (accepted: bool)
    requires q.Valid() && q.gate.value == 0 && q.head == 0 && q.Contents() == []
    modifies q, q.buffer, q.gate
    ensures q.Valid() && q.gate.value == 0 && q.head == 0
    ensures q.Contents() == seq(q.capacity, i => i + 1)
    ensures accepted
  {
    var testList := seq(q.capacity, i => i + 1);
    accepted := true;
    var i := 0;
    while i < q.capacity
      invariant 0 <= i <= q.capacity && q.Valid() && q.gate.value == 0
      invariant q.head == 0 && q.size == i && q.Contents() == testList[..i]
      invariant accepted
    {
      var ok := q.Enq(testList[i]);
      accepted := accepted && ok;
      assert testList[..i + 1] == testList[..i] + [testList[i]];
      i := i + 1;
    }
  }

  /** Dequeue as many times as the queue holds items: every dequeue succeeds and the items come out in order. */
  method TakeEverything(q: RingBufferQueue.Queue<int>) returns (oks: seq<bool>, results: seq<int>)
    requires q.Valid() && q.gate.value == 0
    modifies q, q.buffer, q.gate
    ensures q.Valid() && q.gate.value == 0 && q.Contents() == []
    ensures oks == seq(|results|, _ => true)
    ensures results == old(q.Contents())
  {
    ghost var start := q.Contents();
    var n := q.GetPrivateSizeCopy();
    oks, results := [], [];
    var i := 0;
    while i < n
      invariant 0 <= i <= n == |start| && q.Valid() && q.gate.value == 0
      invariant q.Contents() == start[i..] && results == start[..i]
      invariant oks == seq(i, _ => true)
    {
      var ok, r := q.Deq();
      assert start[..i + 1] == start[..i] + [start[i]];
      assert seq(i + 1, _ => true) == seq(i, _ => true) + [true];
      oks, results := oks + [ok], results + [r];
      i := i + 1;
    }
  }

  /**
   * Filling a queue of capacity n with 1..n accepts every item, the array
   * snapshot is then 1..n, and dequeuing n times returns 1..n in order.
   */
  method QueueEnqueuesAndDequeuesInOrder(capacity: int) returns (accepted: bool, snapshot: seq<int>, dequeued: seq<bool>, results: seq<int>)
    requires capacity > 0
    ensures accepted
    ensures snapshot == seq(capacity, i => i + 1)
    ensures dequeued == seq(capacity, _ => true)
    ensures results == seq(capacity, i => i + 1)
  {
    var gate := new Interlocked.Flag(0);
    var q := new RingBufferQueue.Queue<int>(capacity, gate);
    accepted := FillAscending(q);
    var copy := q.GetPrivateArrayCopy();
    snapshot := copy[..];
    assert q.buffer[..] == q.Contents();
    dequeued, results := TakeEverything(q);
  }

  /**
   * Once a queue of capacity n holds n items every further enqueue is
   * refused, and the array snapshot still holds the n items.
   */
  method QueueRefusesWhenFull(capacity: int) returns (accepted: seq<bool>, refused: seq<bool>, snapshot: seq<int>)
    requires capacity > 0
    ensures accepted == seq(capacity, _ => true)
    ensures refused == seq(capacity, _ => false)
    ensures snapshot == seq(capacity, _ => 1)
  {
    var gate := new Interlocked.Flag(0);
    var q := new RingBufferQueue.Queue<int>(capacity, gate);
    accepted := [];
    var i := 0;
    while i < capacity
      invariant 0 <= i <= capacity && q.Valid() && gate.value == 0
      invariant q.head == 0 && q.size == i && q.Contents() == seq(i, _ => 1)
      invariant accepted == seq(i, _ => true)
    {
      var ok := q.Enq(1);
      assert seq(i + 1, _ => 1) == seq(i, _ => 1) + [1];
      accepted := accepted + [ok];
      i := i + 1;
    }
    refused := [];
    i := 0;
    while i < capacity
      invariant 0 <= i <= capacity && q.Valid() && gate.value == 0
      invariant q.head == 0 && q.size == capacity && q.Contents() == seq(capacity, _ => 1)
      invariant refused == seq(i, _ => false)
    {
      var ok := q.Enq(1);
      assert seq(i + 1, _ => false) == refused + [false];
      refused := refused + [ok];
      i := i + 1;
    }
    var copy := q.GetPrivateArrayCopy();
    snapshot := copy[..];
    assert q.buffer[..] == q.Contents();
  }

  /**
   * Dequeuing from an empty queue fails every time; after one enqueue the
   * next dequeue returns that item and the one after fails again, handing
   * out the default value.
   */
  method QueueDequeuesOnlyWhatWasEnqueued(capacity: int) returns (earlyFailures: seq<bool>, first: int, secondOk: bool, second: int, empty: int)
    requires capacity > 0
    ensures earlyFailures == seq(capacity, _ => false)
    ensures first == 0x7fff_ffff && !secondOk && second == empty
  {
    var gate := new Interlocked.Flag(0);
    var q := new RingBufferQueue.Queue<int>(capacity, gate);
    empty := q.empty;
    earlyFailures := [];
    var i := 0;
    while i < capacity
      invariant 0 <= i <= capacity && q.Valid() && gate.value == 0
      invariant q.Contents() == [] && earlyFailures == seq(i, _ => false)
    {
      var ok, _ := q.Deq();
      earlyFailures := earlyFailures + [ok];
      i := i + 1;
    }
    var _ := q.Enq(0x7fff_ffff);
    var _, r := q.Deq();
    first := r;
    secondOk, second := q.Deq();
  }

  /**
   * The wrap-around regression: capacity 3, four enqueues (the fourth
   * refused), four dequeues (the fourth refused), then an enqueue whose item
   * the next dequeue returns.
   */
  method QueueWrapsAround() returns (enqueued: seq<bool>, dequeued: seq<bool>, result: string)
    ensures enqueued == [true, true, true, false] && dequeued == [true, true, true, false]
    ensures result == "A"
  {
    var gate := new Interlocked.Flag(0);
    var q := new RingBufferQueue.Queue<string>(3, gate);
    var e1 := q.Enq("A");
    var e2 := q.Enq("A");
    var e3 := q.Enq("A");
    var e4 := q.Enq("A");
    enqueued := [e1, e2, e3, e4];
    var d1, _ := q.Deq();
    var d2, _ := q.Deq();
    var d3, _ := q.Deq();
    var d4, _ := q.Deq();
    dequeued := [d1, d2, d3, d4];
    var _ := q.Enq("A");
    var _, r := q.Deq();
    result := r;
  }

  /** A wrapper cannot be built from a null queue. */
  method ConcurrentQueueRejectsNull() returns (r: Result<RingBufferConcurrent.ConcurrentQueue<string>>)
    ensures r == Failure(NullReferenceException)
  {
    r := RingBufferConcurrent.Create<string>(null);
  }

  /**
   * The wrapper works on its own copy: dequeuing from the original queue
   * afterwards does not take the wrapper's item. With capacity 1 the second
   * enqueue is refused, the first dequeue returns the first item and the
   * next one fails with the default value.
   */
  method ConcurrentQueueIndependentOfQueue() returns (first: string, secondOk: bool, second: string, empty: string)
    ensures first == "A" && !secondOk && second == empty
  {
    var gate := new Interlocked.Flag(0);
    var q := new RingBufferQueue.Queue<string>(1, gate);
    var cq := new RingBufferConcurrent.ConcurrentQueue(q);
    empty := cq.queue.empty;
    var _ := cq.TryEnq("A");
    var _ := cq.TryEnq("B");
    var _, _ := q.Deq();
    var _, r := cq.TryDeq();
    first := r;
    secondOk, second := cq.TryDeq();
  }

  /** The wrapper of an empty queue of capacity 3, both flags free. */
  ghost predicate FreshWrapper(cq: RingBufferConcurrent.ConcurrentQueue<string>)
    reads cq, cq.queue, cq.queue.buffer, cq.usingResource, cq.queue.gate
  {
    cq.Valid() && cq.queue.capacity == 3 && cq.queue.Contents() == []
    && cq.usingResource.value == 0 && cq.queue.gate.value == 0
  }

  /** Both flags free and the queue holds `items`. */
  ghost predicate Holding(cq: RingBufferConcurrent.ConcurrentQueue<string>, items: seq<string>)
    reads cq, cq.queue, cq.queue.buffer, cq.usingResource, cq.queue.gate
  {
    cq.Valid() && cq.queue.Contents() == items
    && cq.usingResource.value == 0 && cq.queue.gate.value == 0
  }

  /** `new ConcurrentQueue<string>(new Queue<string>(3))`, as every capacity-3 wrapper test begins. */
  method NewWrapper() returns (cq: RingBufferConcurrent.ConcurrentQueue<string>)
    ensures fresh(cq) && fresh(cq.usingResource) && fresh(cq.queue) && fresh(cq.queue.buffer) && fresh(cq.queue.gate)
    ensures FreshWrapper(cq) && cq.queue.head == 0
  {
    var gate := new Interlocked.Flag(0);
    var q := new RingBufferQueue.Queue<string>(3, gate);
    cq := new RingBufferConcurrent.ConcurrentQueue(q);
  }

  /** The shared opening of the wrapper tests: enqueue three items into the empty wrapper. */
  method FillThree(cq: RingBufferConcurrent.ConcurrentQueue<string>, x: string, y: string, z: string) returns (accepted: seq<bool>)
    requires FreshWrapper(cq)
    modifies cq.usingResource, cq.queue, cq.queue.buffer, cq.queue.gate
    ensures Holding(cq, [x, y, z]) && cq.queue.capacity == 3
    ensures cq.queue.head == old(cq.queue.head)
    ensures accepted == [true, true, true]
  {
    var r1 := cq.TryEnq(x);
    assert Holding(cq, [x]);
    var r2 := cq.TryEnq(y);
    assert Holding(cq, [x, y]);
    var r3 := cq.TryEnq(z);
    accepted := [r1, r2, r3];
  }

  /** Four dequeues from a wrapper holding three items: the last one fails. */
  method TakeThree(cq: RingBufferConcurrent.ConcurrentQueue<string>, x: string, y: string, z: string) returns (oks: seq<bool>, items: seq<string>, lastOk: bool)
    requires Holding(cq, [x, y, z])
    modifies cq.usingResource, cq.queue, cq.queue.buffer, cq.queue.gate
    ensures Holding(cq, [])
    ensures oks == [true, true, true] && items == [x, y, z] && !lastOk
  {
    var okA, a := cq.TryDeq();
    var okB, b := cq.TryDeq();
    var okC, c := cq.TryDeq();
    oks, items := [okA, okB, okC], [a, b, c];
    var ok4, _ := cq.TryDeq();
    lastOk := ok4;
  }

  /** Three enqueues into a full wrapper with both flags free: all are refused and the contents stay. */
  method OfferToFull(cq: RingBufferConcurrent.ConcurrentQueue<string>, x: string, y: string, z: string) returns (refused: seq<bool>)
    requires cq.Valid() && |cq.queue.Contents()| == cq.queue.capacity
    requires cq.usingResource.value == 0 && cq.queue.gate.value == 0
    modifies cq.usingResource, cq.queue, cq.queue.buffer, cq.queue.gate
    ensures Holding(cq, old(cq.queue.Contents())) && cq.queue.head == old(cq.queue.head)
    ensures refused == [false, false, false]
  {
    var r1 := cq.TryEnq(x);
    var r2 := cq.TryEnq(y);
    var r3 := cq.TryEnq(z);
    refused := [r1, r2, r3];
  }

  /**
   * Capacity 3: three enqueues succeed, three more are refused, and the
   * array snapshot is the three items in order.
   */
  method ConcurrentQueueRefusesWhenFull() returns (results: seq<bool>, snapshot: seq<string>)
    ensures results == [true, true, true, false, false, false]
    ensures snapshot == ["A", "B", "C"]
  {
    var cq := NewWrapper();
    var accepted := FillThree(cq, "A", "B", "C");
    var refused := OfferToFull(cq, "C", "B", "A");
    results := accepted + refused;
    var copy := cq.GetPrivateArrayCopy();
    snapshot := copy[..];
    assert cq.queue.head == 0 && cq.queue.size == 3 == cq.queue.buffer.Length;
    assert cq.queue.buffer[..] == cq.queue.buffer[0..3] == cq.queue.Contents();
  }

  /** Capacity 3: every dequeue on the empty wrapper fails. */
  method ConcurrentQueueEmptyDequeueFails() returns (early: seq<bool>)
    ensures early == [false, false, false, false]
  {
    var cq := NewWrapper();
    var f1, _ := cq.TryDeq();
    var f2, _ := cq.TryDeq();
    var f3, _ := cq.TryDeq();
    var f4, _ := cq.TryDeq();
    early := [f1, f2, f3, f4];
  }

  /**
   * Capacity 3: "A", "B" and the default value are accepted and "C" is
   * refused; three dequeues succeed and return them in order and the fourth fails;
   * every slot of the snapshot is then the default value.
   */
  method ConcurrentQueueDequeuesInOrder() returns (enqueued: seq<bool>, dequeued: seq<bool>, items: seq<string>, lastOk: bool, snapshot: seq<string>, empty: string)
    ensures enqueued == [true, true, true, false]
    ensures dequeued == [true, true, true] && items == ["A", "B", empty] && !lastOk
    ensures |snapshot| == 3 && forall i :: 0 <= i < 3 ==> snapshot[i] == empty
  {
    var cq := NewWrapper();
    empty := cq.queue.empty;
    var accepted := FillThree(cq, "A", "B", empty);
    var e4 := cq.TryEnq("C");
    enqueued := accepted + [e4];
    dequeued, items, lastOk := TakeThree(cq, "A", "B", empty);
    var copy := cq.GetPrivateArrayCopy();
    snapshot := copy[..];
    Ring.EmptyLayout(cq.queue.buffer[..], cq.queue.head, cq.queue.tail, cq.queue.empty);
  }

  /** A bulk drain into an empty list hands over every item in order. */
  method ConcurrentQueueDrainsIntoList() returns (drained: seq<string>)
    ensures drained == ["A", "B", "C"]
  {
    var cq := NewWrapper();
    var _ := FillThree(cq, "A", "B", "C");
    var list := new Collections.List<string>();
    cq.TryDeqAll(list);
    drained := list.items;
  }

  /**
   * Capacity 1: the second enqueue is refused, the first dequeue returns the
   * first item and the next one fails with the default value.
   */
  method ConcurrentQueueWorksAtCapacityOne() returns (first: string, secondOk: bool, second: string, empty: string)
    ensures first == "A" && !secondOk && second == empty
  {
    var gate := new Interlocked.Flag(0);
    var q := new RingBufferQueue.Queue<string>(1, gate);
    var cq := new RingBufferConcurrent.ConcurrentQueue(q);
    empty := cq.queue.empty;
    var _ := cq.TryEnq("A");
    var _ := cq.TryEnq("B");
    var _, r := cq.TryDeq();
    first := r;
    secondOk, second := cq.TryDeq();
  }

  /**
   * The closing steps of the load test on a capacity-1 wrapper: whatever the
   * load left stored, once every flag is free three dequeues empty it, so
   * the next enqueue is accepted and the dequeue after it returns `number`.
   */
  method ConcurrentQueueRecoversAfterLoad(cq: RingBufferConcurrent.ConcurrentQueue<int>, number: int) returns (result: int, size: int)
    requires cq.Valid() && cq.queue.capacity == 1
    requires cq.usingResource.value == 0 && cq.queue.gate.value == 0
    modifies cq.usingResource, cq.queue, cq.queue.buffer, cq.queue.gate
    ensures result == number && 0 <= size <= 1
  {
    var _, _ := cq.TryDeq();
    var _, _ := cq.TryDeq();
    var _, _ := cq.TryDeq();
    var _ := cq.TryEnq(number);
    var _, r := cq.TryDeq();
    result := r;
    size := cq.GetPrivateSizeCopy();
  }

  /** Fill the empty wrapper with three items and advance a lazy drain over it once. */
  method StartDrainOfThree(cq: RingBufferConcurrent.ConcurrentQueue<string>, x: string, y: string, z: string)
    returns (drain: RingBufferConcurrent.LazyDrain<string>, first: string)
    requires FreshWrapper(cq)
    modifies cq.usingResource, cq.queue, cq.queue.buffer, cq.queue.gate
    ensures fresh(drain) && drain.owner == cq && drain.phase == RingBufferConcurrent.Draining
    ensures cq.Valid() && cq.queue.Contents() == [y, z] && cq.queue.capacity == 3
    ensures cq.usingResource.value == RingBufferConcurrent.LazyTag && cq.queue.gate.value == 0
    ensures first == x
  {
    var _ := FillThree(cq, x, y, z);
    drain := cq.TryDeqAllLazy();
    var _ := drain.MoveNext();
    first := drain.current;
    assert ([first] + cq.queue.Contents())[0] == x;
    assert cq.queue.Contents() == ([first] + cq.queue.Contents())[1..];
  }

  /**
   * A lazy drain that has yielded "A" carries on after an enqueue inside the
   * loop body gave up on the flag the drain holds: the next step yields "B".
   */
  method LazyDrainSurvivesRefusedEnqueue() returns (first: string, accepted: bool, second: string)
    ensures first == "A" && !accepted && second == "B"
  {
    var cq := NewWrapper();
    var drain, x := StartDrainOfThree(cq, "A", "B", "C");
    first := x;
    accepted := cq.TryEnq("D");
    var _ := drain.MoveNext();
    second := drain.current;
    assert ([second] + cq.queue.Contents())[0] == "B";
  }

  /**
   * A `foreach` over the lazy drain left after its first item, with the
   * iterator disposed as compiled: the flag stays held, so the wrapper
   * refuses every later enqueue and dequeue although items are stored.
   */
  method AbandonedLazyDrainBlocksWrapper() returns (first: string, enqueued: bool, dequeued: bool, stored: int)
    ensures first == "A" && !enqueued && !dequeued && stored == 2
  {
    var cq := NewWrapper();
    var drain, x := StartDrainOfThree(cq, "A", "B", "C");
    first := x;
    drain.DisposeAsWritten();
    enqueued := cq.TryEnq("D");
    var ok, _ := cq.TryDeq();
    dequeued := ok;
    stored := cq.GetPrivateSizeCopy();
  }

  /**
   * The same early exit with the flag released on disposal: the wrapper
   * works again, accepting "D" and handing out "B" next.
   */
  method AbandonedLazyDrainDisposed() returns (first: string, enqueued: bool, next: string)
    ensures first == "A" && enqueued && next == "B"
  {
    var cq := NewWrapper();
    var drain, x := StartDrainOfThree(cq, "A", "B", "C");
    first := x;
    drain.Dispose();
    enqueued := cq.TryEnq("D");
    var _, r := cq.TryDeq();
    next := r;
  }
}
