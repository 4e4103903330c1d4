/**
 * The abstract queue that all three ring buffers implement: a capacity and
 * the stored items, oldest first. Enqueue is refused on a full queue and
 * dequeue on an empty one; neither is an error.
 */
module Fifo {
  import opened Outcomes

  datatype BoundedQueue<T> = BoundedQueue(capacity: int, items: seq<T>)
  {
    predicate Valid() {
      |items| <= capacity
    }
  }

  function Empty<T>(capacity: int): BoundedQueue<T> {
    BoundedQueue(capacity, [])
  }

  /** Add `x` at the back; refused (false, unchanged) when the queue holds `capacity` items. */
  function Enq<T>(q: BoundedQueue<T>, x: T): (r: (bool, BoundedQueue<T>))
    ensures q.Valid() ==> r.1.Valid()
    ensures r.1.capacity == q.capacity
  {
    if |q.items| == q.capacity then (false, q)
    else (true, BoundedQueue(q.capacity, q.items + [x]))
  }

  /** Remove the front item; None (and unchanged) when the queue is empty. */
  function Deq<T>(q: BoundedQueue<T>): (r: (Option<T>, BoundedQueue<T>))
    ensures q.Valid() ==> r.1.Valid()
    ensures r.1.capacity == q.capacity
    ensures |r.1.items| == if r.0.Some? then |q.items| - 1 else |q.items|
  {
    if |q.items| == 0 then (None, q)
    else (Some(q.items[0]), BoundedQueue(q.capacity, q.items[1..]))
  }

  /** Take every stored item at once, leaving the queue empty. */
  function Drain<T>(q: BoundedQueue<T>): (r: (seq<T>, BoundedQueue<T>))
    ensures r.1.items == [] && r.1.capacity == q.capacity
    ensures r.0 + r.1.items == q.items
  {
    (q.items, BoundedQueue(q.capacity, []))
  }

  /** Dequeue one item at a time until the queue reports empty, collecting the items. */
  function DeqUntilEmpty<T>(q: BoundedQueue<T>): (r: (seq<T>, BoundedQueue<T>))
    decreases |q.items|
  {
    var (item, rest) := Deq(q);
    match item
    case None => ([], rest)
    case Some(x) =>
      var (more, last) := DeqUntilEmpty(rest);
      ([x] + more, last)
  }

  /** Repeated single dequeues drain exactly what a bulk drain takes, in the same order. */
  lemma {:induction false} DeqUntilEmptyIsDrain<T>(q: BoundedQueue<T>)
    ensures DeqUntilEmpty(q) == Drain(q)
    decreases |q.items|
  {
    if |q.items| > 0 {
      DeqUntilEmptyIsDrain(Deq(q).1);
      assert q.items == [q.items[0]] + q.items[1..];
    }
  }

  /** Enqueue every item of `xs` in turn, recording which were accepted. */
  function EnqAll<T>(q: BoundedQueue<T>, xs: seq<T>): (r: (seq<bool>, BoundedQueue<T>))
    decreases |xs|
  {
    if xs == [] then ([], q)
    else
      var (ok, next) := Enq(q, xs[0]);
      var (oks, last) := EnqAll(next, xs[1..]);
      ([ok] + oks, last)
  }

  /** While there is room every enqueue is accepted and the items land at the back in order. */
  lemma {:induction false} EnqAllWithRoom<T>(q: BoundedQueue<T>, xs: seq<T>)
    requires q.Valid()
    requires |q.items| + |xs| <= q.capacity
    ensures EnqAll(q, xs).0 == seq(|xs|, _ => true)
    ensures EnqAll(q, xs).1 == BoundedQueue(q.capacity, q.items + xs)
    decreases |xs|
  {
    if xs != [] {
      var next := Enq(q, xs[0]).1;
      EnqAllWithRoom(next, xs[1..]);
      assert next.items + xs[1..] == q.items + xs;
    }
  }

  /** Once the queue is full every further enqueue is refused and nothing changes. */
  lemma {:induction false} EnqAllWhenFull<T>(q: BoundedQueue<T>, xs: seq<T>)
    requires |q.items| == q.capacity
    ensures EnqAll(q, xs) == (seq(|xs|, _ => false), q)
    decreases |xs|
  {
    if xs != [] {
      assert Enq(q, xs[0]) == (false, q);
      EnqAllWhenFull(q, xs[1..]);
      assert EnqAll(q, xs) == ([false] + EnqAll(q, xs[1..]).0, q);
      assert [false] + seq(|xs| - 1, _ => false) == seq(|xs|, _ => false);
    } else {
      assert seq(|xs|, _ => false) == [];
    }
  }

  /**
   * Filling an empty queue of capacity n with n items accepts all of them,
   * refuses everything offered afterwards, and draining then returns the n
   * items in the order they were offered.
   */
  lemma FillRejectDrain<T>(xs: seq<T>, extra: seq<T>)
    ensures EnqAll(Empty(|xs|), xs).0 == seq(|xs|, _ => true)
    ensures EnqAll(EnqAll(Empty(|xs|), xs).1, extra).0 == seq(|extra|, _ => false)
    ensures DeqUntilEmpty(EnqAll(EnqAll(Empty(|xs|), xs).1, extra).1).0 == xs
  {
    var full := EnqAll(Empty<T>(|xs|), xs).1;
    EnqAllWithRoom(Empty<T>(|xs|), xs);
    EnqAllWhenFull(full, extra);
    DeqUntilEmptyIsDrain(full);
  }

  /** Enqueue and dequeue commute on a queue that is neither empty nor full. */
  lemma EnqDeqCommute<T>(q: BoundedQueue<T>, x: T)
    requires 0 < |q.items| < q.capacity
    ensures Deq(Enq(q, x).1) == (Some(q.items[0]), Enq(Deq(q).1, x).1)
  {
    assert (q.items + [x])[1..] == q.items[1..] + [x];
  }

  /** One step a client of the queue can take. */
  datatype Op<T> = Put(x: T) | Take | TakeAll

  /** What a run of operations did: the final queue, the items accepted and the items handed out. */
  datatype Trace<T> = Trace(queue: BoundedQueue<T>, accepted: seq<T>, delivered: seq<T>)

  function Step<T>(q: BoundedQueue<T>, op: Op<T>): (r: Trace<T>)
    ensures q.Valid() ==> r.queue.Valid() && r.queue.capacity == q.capacity
    ensures r.delivered + r.queue.items == q.items + r.accepted
  {
    match op
    case Put(x) =>
      var (ok, next) := Enq(q, x);
      Trace(next, if ok then [x] else [], [])
    case Take =>
      var (item, next) := Deq(q);
      Trace(next, [], if item.Some? then [item.value] else [])
    case TakeAll =>
      var (items, next) := Drain(q);
      Trace(next, [], items)
  }

  function Run<T>(q: BoundedQueue<T>, ops: seq<Op<T>>): (r: Trace<T>)
    decreases |ops|
  {
    if ops == [] then Trace(q, [], [])
    else
      var first := Step(q, ops[0]);
      var rest := Run(first.queue, ops[1..]);
      Trace(rest.queue, first.accepted + rest.accepted, first.delivered + rest.delivered)
  }

  /**
   * No item is lost or duplicated: what was delivered, followed by what is
   * still stored, is what was stored at the start followed by everything
   * accepted, in order; the capacity bound holds throughout.
   */
  lemma {:induction false} RunConserves<T>(q: BoundedQueue<T>, ops: seq<Op<T>>)
    requires q.Valid()
    ensures Run(q, ops).queue.Valid()
    ensures Run(q, ops).queue.capacity == q.capacity
    ensures Run(q, ops).delivered + Run(q, ops).queue.items == q.items + Run(q, ops).accepted
    decreases |ops|
  {
    if ops != [] {
      var first := Step(q, ops[0]);
      RunConserves(first.queue, ops[1..]);
      var rest := Run(first.queue, ops[1..]);
      calc {
        first.delivered + rest.delivered + rest.queue.items;
        first.delivered + (first.queue.items + rest.accepted);
        (first.delivered + first.queue.items) + rest.accepted;
        (q.items + first.accepted) + rest.accepted;
      }
    }
  }

  /**
   * Bulk-drain completeness: starting empty, any mix of enqueues, single
   * dequeues and drains followed by one final drain delivers exactly the
   * accepted items, in order; without that final drain the last batch is
   * still in the queue.
   */
  lemma FinalDrainDeliversAll<T>(capacity: nat, ops: seq<Op<T>>)
    ensures Run(Empty(capacity), ops + [TakeAll]).delivered == Run(Empty(capacity), ops).accepted
    ensures Run(Empty(capacity), ops).delivered + Run(Empty(capacity), ops).queue.items
         == Run(Empty(capacity), ops).accepted
  {
    var q := Empty<T>(capacity);
    RunConserves(q, ops);
    RunAppend(q, ops, [TakeAll]);
    var t := Run(q, ops);
    assert Run(t.queue, [TakeAll]).delivered == t.queue.items;
  }

  /** Running two lists of operations one after the other is running their concatenation. */
  lemma {:induction false} RunAppend<T>(q: BoundedQueue<T>, ops: seq<Op<T>>, more: seq<Op<T>>)
    ensures var a := Run(q, ops); var b := Run(a.queue, more);
      Run(q, ops + more) == Trace(b.queue, a.accepted + b.accepted, a.delivered + b.delivered)
    decreases |ops|
  {
    if ops == [] {
      assert ops + more == more;
    } else {
      var first := Step(q, ops[0]);
      assert (ops + more)[0] == ops[0];
      assert (ops + more)[1..] == ops[1..] + more;
      RunAppend(first.queue, ops[1..], more);
      var a := Run(first.queue, ops[1..]);
      var b := Run(a.queue, more);
      assert Run(q, ops + more)
          == Trace(b.queue, first.accepted + (a.accepted + b.accepted), first.delivered + (a.delivered + b.delivered));
      assert first.accepted + (a.accepted + b.accepted) == (first.accepted + a.accepted) + b.accepted;
      assert first.delivered + (a.delivered + b.delivered) == (first.delivered + a.delivered) + b.delivered;
    }
  }

  /** Every operation in `ops` offers `x` or takes a single item. */
  ghost predicate OnlyPutOrTake<T>(ops: seq<Op<T>>, x: T) {
    forall i :: 0 <= i < |ops| ==> ops[i] == Put(x) || ops[i] == Take
  }

  /** A queue that only ever receives `x` only ever holds `x`. */
  lemma {:induction false} RunKeepsOnly<T>(q: BoundedQueue<T>, ops: seq<Op<T>>, x: T)
    requires forall i :: 0 <= i < |q.items| ==> q.items[i] == x
    requires OnlyPutOrTake(ops, x)
    ensures forall i :: 0 <= i < |Run(q, ops).queue.items| ==> Run(q, ops).queue.items[i] == x
    decreases |ops|
  {
    if ops != [] {
      var next := Step(q, ops[0]).queue;
      assert forall i :: 0 <= i < |next.items| ==> next.items[i] == x by {
        if ops[0] == Take && |q.items| > 0 {
          assert next.items == q.items[1..];
        }
      }
      RunKeepsOnly(next, ops[1..], x);
    }
  }

  /** On a queue with room whose items are all `x`, offering `x` and then dequeuing delivers `x`. */
  lemma RefillDelivers<T>(q: BoundedQueue<T>, x: T)
    requires |q.items| < q.capacity
    requires forall i :: 0 <= i < |q.items| ==> q.items[i] == x
    ensures Run(q, [Put(x), Take]).delivered == [x]
  {
    var q1 := Step(q, Put(x)).queue;
    assert q1.items == q.items + [x];
    var justTake: seq<Op<T>> := [Take];
    assert Run(q1, justTake).delivered == [q1.items[0]] by {
      assert justTake[1..] == [];
    }
    assert [Put(x), Take][1..] == justTake;
  }

  /** After any mix of offering `x` and single dequeues, three more dequeues leave room and only copies of `x`. */
  lemma ThreeTakesMakeRoom<T>(capacity: int, ops: seq<Op<T>>, x: T)
    requires capacity > 0 && OnlyPutOrTake(ops, x)
    ensures var m := Run(Empty(capacity), ops + [Take, Take, Take]).queue;
      |m.items| < m.capacity && forall i :: 0 <= i < |m.items| ==> m.items[i] == x
  {
    var q := Empty<T>(capacity);
    var pre := ops + [Take, Take];
    var pre3 := pre + [Take];
    assert pre3 == ops + [Take, Take, Take];
    assert OnlyPutOrTake(pre3, x);
    RunConserves(q, pre);
    RunAppend(q, pre, [Take]);
    var m := Run(q, pre).queue;
    var justTake: seq<Op<T>> := [Take];
    assert justTake[1..] == [];
    assert Run(q, pre3).queue == Step(m, Take).queue;
    RunKeepsOnly(q, pre3, x);
  }

  /**
   * The randomised regression: after any mix of offering `x` and single
   * dequeues on a queue of positive capacity, three more dequeues make room,
   * so offering `x` again is accepted and the next dequeue delivers `x`.
   */
  lemma RandomRunThenRefill<T>(capacity: int, ops: seq<Op<T>>, x: T)
    requires capacity > 0 && OnlyPutOrTake(ops, x)
    ensures var t := Run(Empty(capacity), ops + [Take, Take, Take, Put(x), Take]);
      |t.delivered| > 0 && t.delivered[|t.delivered| - 1] == x
    ensures Run(Run(Empty(capacity), ops + [Take, Take, Take]).queue, [Put(x), Take]).delivered == [x]
  {
    var q := Empty<T>(capacity);
    var pre3 := ops + [Take, Take, Take];
    ThreeTakesMakeRoom(capacity, ops, x);
    RefillDelivers(Run(q, pre3).queue, x);
    RunAppend(q, pre3, [Put(x), Take]);
    assert pre3 + [Put(x), Take] == ops + [Take, Take, Take, Put(x), Take];
  }
}
