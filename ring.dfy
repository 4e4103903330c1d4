/**
 * The array layout shared by the three ring buffers: `size` items stored
 * from slot `head` onwards, wrapping past the end of the array, `tail` the
 * next slot to write, and every slot outside that window holding the
 * element type's default value.
 */
module Ring {

  /** The default value of T, as found in a freshly allocated array. */
  method DefaultValue<T(0)>() returns (d: T)
  {
    var cell := new T[1];
    d := cell[0];
  }

  /** `head` and `size` describe a window inside an array of `capacity` slots. */
  predicate InRange(capacity: int, head: int, size: int) {
    0 <= size <= capacity &&
    (capacity == 0 ==> head == 0) &&
    (capacity > 0 ==> 0 <= head < capacity)
  }

  /** Slot `i` lies in the window of `size` slots starting at `head`. */
  predicate InWindow(i: int, head: int, size: int, capacity: int) {
    if head + size <= capacity then head <= i < head + size
    else head <= i || i < head + size - capacity
  }

  /** The stored items, oldest first. */
  function Window<T>(a: seq<T>, head: int, size: int): (w: seq<T>)
    requires InRange(|a|, head, size)
    ensures |w| == size
  {
    if head + size <= |a| then a[head..head + size]
    else a[head..] + a[..head + size - |a|]
  }

  /**
   * The representation invariant: counts in range, `tail == (head + size) % capacity`,
   * and the default value in every slot outside the window.
   */
  ghost predicate Layout<T>(a: seq<T>, head: int, tail: int, size: int, empty: T) {
    InRange(|a|, head, size) &&
    (|a| == 0 ==> tail == 0) &&
    (|a| > 0 ==> 0 <= tail < |a| && tail == (head + size) % |a|) &&
    forall i :: 0 <= i < |a| && !InWindow(i, head, size, |a|) ==> a[i] == empty
  }

  /** `%` on a value below twice the modulus is at most one subtraction. */
  lemma ModOnce(x: int, n: int)
    requires 0 < n && 0 <= x < 2 * n
    ensures x % n == if x < n then x else x - n
  {
  }

  /** The k-th stored item sits in slot (head + k) % capacity. */
  lemma WindowAt<T>(a: seq<T>, head: int, size: int, k: int)
    requires InRange(|a|, head, size) && 0 <= k < size
    ensures Window(a, head, size)[k] == a[Slot(head, k, |a|)]
  {
    ModOnce(head + k, |a|);
  }

  /** The slot that holds the k-th stored item. */
  function Slot(head: int, k: int, capacity: int): int
    requires capacity > 0
  {
    (head + k) % capacity
  }

  /** The occupied slots are exactly { (head + k) % capacity : 0 <= k < size }. */
  lemma OccupiedSlots(capacity: int, head: int, size: int, i: int)
    requires InRange(capacity, head, size) && 0 <= i < capacity
    ensures InWindow(i, head, size, capacity) <==>
            exists k :: 0 <= k < size && Slot(head, k, capacity) == i
  {
    if InWindow(i, head, size, capacity) {
      var k := if i >= head then i - head else i + capacity - head;
      ModOnce(head + k, capacity);
      assert Slot(head, k, capacity) == i;
    }
    if exists k :: 0 <= k < size && Slot(head, k, capacity) == i {
      var k :| 0 <= k < size && Slot(head, k, capacity) == i;
      ModOnce(head + k, capacity);
    }
  }

  /** A freshly allocated array is an empty ring with head and tail at slot 0. */
  lemma FreshLayout<T>(a: seq<T>, empty: T)
    requires forall i :: 0 <= i < |a| ==> a[i] == empty
    ensures Layout(a, 0, 0, 0, empty) && Window(a, 0, 0) == []
  {
  }

  /**
   * Enqueue step: writing `x` at `tail` and advancing `tail` modulo the
   * capacity keeps the layout and appends `x` to the stored items.
   */
  lemma EnqStep<T>(a: seq<T>, head: int, tail: int, size: int, empty: T, x: T)
    requires Layout(a, head, tail, size, empty) && size < |a|
    ensures Layout(a[tail := x], head, (tail + 1) % |a|, size + 1, empty)
    ensures Window(a[tail := x], head, size + 1) == Window(a, head, size) + [x]
  {
    var n := |a|;
    var b := a[tail := x];
    ModOnce(head + size, n);
    ModOnce(tail + 1, n);
    ModOnce(head + size + 1, n);
    assert tail == if head + size < n then head + size else head + size - n;
    forall i | 0 <= i < n && !InWindow(i, head, size + 1, n)
      ensures b[i] == empty
    {
      assert i != tail && !InWindow(i, head, size, n);
    }
    var w, v := Window(a, head, size), Window(b, head, size + 1);
    forall k | 0 <= k < size + 1
      ensures v[k] == (w + [x])[k]
    {
      WindowAt(b, head, size + 1, k);
      ModOnce(head + k, n);
      if k < size {
        WindowAt(a, head, size, k);
      }
    }
  }

  /**
   * Dequeue step: the item at `head` is the oldest stored item; clearing that
   * slot and advancing `head` modulo the capacity keeps the layout and drops
   * the oldest item.
   */
  lemma DeqStep<T>(a: seq<T>, head: int, tail: int, size: int, empty: T)
    requires Layout(a, head, tail, size, empty) && 0 < size
    ensures a[head] == Window(a, head, size)[0]
    ensures Layout(a[head := empty], (head + 1) % |a|, tail, size - 1, empty)
    ensures Window(a[head := empty], (head + 1) % |a|, size - 1) == Window(a, head, size)[1..]
  {
    DeqKeepsLayout(a, head, tail, size, empty);
    DeqDropsOldest(a, head, size, empty);
  }

  /** The layout half of the dequeue step. */
  lemma DeqKeepsLayout<T>(a: seq<T>, head: int, tail: int, size: int, empty: T)
    requires Layout(a, head, tail, size, empty) && 0 < size
    ensures Layout(a[head := empty], (head + 1) % |a|, tail, size - 1, empty)
  {
    var n := |a|;
    var b := a[head := empty];
    var h := (head + 1) % n;
    ModOnce(head + 1, n);
    ModOnce(head + size, n);
    ModOnce(h + size - 1, n);
    forall i | 0 <= i < n && !InWindow(i, h, size - 1, n)
      ensures b[i] == empty
    {
      if i != head {
        assert !InWindow(i, head, size, n);
      }
    }
  }

  /** The window half of the dequeue step: whatever is written at `head`, the rest of the window moves up by one. */
  lemma DeqDropsOldest<T>(a: seq<T>, head: int, size: int, e: T)
    requires InRange(|a|, head, size) && 0 < size
    ensures a[head] == Window(a, head, size)[0]
    ensures Window(a[head := e], (head + 1) % |a|, size - 1) == Window(a, head, size)[1..]
  {
    var n := |a|;
    var b := a[head := e];
    var h := (head + 1) % n;
    ModOnce(head + 1, n);
    WindowAt(a, head, size, 0);
    ModOnce(head, n);
    var w, v := Window(a, head, size), Window(b, h, size - 1);
    forall k | 0 <= k < size - 1
      ensures v[k] == w[1..][k]
    {
      WindowAt(b, h, size - 1, k);
      WindowAt(a, head, size, k + 1);
      ModOnce(h + k, n);
      ModOnce(head + k + 1, n);
    }
  }

  /** With no stored items every slot holds the default value. */
  lemma EmptyLayout<T>(a: seq<T>, head: int, tail: int, empty: T)
    requires Layout(a, head, tail, 0, empty)
    ensures forall i :: 0 <= i < |a| ==> a[i] == empty
  {
  }
}
