/**
 * `CircularBuffer<T>`: a fixed number of optional slots, a write position `head` and a
 * fill `count`. `Append` overwrites the oldest item once the buffer is full; `Elements`
 * reads the items back oldest first. The abstraction proved here: after any sequence of
 * appends to an empty buffer, `Elements` is the last `min(M, capacity)` items appended.
 */
module RingBuffer {
  import opened Wrappers

  datatype Ring<T> = Ring(slots: seq<Option<T>>, head: int, count: int, capacity: int)

  /**
   * The representation invariant kept by every operation. While the buffer is not full the
   * items fill slots `[0, count)`, the rest are empty, and `head == count`; once full, every
   * slot holds an item.
   */
  predicate Valid<T>(b: Ring<T>) {
    && b.capacity > 0
    && |b.slots| == b.capacity
    && 0 <= b.count <= b.capacity
    && 0 <= b.head < b.capacity
    && (b.count < b.capacity ==>
          && b.head == b.count
          && (forall i :: 0 <= i < b.count ==> b.slots[i].Some?)
          && (forall i :: b.count <= i < b.capacity ==> b.slots[i].None?))
    && (b.count == b.capacity ==> forall i :: 0 <= i < b.capacity ==> b.slots[i].Some?)
  }

  function EmptySlots<T>(capacity: nat): (r: seq<Option<T>>)
    ensures |r| == capacity && forall i :: 0 <= i < capacity ==> r[i].None?
  {
    seq(capacity, _ => None)
  }

  /**
   * `init(capacity:)`. The source accepts any capacity, but the first `append` divides by it
   * and writes slot 0, so a usable buffer needs a positive capacity.
   */
  function New<T>(capacity: int): (r: Ring<T>)
    requires capacity > 0
    ensures Valid(r) && r.capacity == capacity
    ensures Elements(r) == []
  {
    Ring(EmptySlots(capacity), 0, 0, capacity)
  }

  /** `append(_:)`: write at `head`, advance it modulo the capacity, saturate `count`. */
  function Append<T>(b: Ring<T>, x: T): (r: Ring<T>)
    requires Valid(b)
    ensures Valid(r) && r.capacity == b.capacity
    ensures r.count == if b.count < b.capacity then b.count + 1 else b.capacity
  {
    var slots := b.slots[b.head := Some(x)];
    var head := (b.head + 1) % b.capacity;
    var count := if b.count < b.capacity then b.count + 1 else b.count;
    Ring(slots, head, count, b.capacity)
  }

  function Unwrap<T>(o: Option<T>): Option<T> { o }

  /** `buffer.compactMap { $0 }`: the items in slot order, empty slots skipped. */
  function Present<T>(slots: seq<Option<T>>): seq<T> {
    CompactMap(slots, Unwrap)
  }

  /** The slots of a valid buffer read in slot order: all of them once full, else `[0, count)`. */
  lemma PresentOfValid<T>(b: Ring<T>)
    requires Valid(b)
    ensures |Present(b.slots)| == b.count
    ensures forall i :: 0 <= i < b.count ==> Present(b.slots)[i] == b.slots[i].value
  {
    if b.count == b.capacity {
      CompactMapAllSome(b.slots, Unwrap);
    } else {
      assert b.slots == b.slots[..b.count] + b.slots[b.count..];
      CompactMapAppend(b.slots[..b.count], b.slots[b.count..], Unwrap);
      CompactMapAllSome(b.slots[..b.count], Unwrap);
      CompactMapAllNone(b.slots[b.count..], Unwrap);
    }
  }

  /**
   * `elements`: the present items rotated so that the oldest comes first. The source's
   * second branch (a negative start index) cannot be taken on a valid buffer.
   */
  function Elements<T>(b: Ring<T>): (r: seq<T>)
    requires Valid(b)
    ensures |r| == b.count
  {
    PresentOfValid(b);
    var valid := Present(b.slots);
    var headIndex := if b.count < b.capacity then b.head - b.count else b.head;
    if headIndex >= 0 then valid[headIndex..] + valid[..headIndex]
    else assert false; []
  }

  /** `removeAll()`: every slot emptied, `head` and `count` back to zero. */
  function RemoveAll<T>(b: Ring<T>): (r: Ring<T>)
    requires Valid(b)
    ensures Valid(r) && r.capacity == b.capacity
    ensures r.head == 0 && r.count == 0
    ensures Elements(r) == []
  {
    Ring(EmptySlots(b.capacity), 0, 0, b.capacity)
  }

  // ------------------------------------------------------------- abstraction

  /** The last `n` items of `xs` (all of them when there are fewer). */
  function Last<T>(xs: seq<T>, n: nat): (r: seq<T>)
    ensures |r| == if |xs| <= n then |xs| else n
  {
    if |xs| <= n then xs else xs[|xs| - n..]
  }

  /** Slot index of the `k`-th oldest item. */
  function Position<T>(b: Ring<T>, k: int): int
    requires Valid(b)
  {
    var start := if b.count < b.capacity then 0 else b.head;
    if start + k < b.capacity then start + k else start + k - b.capacity
  }

  lemma ElementsAt<T>(b: Ring<T>)
    requires Valid(b)
    ensures forall k :: 0 <= k < b.count ==>
      0 <= Position(b, k) < b.capacity && b.slots[Position(b, k)].Some? &&
      Elements(b)[k] == b.slots[Position(b, k)].value
  {
    PresentOfValid(b);
  }

  lemma HeadAdvance(h: int, capacity: int)
    requires 0 <= h < capacity
    ensures (h + 1) % capacity == if h + 1 < capacity then h + 1 else 0
  {
  }

  lemma AppendNotFull<T>(b: Ring<T>, x: T)
    requires Valid(b) && b.count < b.capacity
    ensures Elements(Append(b, x)) == Elements(b) + [x]
  {
    var r := Append(b, x);
    HeadAdvance(b.head, b.capacity);
    ElementsAt(b);
    ElementsAt(r);
    forall k | 0 <= k < r.count
      ensures Elements(r)[k] == (Elements(b) + [x])[k]
    {
      assert Position(r, k) == k;
      if k < b.count {
        assert Position(b, k) == k;
      }
    }
  }

  lemma AppendFull<T>(b: Ring<T>, x: T)
    requires Valid(b) && b.count == b.capacity
    ensures Elements(Append(b, x)) == Elements(b)[1..] + [x]
  {
    var r := Append(b, x);
    HeadAdvance(b.head, b.capacity);
    ElementsAt(b);
    ElementsAt(r);
    forall k | 0 <= k < r.count
      ensures Elements(r)[k] == (Elements(b)[1..] + [x])[k]
    {
      if k < b.count - 1 {
        assert Position(r, k) == Position(b, k + 1);
      } else {
        assert Position(r, k) == b.head;
      }
    }
  }

  /** One append adds the item at the newest end and, when full, drops the oldest. */
  lemma AppendElements<T>(b: Ring<T>, x: T)
    requires Valid(b)
    ensures Elements(Append(b, x)) == Last(Elements(b) + [x], b.capacity)
  {
    if b.count < b.capacity {
      AppendNotFull(b, x);
    } else {
      AppendFull(b, x);
    }
  }

  /** The buffer after appending every item of `xs`, in order. */
  function AppendAll<T>(b: Ring<T>, xs: seq<T>): (r: Ring<T>)
    requires Valid(b)
    ensures Valid(r) && r.capacity == b.capacity
    decreases |xs|
  {
    if xs == [] then b else AppendAll(Append(b, xs[0]), xs[1..])
  }

  lemma LastOfLast<T>(xs: seq<T>, x: T, n: nat)
    requires n > 0
    ensures Last(Last(xs, n) + [x], n) == Last(xs + [x], n)
  {
  }

  /** One more append keeps a buffer holding the last items of a history in step with it. */
  lemma AppendStep<T>(b: Ring<T>, history: seq<T>, x: T)
    requires Valid(b) && Elements(b) == Last(history, b.capacity)
    ensures Elements(Append(b, x)) == Last(history + [x], b.capacity)
  {
    AppendElements(b, x);
    LastOfLast(history, x, b.capacity);
  }

  /** A buffer holding the last items of `history` holds the last items of `history + xs` after appending `xs`. */
  lemma {:induction false} AppendAllHistory<T>(b: Ring<T>, history: seq<T>, xs: seq<T>)
    requires Valid(b) && Elements(b) == Last(history, b.capacity)
    ensures Elements(AppendAll(b, xs)) == Last(history + xs, b.capacity)
    decreases |xs|
  {
    if xs == [] {
      assert history + xs == history;
    } else {
      AppendStep(b, history, xs[0]);
      AppendAllHistory(Append(b, xs[0]), history + [xs[0]], xs[1..]);
      assert history + [xs[0]] + xs[1..] == history + xs;
    }
  }

  /**
   * The abstraction: appending `xs` to an empty buffer of capacity `n` leaves exactly the
   * last `min(|xs|, n)` of them, oldest first.
   */
  lemma AppendAllElements<T>(capacity: int, xs: seq<T>)
    requires capacity > 0
    ensures Elements(AppendAll(New<T>(capacity), xs)) == Last(xs, capacity)
  {
    AppendAllHistory(New<T>(capacity), [], xs);
    assert [] + xs == xs;
  }

  /** After `append(x)` the newest element is `x`. */
  lemma AppendNewest<T>(b: Ring<T>, x: T)
    requires Valid(b)
    ensures |Elements(Append(b, x))| > 0
    ensures Elements(Append(b, x))[|Elements(Append(b, x))| - 1] == x
  {
    AppendElements(b, x);
  }

  /** A buffer that was cleared behaves as a fresh one for every later history. */
  lemma {:induction false} RemoveAllThenAppend<T>(b: Ring<T>, xs: seq<T>)
    requires Valid(b)
    ensures Elements(AppendAll(RemoveAll(b), xs)) == Last(xs, b.capacity)
  {
    assert RemoveAll(b) == New<T>(b.capacity);
    AppendAllElements<T>(b.capacity, xs);
  }
}
