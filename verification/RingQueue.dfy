/** The task queue of the pool as a value: an array used as a ring, with the three indices the C struct keeps. */
module RingQueue {

  /** Reduction of an index that is at most one lap too large. */
  function Wrapped(i: nat, size: nat): (r: nat)
    requires i < 2 * size
    ensures r < size
  {
    if i < size then i else i - size
  }

  /** It is the remainder the C code takes. */
  lemma WrappedIsRemainder(i: nat, size: nat)
    requires i < 2 * size
    ensures i % size == Wrapped(i, size)
  {
    var quotient := i / size;
    assert i == size * quotient + i % size;
    assert 0 <= quotient < 2;
    if quotient == 1 {
      assert size * quotient == size;
    }
  }

  datatype Ring<T> = Ring(cells: seq<T>, head: nat, tail: nat, count: nat) {

    ghost predicate Valid() {
      && head < |cells|
      && tail < |cells|
      && count <= |cells|
      && tail == Wrapped(head + count, |cells|)
    }

    /** The cell of the k-th pending element. */
    function Cell(k: nat): (c: nat)
      requires head < |cells| && k < |cells|
      ensures c < |cells|
    {
      Wrapped(head + k, |cells|)
    }

    /** The pending elements, oldest first. */
    ghost function Contents(): seq<T>
      requires Valid()
    {
      seq(count, k requires 0 <= k < count => cells[Cell(k)])
    }

    function Push(x: T): Ring<T>
      requires tail < |cells|
    {
      Ring(cells[tail := x], head, Wrapped(tail + 1, |cells|), count + 1)
    }

    function Pop(): Ring<T>
      requires head < |cells| && 0 < count
    {
      Ring(cells, Wrapped(head + 1, |cells|), tail, count - 1)
    }
  }

  /** The invariant in the terms of the C code. */
  lemma ValidInRemainders<T>(r: Ring<T>)
    requires r.Valid()
    ensures r.tail == (r.head + r.count) % |r.cells|
    ensures forall k | 0 <= k < r.count :: r.Contents()[k] == r.cells[(r.head + k) % |r.cells|]
  {
    WrappedIsRemainder(r.head + r.count, |r.cells|);
    forall k | 0 <= k < r.count
      ensures r.Contents()[k] == r.cells[(r.head + k) % |r.cells|]
    {
      WrappedIsRemainder(r.head + k, |r.cells|);
    }
  }

  /** Storing at the tail of a ring that is not full appends, and rewrites no pending cell. */
  lemma PushAppends<T>(r: Ring<T>, x: T)
    requires r.Valid() && r.count < |r.cells|
    ensures r.Push(x).Valid()
    ensures r.Push(x).Contents() == r.Contents() + [x]
    ensures forall k | 0 <= k < r.count :: r.Push(x).cells[r.Cell(k)] == r.cells[r.Cell(k)]
  {
  }

  /** Advancing the head of a non-empty ring drops exactly the oldest element. */
  lemma PopDropsOldest<T>(r: Ring<T>)
    requires r.Valid() && 0 < r.count
    ensures r.Contents()[0] == r.cells[r.head]
    ensures r.Pop().Valid()
    ensures r.Pop().Contents() == r.Contents()[1..]
  {
    assert forall k | 0 <= k < r.count - 1 :: r.Pop().Cell(k) == r.Cell(k + 1);
  }

  /** The calls one can make on the queue. */
  datatype QueueOp<T> = Put(x: T) | Take

  /** What a run of calls does to the ring, refusing a put when full and a take when empty. */
  ghost function RunRing<T>(r: Ring<T>, ops: seq<QueueOp<T>>): (r': Ring<T>)
    requires r.Valid()
    ensures r'.Valid() && |r'.cells| == |r.cells|
    decreases |ops|
  {
    if ops == [] then r else
    match ops[0]
    case Put(x) =>
      if r.count == |r.cells| then RunRing(r, ops[1..])
      else PushAppends(r, x); RunRing(r.Push(x), ops[1..])
    case Take =>
      if r.count == 0 then RunRing(r, ops[1..])
      else PopDropsOldest(r); RunRing(r.Pop(), ops[1..])
  }

  /** The same calls on a plain sequence that holds at most `capacity` elements. */
  ghost function RunBounded<T>(q: seq<T>, capacity: nat, ops: seq<QueueOp<T>>): seq<T>
    decreases |ops|
  {
    if ops == [] then q else
    match ops[0]
    case Put(x) => RunBounded(if |q| == capacity then q else q + [x], capacity, ops[1..])
    case Take => RunBounded(if q == [] then q else q[1..], capacity, ops[1..])
  }

  /** The ring is a bounded first-in first-out queue of exactly its size, over every sequence of calls. */
  lemma {:induction false} RingRefinesBoundedQueue<T>(r: Ring<T>, ops: seq<QueueOp<T>>)
    requires r.Valid()
    ensures RunRing(r, ops).Contents() == RunBounded(r.Contents(), |r.cells|, ops)
    decreases |ops|
  {
    if ops != [] {
      match ops[0]
      case Put(x) =>
        if r.count == |r.cells| {
          RingRefinesBoundedQueue(r, ops[1..]);
        } else {
          PushAppends(r, x);
          RingRefinesBoundedQueue(r.Push(x), ops[1..]);
        }
      case Take =>
        if r.count == 0 {
          RingRefinesBoundedQueue(r, ops[1..]);
        } else {
          PopDropsOldest(r);
          RingRefinesBoundedQueue(r.Pop(), ops[1..]);
        }
    }
  }
}
