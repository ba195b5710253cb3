/**
 The bounded circular queue of the breadth-first traversal (Fila): a fixed
 array of `capacity` slots, the index `front` of the oldest item and `rear`
 of the newest, both -1 when empty. Indices advance modulo the capacity.
 An enqueue on a full queue is reported and dropped; a dequeue on an empty
 queue is reported and answers -1.
 */
module Queues {

  datatype Queue = Queue(data: seq<int>, front: int, rear: int, capacity: nat)

  /** `front` is -1 exactly when `rear` is: both mark the empty queue. */
  predicate Valid(q: Queue) {
    && |q.data| == q.capacity
    && -1 <= q.front < q.capacity
    && -1 <= q.rear < q.capacity
    && (q.front == -1 <==> q.rear == -1)
  }

  /** The items, oldest first: from `front` to `rear`, wrapping past the last slot. */
  function Contents(q: Queue): (r: seq<int>)
    requires Valid(q)
    ensures |r| <= q.capacity
  {
    if q.front == -1 then []
    else if q.front <= q.rear then q.data[q.front..q.rear + 1]
    else q.data[q.front..] + q.data[..q.rear + 1]
  }

  /** criarFila: an empty queue; the slot contents are never read before written. */
  function New(capacity: nat): (q: Queue)
    ensures Valid(q) && q.capacity == capacity
    ensures Contents(q) == []
  {
    Queue(seq(capacity, _ => 0), -1, -1, capacity)
  }

  /** The full test of enqueue: the slot after `rear` is `front`. */
  function IsFull(q: Queue): (b: bool)
    requires Valid(q) && q.capacity > 0
    ensures b <==> |Contents(q)| == q.capacity
  {
    (q.rear + 1) % q.capacity == q.front
  }

  /** enqueue: appends `x` after the newest item, or changes nothing when the queue is full. */
  function Enqueue(q: Queue, x: int): (r: Queue)
    requires Valid(q) && q.capacity > 0
    ensures Valid(r) && r.capacity == q.capacity
    ensures |Contents(q)| == q.capacity ==> r == q
    ensures |Contents(q)| < q.capacity ==> Contents(r) == Contents(q) + [x]
  {
    if IsFull(q) then q
    else
      var front := if q.front == -1 then 0 else q.front;
      var rear := (q.rear + 1) % q.capacity;
      var r := Queue(q.data[rear := x], front, rear, q.capacity);
      EnqueueContents(q, x, r);
      r
  }

  lemma EnqueueContents(q: Queue, x: int, r: Queue)
    requires Valid(q) && q.capacity > 0 && !IsFull(q)
    requires r.capacity == q.capacity
    requires r.front == (if q.front == -1 then 0 else q.front)
    requires r.rear == (q.rear + 1) % q.capacity
    requires r.data == q.data[r.rear := x]
    ensures Valid(r) && Contents(r) == Contents(q) + [x]
  {
    var c := q.capacity;
    Advance(q.rear, c);
    if q.front == -1 {
      assert r.rear == 0;
    } else if q.front <= q.rear {
      if q.rear + 1 < c {
        assert r.rear == q.rear + 1;
        assert Contents(r) == r.data[q.front..q.rear + 2];
        assert r.data[q.front..q.rear + 2] == q.data[q.front..q.rear + 1] + [x];
      } else {
        assert r.rear == 0;
        assert q.front > 0;
        assert Contents(r) == r.data[q.front..] + r.data[..1];
        assert r.data[q.front..] == q.data[q.front..q.rear + 1];
      }
    } else {
      assert r.rear == q.rear + 1 < q.front;
      assert Contents(r) == r.data[q.front..] + r.data[..q.rear + 2];
      assert r.data[q.front..] == q.data[q.front..];
      assert r.data[..q.rear + 2] == q.data[..q.rear + 1] + [x];
    }
  }

  /** dequeue: removes and answers the oldest item, or answers -1 and changes nothing when empty. */
  function Dequeue(q: Queue): (r: (Queue, int))
    requires Valid(q)
    ensures Valid(r.0) && r.0.capacity == q.capacity
    ensures Contents(q) == [] ==> r.0 == q && r.1 == -1
    ensures Contents(q) != [] ==> r.1 == Contents(q)[0] && Contents(r.0) == Contents(q)[1..]
  {
    if q.front == -1 then (q, -1)
    else
      var x := q.data[q.front];
      if q.front == q.rear then
        (Queue(q.data, -1, -1, q.capacity), x)
      else
        var r := Queue(q.data, (q.front + 1) % q.capacity, q.rear, q.capacity);
        DequeueContents(q, r);
        (r, x)
  }

  lemma DequeueContents(q: Queue, r: Queue)
    requires Valid(q) && q.front != -1 && q.front != q.rear
    requires r == Queue(q.data, (q.front + 1) % q.capacity, q.rear, q.capacity)
    ensures Valid(r) && Contents(q) != [] && Contents(q)[0] == q.data[q.front]
    ensures Contents(r) == Contents(q)[1..]
  {
    Advance(q.front, q.capacity);
    if q.front < q.rear {
      assert r.front == q.front + 1;
      assert Contents(q) == q.data[q.front..q.rear + 1];
      assert Contents(r) == q.data[q.front + 1..q.rear + 1];
    } else if q.front + 1 < q.capacity {
      assert r.front == q.front + 1;
      var c := Contents(q);
      assert c == q.data[q.front..] + q.data[..q.rear + 1];
      assert c[1..] == q.data[q.front + 1..] + q.data[..q.rear + 1];
      assert Contents(r) == q.data[q.front + 1..] + q.data[..q.rear + 1];
    } else {
      assert r.front == 0;
      var c := Contents(q);
      assert c == q.data[q.front..] + q.data[..q.rear + 1];
      assert q.data[q.front..] == [q.data[q.front]];
      assert Contents(r) == q.data[..q.rear + 1];
    }
  }

  /** Stepping an index forward modulo the capacity wraps only past the last slot. */
  lemma Advance(i: int, c: nat)
    requires 0 <= i + 1 <= c && 0 < c
    ensures (i + 1) % c == if i + 1 < c then i + 1 else 0
  {
    if i + 1 == c {
      assert c % c == 0;
    }
  }

  /** estaVaziaFila: both indices are -1. */
  function IsEmpty(q: Queue): (b: bool)
    requires Valid(q)
    ensures b <==> Contents(q) == []
  {
    q.front == -1 && q.rear == -1
  }

  /** Enqueues each value in turn; values that fit are appended to the contents in order. */
  function EnqueueAll(q: Queue, xs: seq<int>): (r: Queue)
    requires Valid(q) && q.capacity > 0
    ensures Valid(r) && r.capacity == q.capacity
    ensures |Contents(q)| + |xs| <= q.capacity ==> Contents(r) == Contents(q) + xs
    decreases |xs|
  {
    if xs == [] then q
    else
      var q1 := Enqueue(q, xs[0]);
      var r := EnqueueAll(q1, xs[1..]);
      if |Contents(q)| + |xs| <= q.capacity then
        assert Contents(q1) == Contents(q) + [xs[0]];
        assert Contents(r) == Contents(q1) + xs[1..];
        AppendHead(Contents(q), xs);
        r
      else
        r
  }

  lemma AppendHead(a: seq<int>, xs: seq<int>)
    requires xs != []
    ensures a + xs == (a + [xs[0]]) + xs[1..]
  {
    assert xs == [xs[0]] + xs[1..];
  }

  /** Dequeues until empty and collects the answers. */
  function Drain(q: Queue): (r: seq<int>)
    requires Valid(q)
    decreases |Contents(q)|
  {
    if IsEmpty(q) then []
    else
      var (rest, x) := Dequeue(q);
      [x] + Drain(rest)
  }

  /** Draining answers the items oldest first, which is exactly the contents. */
  lemma {:induction false} DrainIsContents(q: Queue)
    requires Valid(q)
    ensures Drain(q) == Contents(q)
    decreases |Contents(q)|
  {
    if !IsEmpty(q) {
      var (rest, x) := Dequeue(q);
      DrainIsContents(rest);
    }
  }

  /** First in, first out: values enqueued on a fresh queue come back out in the same order. */
  lemma {:induction false} FirstInFirstOut(capacity: nat, xs: seq<int>)
    requires 0 < capacity && |xs| <= capacity
    ensures Drain(EnqueueAll(New(capacity), xs)) == xs
  {
    var q0 := New(capacity);
    var q := EnqueueAll(q0, xs);
    assert Contents(q0) == [];
    assert Contents(q) == xs;
    DrainIsContents(q);
  }
}
