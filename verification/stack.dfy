/**
 The bounded stack of the depth-first traversal (Pilha): a fixed array of
 `capacity` slots and the index `top` of the topmost item, -1 when empty.
 A push onto a full stack is dropped without notice; a pop from an empty
 stack answers -1.
 */
module Stacks {

  datatype Stack = Stack(data: seq<int>, top: int, capacity: nat)

  predicate Valid(s: Stack) {
    |s.data| == s.capacity && -1 <= s.top < s.capacity
  }

  /** The items on the stack, bottom first; the slots above `top` are not items. */
  function Items(s: Stack): (r: seq<int>)
    requires Valid(s)
    ensures |r| == s.top + 1 <= s.capacity
  {
    s.data[..s.top + 1]
  }

  /** criarPilha: an empty stack; the slot contents are never read before written. */
  function New(capacity: nat): (s: Stack)
    ensures Valid(s) && s.capacity == capacity
    ensures Items(s) == []
  {
    Stack(seq(capacity, _ => 0), -1, capacity)
  }

  /** push: `x` goes on top unless the stack is full, in which case nothing changes. */
  function Push(s: Stack, x: int): (r: Stack)
    requires Valid(s)
    ensures Valid(r) && r.capacity == s.capacity
    ensures |Items(s)| < s.capacity ==> Items(r) == Items(s) + [x]
    ensures |Items(s)| == s.capacity ==> r == s
  {
    if s.top < s.capacity - 1 then
      var r := Stack(s.data[s.top + 1 := x], s.top + 1, s.capacity);
      assert Items(r) == Items(s) + [x];
      r
    else
      s
  }

  /** pop: removes and answers the top item, or answers -1 and changes nothing when empty. */
  function Pop(s: Stack): (r: (Stack, int))
    requires Valid(s)
    ensures Valid(r.0) && r.0.capacity == s.capacity
    ensures Items(s) == [] ==> r.0 == s && r.1 == -1
    ensures Items(s) != [] ==> Items(r.0) + [r.1] == Items(s)
  {
    if s.top >= 0 then
      var r := Stack(s.data, s.top - 1, s.capacity);
      assert Items(r) + [s.data[s.top]] == Items(s);
      (r, s.data[s.top])
    else
      (s, -1)
  }

  /** estaVaziaPilha */
  function IsEmpty(s: Stack): (b: bool)
    requires Valid(s)
    ensures b <==> Items(s) == []
  {
    s.top == -1
  }

  /** Last in, first out: a pop right after a successful push answers the pushed value and restores the items. */
  lemma PushThenPop(s: Stack, x: int)
    requires Valid(s) && |Items(s)| < s.capacity
    ensures Pop(Push(s, x)).1 == x
    ensures Items(Pop(Push(s, x)).0) == Items(s)
  {
  }

  /** Pops until empty and collects the answers. */
  function Drain(s: Stack): (r: seq<int>)
    requires Valid(s)
    ensures |r| == |Items(s)|
    ensures forall i :: 0 <= i < |r| ==> r[i] == Items(s)[|Items(s)| - 1 - i]
    decreases |Items(s)|
  {
    if IsEmpty(s) then []
    else
      var (rest, x) := Pop(s);
      [x] + Drain(rest)
  }

  /** Pushes each value in turn. */
  function PushAll(s: Stack, xs: seq<int>): (r: Stack)
    requires Valid(s)
    ensures Valid(r) && r.capacity == s.capacity
    ensures |Items(s)| + |xs| <= s.capacity ==> Items(r) == Items(s) + xs
    decreases |xs|
  {
    if xs == [] then s
    else
      var r := PushAll(Push(s, xs[0]), xs[1..]);
      assert |Items(s)| + |xs| <= s.capacity ==> Items(s) + xs == (Items(s) + [xs[0]]) + xs[1..];
      r
  }

  /** Values pushed onto a fresh stack come back out in reverse order. */
  lemma LastInFirstOut(capacity: nat, xs: seq<int>)
    requires |xs| <= capacity
    ensures var out := Drain(PushAll(New(capacity), xs));
            |out| == |xs| && forall i :: 0 <= i < |xs| ==> out[i] == xs[|xs| - 1 - i]
  {
  }
}
