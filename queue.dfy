/** The fixed-capacity queues the filter bank uses as delay lines. Their
    implementation (queue.c) is not part of this model: a queue is its
    capacity and its items, oldest at index 0 and newest at `|items| - 1`, and
    an overwriting push onto a full queue drops the oldest item. */
module Queues {

  datatype Queue = Queue(capacity: nat, items: seq<real>)
  {
    ghost predicate Full() {
      |items| == capacity
    }
  }

  /** A run of `n` zeros. */
  function Zeros(n: nat): (r: seq<real>)
    ensures |r| == n && forall k :: 0 <= k < n ==> r[k] == 0.0
  {
    seq(n, _ => 0.0)
  }

  /** queue_init: an empty queue of the given capacity. */
  function Init(capacity: nat): (q: Queue)
    ensures q.capacity == capacity && q.items == []
  {
    Queue(capacity, [])
  }

  /** A queue with room for at least one item that holds no more than its
      capacity. */
  predicate CanPush(q: Queue) {
    0 < q.capacity && |q.items| <= q.capacity
  }

  /** queue_overwritePush: the new value becomes the newest item; if the queue
      was full, everything else moves one place towards index 0 and the old
      item 0 is lost. */
  function OverwritePush(q: Queue, x: real): (r: Queue)
    requires CanPush(q)
    ensures r.capacity == q.capacity && 0 < |r.items| <= r.capacity
    ensures r.items[|r.items| - 1] == x
    ensures q.Full() ==> r.Full()
    ensures !q.Full() ==> |r.items| == |q.items| + 1 && r.items[..|q.items|] == q.items
  {
    if |q.items| == q.capacity then Queue(q.capacity, q.items[1..] + [x])
    else Queue(q.capacity, q.items + [x])
  }

  /** A push onto a full queue drops the oldest item and slides the rest
      down by one, the new value landing at the newest end. */
  lemma OverwritePushSlides(q: Queue, x: real)
    requires CanPush(q) && q.Full()
    ensures forall k :: 0 <= k < q.capacity - 1 ==> ReadElementAt(OverwritePush(q, x), k) == ReadElementAt(q, k + 1)
    ensures ReadElementAt(OverwritePush(q, x), q.capacity - 1) == x
  {
    var r := OverwritePush(q, x);
    assert r.items == q.items[1..] + [x];
  }

  /** queue_readElementAt: offset 0 is the oldest item, and the newest item
      is the value pushed last. */
  function ReadElementAt(q: Queue, offset: nat): (r: real)
    requires offset < |q.items|
    ensures r in q.items
    ensures forall p: Queue, x: real :: CanPush(p) && q == OverwritePush(p, x) && offset == |q.items| - 1 ==> r == x
  {
    q.items[offset]
  }

  /** queue_elementCount: the number of items held, never more than the
      capacity of a well-formed queue, and zero exactly for an empty one. */
  function ElementCount(q: Queue): (r: nat)
    ensures r == 0 <==> q.items == []
    ensures |q.items| <= q.capacity ==> r <= q.capacity
  {
    |q.items|
  }

  /** Pushes that fit within the capacity keep every value, in order, after
      the items already held (the zero fill of every filter queue at start-up). */
  lemma {:induction false} FillFromEmpty(q: Queue, xs: seq<real>)
    requires 0 < q.capacity && |q.items| + |xs| <= q.capacity
    ensures PushAll(q, xs).items == q.items + xs
    decreases |xs|
  {
    if xs != [] {
      FillFromEmpty(OverwritePush(q, xs[0]), xs[1..]);
      assert q.items + [xs[0]] + xs[1..] == q.items + xs;
    }
  }

  /** Pushes of several values in order. */
  function PushAll(q: Queue, xs: seq<real>): (r: Queue)
    requires 0 < q.capacity && |q.items| <= q.capacity
    ensures r.capacity == q.capacity && |r.items| <= r.capacity
    ensures q.Full() ==> r.Full()
    decreases |xs|
  {
    if xs == [] then q else PushAll(OverwritePush(q, xs[0]), xs[1..])
  }

  /** Pushing one more value after a run of pushes is the run extended by it. */
  lemma {:induction false} PushAllSnoc(q: Queue, xs: seq<real>, x: real)
    requires 0 < q.capacity && |q.items| <= q.capacity
    ensures PushAll(q, xs + [x]) == OverwritePush(PushAll(q, xs), x)
    decreases |xs|
  {
    if xs == [] {
      assert [] + [x] == [x];
    } else {
      assert (xs + [x])[1..] == xs[1..] + [x];
      PushAllSnoc(OverwritePush(q, xs[0]), xs[1..], x);
    }
  }

  /** A full queue is a sliding window: after any run of pushes it holds the
      newest `capacity` of its old items followed by the values pushed. */
  lemma {:induction false} PushAllSlides(q: Queue, xs: seq<real>)
    requires 0 < q.capacity && q.Full()
    ensures PushAll(q, xs).items == (q.items + xs)[|xs|..]
    decreases |xs|
  {
    if xs != [] {
      var q' := OverwritePush(q, xs[0]);
      assert q'.items == q.items[1..] + [xs[0]];
      PushAllSlides(q', xs[1..]);
      assert (q'.items + xs[1..])[|xs| - 1..] == (q.items + xs)[|xs|..];
    }
  }
}
