/** The ADC sample buffer of lasertag/buffer.c: a fixed-capacity circular FIFO
    that the timer interrupt fills with `Pushover` and the detector drains with
    `Pop`. When the buffer is full, a push drops the oldest sample first. */
module SampleBuffer {

  /** BUFFER_SIZE */
  const Capacity: nat := 32768

  /** What a push does to the abstract contents: when the buffer is full, the
      oldest value is dropped before the new one is appended. */
  function PushoverSeq(s: seq<int>, x: int): (r: seq<int>)
    requires |s| <= Capacity
    ensures 0 < |r| <= Capacity && r[|r| - 1] == x
    ensures |s| < Capacity ==> |r| == |s| + 1 && r[..|s|] == s
    ensures |s| == Capacity ==> |r| == Capacity && r[..|r| - 1] == s[1..]
  {
    if |s| == Capacity then s[1..] + [x] else s + [x]
  }

  /** The contents after a run of pushes with no pops in between. */
  function PushoverAll(s: seq<int>, xs: seq<int>): (r: seq<int>)
    requires |s| <= Capacity
    ensures |r| <= Capacity
    decreases |xs|
  {
    if xs == [] then s
    else PushoverAll(PushoverSeq(s, xs[0]), xs[1..])
  }

  /** The newest `n` elements of `s` (all of them when there are fewer). */
  function Newest(s: seq<int>, n: nat): (r: seq<int>)
    ensures |r| == if |s| < n then |s| else n
  {
    if |s| <= n then s else s[|s| - n..]
  }

  /** A run of pushes leaves exactly the newest `Capacity` of all the values
      ever held, oldest first: nothing is reordered and only the oldest are lost. */
  lemma {:induction false} PushoverAllKeepsNewest(s: seq<int>, xs: seq<int>)
    requires |s| <= Capacity
    ensures PushoverAll(s, xs) == Newest(s + xs, Capacity)
    decreases |xs|
  {
    if xs != [] {
      var s' := PushoverSeq(s, xs[0]);
      assert PushoverAll(s, xs) == PushoverAll(s', xs[1..]);
      PushoverAllKeepsNewest(s', xs[1..]);
      PushoverSeqKeepsNewest(s, xs[0], xs[1..]);
      assert [xs[0]] + xs[1..] == xs;
    }
  }

  /** One push, followed by the rest of the run, keeps the same newest
      `Capacity` values as the run from before the push. */
  lemma PushoverSeqKeepsNewest(s: seq<int>, x: int, rest: seq<int>)
    requires |s| <= Capacity
    ensures Newest(PushoverSeq(s, x) + rest, Capacity) == Newest(s + ([x] + rest), Capacity)
  {
    if |s| == Capacity {
      assert PushoverSeq(s, x) + rest == (s + ([x] + rest))[1..];
      NewestOfTail(s + ([x] + rest));
    } else {
      assert PushoverSeq(s, x) + rest == s + ([x] + rest);
    }
  }

  /** Dropping the oldest element of a sequence longer than `Capacity` does
      not change its newest `Capacity` elements. */
  lemma NewestOfTail(t: seq<int>)
    requires |t| > Capacity
    ensures Newest(t[1..], Capacity) == Newest(t, Capacity)
  {
    assert t[1..][|t| - 1 - Capacity..] == t[|t| - Capacity..];
  }

  /** More than `Capacity` pushes into an empty buffer leave it full, holding
      the last `Capacity` values pushed, in the order they were pushed. */
  lemma OverflowKeepsLastValues(xs: seq<int>)
    requires |xs| >= Capacity
    ensures PushoverAll([], xs) == xs[|xs| - Capacity..]
    ensures |PushoverAll([], xs)| == Capacity
  {
    PushoverAllKeepsNewest([], xs);
    assert [] + xs == xs;
  }

  /** Without overflow, every value pushed is kept, in order. */
  lemma NoOverflowKeepsAll(s: seq<int>, xs: seq<int>)
    requires |s| + |xs| <= Capacity
    ensures PushoverAll(s, xs) == s + xs
  {
    PushoverAllKeepsNewest(s, xs);
  }

  /** Position of the `k`-th oldest element in the backing array. */
  function Slot(indexOut: nat, k: nat): nat
    requires indexOut < Capacity && k < Capacity
  {
    if indexOut + k < Capacity then indexOut + k else indexOut + k - Capacity
  }

  /** The slot after the `n` elements held is where the next push writes. */
  lemma SlotIsNextIn(indexOut: nat, n: nat)
    requires indexOut < Capacity && n < Capacity
    ensures Slot(indexOut, n) == (indexOut + n) % Capacity
  {
  }

  /** Advancing the write cursor past a push keeps it `n + 1` slots after
      the oldest element. */
  lemma NextInAdvances(indexOut: nat, n: nat)
    requires indexOut < Capacity && n < Capacity
    ensures ((indexOut + n) % Capacity + 1) % Capacity == (indexOut + n + 1) % Capacity
  {
  }

  /** Distinct elements occupy distinct slots. */
  lemma SlotsDistinct(indexOut: nat, j: nat, k: nat)
    requires indexOut < Capacity && j < k < Capacity
    ensures Slot(indexOut, j) != Slot(indexOut, k)
  {
  }

  /** The `buf` struct: `data[]` with the cursors `indexIn` (next open slot),
      `indexOut` (oldest element) and `elementCount`. */
  class Buffer {
    /** The values in the buffer, oldest first. */
    ghost var Contents: seq<int>

    const data: array<int>
    var indexIn: nat
    var indexOut: nat
    var elementCount: nat

    ghost predicate Valid()
      reads this, data
    {
      && data.Length == Capacity
      && indexIn < Capacity && indexOut < Capacity
      && elementCount <= Capacity
      && indexIn == (indexOut + elementCount) % Capacity
      && |Contents| == elementCount
      && forall k :: 0 <= k < elementCount ==> Contents[k] == data[Slot(indexOut, k)]
    }

    /** The statically allocated buffer, in its initial (all-zero) state. */
    constructor ()
      ensures Valid() && fresh(data)
      ensures Contents == [] && indexIn == 0 && indexOut == 0
    {
      data := new int[Capacity];
      indexIn, indexOut, elementCount := 0, 0, 0;
      Contents := [];
    }

    /** buffer_init: empty the buffer and reset both cursors. */
    method Init()
      requires Valid()
      modifies this
      ensures Valid()
      ensures Contents == [] && elementCount == 0
      ensures indexIn == 0 && indexOut == 0
    {
      indexIn := 0;
      indexOut := 0;
      elementCount := 0;
      Contents := [];
    }

    /** buffer_pushover: append `value`, dropping the oldest value first when
        the buffer is full. */
    method Pushover(value: int)
      requires Valid()
      modifies this, data
      ensures Valid()
      ensures Contents == PushoverSeq(old(Contents), value)
      ensures 0 < elementCount <= Capacity
      ensures old(elementCount) == Capacity ==> elementCount == Capacity
    {
      if Elements() >= Size() {
        var _ := Pop();
      }
      ghost var before := data[..];
      ghost var n := elementCount;
      SlotIsNextIn(indexOut, n);
      data[indexIn] := value;
      indexIn := (indexIn + 1) % Size();
      elementCount := elementCount + 1;
      Contents := Contents + [value];
      NextInAdvances(indexOut, n);
      forall k | 0 <= k < elementCount
        ensures Contents[k] == data[Slot(indexOut, k)]
      {
        if k < n {
          SlotsDistinct(indexOut, k, n);
          assert data[Slot(indexOut, k)] == before[Slot(indexOut, k)];
        }
      }
    }

    /** buffer_pop: remove and return the oldest value; 0 when empty. */
    method Pop() returns (value: int)
      requires Valid()
      modifies this
      ensures Valid()
      ensures old(Contents) == [] ==> value == 0 && Contents == []
      ensures old(Contents) == [] ==>
        indexIn == old(indexIn) && indexOut == old(indexOut) && elementCount == 0
      ensures old(Contents) != [] ==>
        value == old(Contents)[0] && Contents == old(Contents)[1..]
    {
      if elementCount == 0 {
        return 0;
      } else {
        value := data[indexOut];
        indexOut := (indexOut + 1) % Size();
        elementCount := elementCount - 1;
        Contents := Contents[1..];
      }
    }

    /** buffer_elements */
    function Elements(): (n: nat)
      reads this, data
      requires Valid()
      ensures n == |Contents| && n <= Capacity
    {
      elementCount
    }

    /** buffer_size */
    function Size(): (n: nat)
      ensures n == Capacity
    {
      Capacity
    }
  }
}
