/** The hit detector of lasertag/detector.c. Each call drains the ADC sample
    buffer, scales every sample to [-1, 1] and feeds it to the filter bank;
    once every FILTER_FIR_DECIMATION_FACTOR samples it runs the FIR filter, the
    ten IIR filters and their power updates, and, unless the lockout timer is
    running, evaluates the power values and commits a hit. */
module Detector {
  import opened Queues
  import Filter
  import SampleBuffer
  import LockoutTimer
  import HitLedTimer
  import opened CTypes

  datatype Option<T> = None | Some(value: T)

  /** The static `fudgeFactor`, which nothing changes. */
  const FudgeFactor: real := 1000.0
  /** The largest reading of the 12-bit ADC. */
  const AdcMax: int := 4095
  /** Where the median is read in the sorted power values. */
  const MedianIndex: nat := Filter.FrequencyCount / 2 - 1

  // ---------------------------------------------------------------------
  // Scaling of ADC samples

  /** The scaling of a raw ADC value to a filter input. */
  function Scaled(raw: int): (x: real)
    ensures 0 <= raw <= AdcMax ==> -1.0 <= x <= 1.0
  {
    (raw as real / 4095.0) * 2.0 - 1.0
  }

  /** The scaling maps the ADC range onto [-1, 1] end to end, and preserves
      the order of readings. */
  lemma ScaledIsMonotone(raw: int, raw': int)
    ensures Scaled(0) == -1.0 && Scaled(AdcMax) == 1.0
    ensures raw < raw' ==> Scaled(raw) < Scaled(raw')
  {
  }

  /** The scaled values of a run of samples, in order. */
  function ScaledAll(s: seq<int>): (r: seq<real>)
    ensures |r| == |s| && forall k :: 0 <= k < |s| ==> r[k] == Scaled(s[k])
  {
    seq(|s|, k requires 0 <= k < |s| => Scaled(s[k]))
  }

  // ---------------------------------------------------------------------
  // Sorting and the hit decision

  ghost predicate Sorted(s: seq<real>) {
    forall p, q :: 0 <= p < q < |s| ==> s[p] <= s[q]
  }

  /** Insertion of one value into a sorted sequence: the reference for the
      inner loop of detector_detectHit. */
  function Insert(x: real, s: seq<real>): (r: seq<real>)
    ensures |r| == |s| + 1 && multiset(r) == multiset(s) + multiset{x}
  {
    if s == [] then [x]
    else if x <= s[0] then [x] + s
    else
      assert s == [s[0]] + s[1..];
      [s[0]] + Insert(x, s[1..])
  }

  /** Insertion sort, last value inserted last: the reference for
      detector_detectHit's sort. */
  function Sort(p: seq<real>): (r: seq<real>)
    ensures |r| == |p| && multiset(r) == multiset(p)
    decreases |p|
  {
    if p == [] then []
    else
      assert p == p[..|p| - 1] + [p[|p| - 1]];
      Insert(p[|p| - 1], Sort(p[..|p| - 1]))
  }

  /** Insertion keeps a sequence sorted. */
  lemma {:induction false} InsertSorted(x: real, s: seq<real>)
    requires Sorted(s)
    ensures Sorted(Insert(x, s))
    decreases |s|
  {
    if s != [] && x > s[0] {
      var t := Insert(x, s[1..]);
      InsertSorted(x, s[1..]);
      forall k | 0 <= k < |t|
        ensures s[0] <= t[k]
      {
        assert t[k] in multiset(s[1..]) + multiset{x};
        if t[k] != x {
          assert t[k] in s[1..];
        }
      }
    }
  }

  /** Sort's result is sorted. */
  lemma {:induction false} SortSorted(p: seq<real>)
    ensures Sorted(Sort(p))
    decreases |p|
  {
    if p != [] {
      SortSorted(p[..|p| - 1]);
      InsertSorted(p[|p| - 1], Sort(p[..|p| - 1]));
    }
  }

  /** Two sorted sequences holding the same values are equal. */
  lemma {:induction false} SortedUnique(a: seq<real>, b: seq<real>)
    requires Sorted(a) && Sorted(b) && multiset(a) == multiset(b)
    ensures a == b
    decreases |a|
  {
    assert |a| == |multiset(a)| == |multiset(b)| == |b|;
    if a != [] {
      SortedHeadIsLeast(a, b[0]);
      SortedHeadIsLeast(b, a[0]);
      assert a[0] == b[0];
      MultisetOfTail(a);
      MultisetOfTail(b);
      assert multiset(a[1..]) == multiset(b[1..]);
      SortedTail(a);
      SortedTail(b);
      SortedUnique(a[1..], b[1..]);
      HeadTail(a);
      HeadTail(b);
    }
  }

  /** The head of a sorted sequence is at most any value it holds. */
  lemma SortedHeadIsLeast(s: seq<real>, x: real)
    requires Sorted(s) && x in multiset(s)
    ensures s[0] <= x
  {
    var m :| 0 <= m < |s| && s[m] == x;
  }

  /** The tail of a sorted sequence is sorted. */
  lemma SortedTail(s: seq<real>)
    requires Sorted(s) && s != []
    ensures Sorted(s[1..])
  {
  }

  /** A non-empty sequence is its head followed by its tail. */
  lemma HeadTail(s: seq<real>)
    requires s != []
    ensures s == [s[0]] + s[1..]
  {
  }

  /** Removing the head removes one occurrence of it. */
  lemma MultisetOfTail(s: seq<real>)
    requires s != []
    ensures multiset(s[1..]) == multiset(s) - multiset{s[0]}
  {
    assert s == [s[0]] + s[1..];
  }

  /** Any sorted rearrangement of `p` is Sort(p). */
  lemma SortedPermutationIsSort(s: seq<real>, p: seq<real>)
    requires Sorted(s) && multiset(s) == multiset(p)
    ensures s == Sort(p)
  {
    SortSorted(p);
    SortedUnique(s, Sort(p));
  }

  /** The last of the sorted values is the largest input value. */
  lemma SortLastIsMax(p: seq<real>)
    requires p != []
    ensures Sort(p)[|p| - 1] in p
    ensures forall k :: 0 <= k < |p| ==> p[k] <= Sort(p)[|p| - 1]
  {
    var s := Sort(p);
    SortSorted(p);
    assert s[|p| - 1] in multiset(p);
    forall k | 0 <= k < |p|
      ensures p[k] <= s[|p| - 1]
    {
      assert p[k] in multiset(s);
      var m :| 0 <= m < |s| && s[m] == p[k];
    }
  }

  /** The decision on sorted power values: the largest is above the median
      value times the sensitivity multiplier. */
  function HitDecision(sorted: seq<real>, fudge: real): bool
    requires |sorted| == Filter.FrequencyCount
  {
    sorted[Filter.FrequencyCount - 1] > sorted[MedianIndex] * fudge
  }

  /** What detector_detectHit decides about ten power values: a hit exactly
      when some channel's power exceeds the median power times the fudge
      factor. */
  function Decide(p: seq<real>): (r: bool)
    requires |p| == Filter.FrequencyCount
    ensures r <==> exists k :: 0 <= k < |p| && p[k] > Sort(p)[MedianIndex] * FudgeFactor
  {
    SortLastIsMax(p);
    HitDecision(Sort(p), FudgeFactor)
  }

  /** The decision depends only on the power values, not on which channel
      holds which. */
  lemma DecideIgnoresChannelOrder(p: seq<real>, q: seq<real>)
    requires |p| == Filter.FrequencyCount && multiset(p) == multiset(q)
    ensures |q| == Filter.FrequencyCount && Decide(p) == Decide(q)
  {
    assert |q| == |multiset(q)| == |multiset(p)| == |p|;
    SortSorted(p);
    SortedPermutationIsSort(Sort(p), q);
  }

  /** detector_detectHit with a signed inner index: sort the caller's array in
      place by insertion, then compare the largest value against the median
      times the fudge factor. */
  method DetectHit(powerValues: array<real>) returns (hit: bool)
    requires powerValues.Length == Filter.FrequencyCount
    modifies powerValues
    ensures powerValues[..] == Sort(old(powerValues[..]))
    ensures hit == Decide(old(powerValues[..]))
  {
    var i := 1;
    while i < Filter.FrequencyCount
      invariant 1 <= i <= Filter.FrequencyCount
      invariant forall p, q :: 0 <= p < q < i ==> powerValues[p] <= powerValues[q]
      invariant multiset(powerValues[..]) == multiset(old(powerValues[..]))
    {
      InsertInPlace(powerValues, i);
      i := i + 1;
    }
    SortedPermutationIsSort(powerValues[..], old(powerValues[..]));
    var medianValue := powerValues[MedianIndex];
    hit := powerValues[Filter.FrequencyCount - 1] > medianValue * FudgeFactor;
  }

  /** One outer step of detector_detectHit's sort: move the value at `i`
      down into the sorted prefix before it, shifting the larger values up. */
  method InsertInPlace(a: array<real>, i: nat)
    requires 0 < i < a.Length
    requires forall p, q :: 0 <= p < q < i ==> a[p] <= a[q]
    modifies a
    ensures forall p, q :: 0 <= p < q <= i ==> a[p] <= a[q]
    ensures multiset(a[..]) == multiset(old(a[..]))
    ensures a[..i + 1] == Insert(old(a[i]), old(a[..i]))
    ensures a[i + 1..] == old(a[i + 1..])
  {
    var key := a[i];
    var j := ShiftLarger(a, i, key);
    a[j + 1] := key;
    PrefixIsInsert(old(a[..]), a[..], i);
  }

  /** After one outer step, the first `i + 1` values are the reference
      insertion of the old `s[i]` into the old sorted prefix: both are sorted
      and hold the same values. */
  lemma PrefixIsInsert(s: seq<real>, t: seq<real>, i: nat)
    requires i < |s| == |t| && Sorted(s[..i])
    requires multiset(t) == multiset(s) && t[i + 1..] == s[i + 1..]
    requires forall p, q :: 0 <= p < q <= i ==> t[p] <= t[q]
    ensures t[..i + 1] == Insert(s[i], s[..i])
  {
    assert s == s[..i + 1] + s[i + 1..];
    assert t == t[..i + 1] + t[i + 1..];
    assert s[..i + 1] == s[..i] + [s[i]];
    assert multiset(t) == multiset(t[..i + 1]) + multiset(t[i + 1..]);
    assert multiset(s) == multiset(s[..i + 1]) + multiset(s[i + 1..]);
    assert multiset(t[..i + 1]) == multiset(s[..i + 1]) by {
      var m, n, c := multiset(t[..i + 1]), multiset(s[..i + 1]), multiset(s[i + 1..]);
      assert m + c == n + c;
      forall v ensures m[v] == n[v] {
        assert (m + c)[v] == (n + c)[v];
      }
    }
    assert multiset(s[..i + 1]) == multiset(s[..i]) + multiset{s[i]};
    InsertSorted(s[i], s[..i]);
    SortedUnique(t[..i + 1], Insert(s[i], s[..i]));
  }

  /** The first `i + 1` values of `s` are sorted, leaving out the hole at
      index `hole`. */
  ghost predicate SortedAround(s: seq<real>, i: nat, hole: int) {
    i < |s| && forall p, q :: 0 <= p < q <= i && p != hole && q != hole ==> s[p] <= s[q]
  }

  /** Every value of `s` strictly between `hole` and `i` (inclusive) is
      larger than `key`. */
  ghost predicate AboveKey(s: seq<real>, i: nat, hole: int, key: real) {
    i < |s| && forall k :: hole < k <= i && 0 <= k ==> s[k] > key
  }

  /** The inner loop of one outer step: shift every value of the sorted
      prefix that is larger than `key` one place up, leaving a hole at the
      returned index plus one. With `key` in the hole, the values are those of
      the array on entry; the prefix is sorted around the hole; the value
      below the hole is not larger than `key` and those above it are. */
  method ShiftLarger(a: array<real>, i: nat, key: real) returns (j: int)
    requires 0 < i < a.Length && a[i] == key
    requires forall p, q :: 0 <= p < q < i ==> a[p] <= a[q]
    modifies a
    ensures -1 <= j < i
    ensures multiset(a[..][j + 1 := key]) == multiset(old(a[..]))
    ensures SortedAround(a[..], i, j + 1) && AboveKey(a[..], i, j + 1, key)
    ensures j >= 0 ==> a[j] <= key
    ensures a[..j + 1] == old(a[..j + 1]) && a[i + 1..] == old(a[i + 1..])
  {
    j := i - 1;
    assert a[..][j + 1 := key] == a[..];
    while j >= 0 && a[j] > key
      invariant -1 <= j < i
      invariant multiset(a[..][j + 1 := key]) == multiset(old(a[..]))
      invariant SortedAround(a[..], i, j + 1) && AboveKey(a[..], i, j + 1, key)
      invariant Untouched(a[..], old(a[..]), j, i)
    {
      ghost var s := a[..];
      a[j + 1] := a[j];
      ShiftStep(s, a[..], i, j, key);
      ShiftKeepsOutside(s, a[..], old(a[..]), i, j);
      j := j - 1;
    }
  }

  /** One shift of the inner loop, from `s` to `t`: the value at `j` (larger
      than `key`) moves into the hole at `j + 1`, and the hole moves to `j`.
      The prefix stays sorted around the new hole, everything above it is
      larger than `key`, and with `key` in the hole the multiset is
      unchanged. */
  lemma ShiftStep(s: seq<real>, t: seq<real>, i: nat, j: nat, key: real)
    requires j < i < |s| && s[j] > key && t == s[j + 1 := s[j]]
    requires SortedAround(s, i, j + 1) && AboveKey(s, i, j + 1, key)
    ensures SortedAround(t, i, j) && AboveKey(t, i, j, key)
    ensures multiset(t[j := key]) == multiset(s[j + 1 := key])
  {
    ShiftKeepsMultiset(s, j, key);
  }

  /** `t` still holds the values of `o` at and below `lo` and above `i`. */
  ghost predicate Untouched(t: seq<real>, o: seq<real>, lo: int, i: nat) {
    |t| == |o| && -1 <= lo <= i < |t| && t[..lo + 1] == o[..lo + 1] && t[i + 1..] == o[i + 1..]
  }

  /** A shift writes only at `j + 1`, inside the range it may change. */
  lemma ShiftKeepsOutside(s: seq<real>, t: seq<real>, o: seq<real>, i: nat, j: nat)
    requires Untouched(s, o, j, i) && j < i && t == s[j + 1 := s[j]]
    ensures Untouched(t, o, j - 1, i)
  {
    assert t[..j] == s[..j] == s[..j + 1][..j];
    assert t[i + 1..] == s[i + 1..];
  }

  /** Shifting the value at `j` into the hole at `j + 1` and moving the hole
      (holding `key`) to `j` keeps the multiset of values. */
  lemma ShiftKeepsMultiset(s: seq<real>, j: nat, key: real)
    requires j + 1 < |s|
    ensures multiset(s[j + 1 := s[j]][j := key]) == multiset(s[j + 1 := key])
  {
    var t := s[j + 1 := key];
    var r := s[j + 1 := s[j]][j := key];
    assert t == t[..j] + [s[j], key] + t[j + 2..];
    assert r == t[..j] + [key, s[j]] + t[j + 2..];
    assert multiset([s[j], key]) == multiset([key, s[j]]);
  }

  // ---------------------------------------------------------------------
  // detector_detectHit as written

  /** The inner loop of detector_detectHit as written, from index `j`
      downwards: with an unsigned 8-bit `j`, the test `j >= 0` always holds,
      so the scan stops only at an index holding a value not above `key`; past
      index 0 it wraps to 255 and reads there. The result is the index of the
      last read. */
  function ScanAsWritten(a: seq<real>, key: real, j: nat): (r: nat)
    requires j < |a|
    ensures r == Uint8Range - 1 || (r <= j && a[r] <= key)
    decreases j
  {
    if a[j] <= key then j
    else if j == 0 then Uint8Range - 1
    else ScanAsWritten(a, key, j - 1)
  }

  /** The same scan with a signed index, which stops at -1. */
  function ScanSigned(a: seq<real>, key: real, j: int): (r: int)
    requires -1 <= j < |a|
    ensures -1 <= r <= j
    ensures r >= 0 ==> a[r] <= key
    ensures forall k :: r < k <= j ==> a[k] > key
    decreases j + 1
  {
    if j < 0 || a[j] <= key then j else ScanSigned(a, key, j - 1)
  }

  /** Whenever a key is smaller than every value at or below `j` (for
      instance a new minimum in the sorted prefix), the as-written scan reads
      index 255 of the ten-element power array, where the signed scan stops at
      -1; otherwise both stop at the same index. */
  lemma {:induction false} ScanAsWrittenReadsPastEnd(a: seq<real>, key: real, j: nat)
    requires |a| == Filter.FrequencyCount && j < |a|
    ensures ScanSigned(a, key, j) == -1 ==> ScanAsWritten(a, key, j) == Uint8Range - 1 >= |a|
    ensures ScanSigned(a, key, j) != -1 ==> ScanAsWritten(a, key, j) == ScanSigned(a, key, j)
    decreases j
  {
    if a[j] > key && j > 0 {
      ScanAsWrittenReadsPastEnd(a, key, j - 1);
    }
  }

  /** The first outer step (i = 1) on power values whose second value is below
      the first reads index 255. */
  lemma ScanAsWrittenCounterexample()
    ensures ScanAsWritten([2.0, 1.0, 0.0, 0.0, 0.0, 0.0, 0.0, 0.0, 0.0, 0.0], 1.0, 0) == 255
  {
  }

  /** The final comparison of detector_detectHit as written reads index
      FILTER_FREQUENCY_COUNT; there is no value there when the array holds
      exactly the ten power values. */
  function DecisionAsWritten(sorted: seq<real>): (r: Option<bool>)
    requires |sorted| > MedianIndex
    ensures r.Some? <==> Filter.FrequencyCount < |sorted|
  {
    if Filter.FrequencyCount < |sorted| then Some(sorted[Filter.FrequencyCount] > sorted[MedianIndex] * FudgeFactor)
    else None
  }

  /** For the ten power values the as-written decision has nothing to read. */
  lemma DecisionAsWrittenReadsPastEnd(sorted: seq<real>)
    requires |sorted| == Filter.FrequencyCount
    ensures DecisionAsWritten(sorted) == None
  {
  }

  // ---------------------------------------------------------------------
  // Hit bookkeeping

  /** Everything a hit commit changes: the hit counts, the hit flag and the
      two timers. */
  datatype HitState = HitState(
    counts: seq<int>,
    flag: bool,
    lockout: LockoutTimer.Snapshot,
    hitLed: HitLedTimer.Snapshot)

  /** `detector_hitArray[k]++` on `uint16_t` counts. */
  function Bump(counts: seq<int>, k: nat): (r: seq<int>)
    requires k < |counts|
    ensures |r| == |counts| && r[k] == (counts[k] + 1) % Uint16Range
    ensures forall m :: 0 <= m < |counts| && m != k ==> r[m] == counts[m]
  {
    counts[k := (counts[k] + 1) % Uint16Range]
  }

  /** The commit of a hit on `playerHit`: start the lockout and hit-LED
      timers, count the hit, raise the flag. */
  function Commit(h: HitState, playerHit: nat): (r: HitState)
    requires playerHit < |h.counts|
    ensures r.counts == Bump(h.counts, playerHit)
    ensures r.flag && r.lockout.state == LockoutTimer.Locked && r.hitLed.shouldStart
  {
    HitState(Bump(h.counts, playerHit), true, LockoutTimer.Started(h.lockout), HitLedTimer.Started(h.hitLed))
  }

  /** Channels 0 to `n - 1` of a decimation boundary, in order. */
  function RunChannels(iirA: seq<seq<real>>, iirB: seq<seq<real>>, s: Filter.BankState, n: nat): (r: Filter.BankState)
    ensures r.x == s.x && r.y == s.y
    decreases n
  {
    if n == 0 then s else Filter.ChannelStep(iirA, iirB, RunChannels(iirA, iirB, s, n - 1), n - 1)
  }

  /** The FIR filter can run on `s`: it has its taps and a full window, and
      the decimated window can take a push. */
  predicate FirFits(firB: seq<real>, s: Filter.BankState) {
    Filter.FirCoeffCount <= |firB| && Filter.FirCoeffCount <= |s.x.items| && CanPush(s.y)
  }

  /** One decimation boundary of detector(): filter_firFilter pushes the FIR
      output onto the decimated window, then every channel runs its IIR
      filter and its incremental power update. The FIR window is untouched.
      A state the FIR filter does not fit is left as it is. */
  function BankStep(firB: seq<real>, iirA: seq<seq<real>>, iirB: seq<seq<real>>, s: Filter.BankState): (r: Filter.BankState)
    ensures r.x == s.x
  {
    if !FirFits(firB, s) then s
    else
      var y := OverwritePush(s.y, Filter.TapSum(firB, s.x.items, Filter.FirCoeffCount));
      RunChannels(iirA, iirB, s.(y := y), |s.z|)
  }

  /** The filter bank and the sample count since its last run. */
  datatype Pipeline = Pipeline(bank: Filter.BankState, sampleCnt: nat)

  /** One drained sample: it is scaled and pushed onto the FIR window and
      counted; when the count reaches the decimation factor, it restarts at
      zero and the filter bank runs. A FIR window that cannot take a push
      leaves the pipeline as it is. */
  function SampleStep(firB: seq<real>, iirA: seq<seq<real>>, iirB: seq<seq<real>>, factor: nat,
                      p: Pipeline, raw: int): (r: Pipeline)
    ensures CanPush(p.bank.x) ==> CanPush(r.bank.x) && r.bank.x == OverwritePush(p.bank.x, Scaled(raw))
    ensures CanPush(p.bank.x) ==> r.sampleCnt == if p.sampleCnt + 1 == factor then 0 else p.sampleCnt + 1
  {
    if !CanPush(p.bank.x) then p
    else
      var b := p.bank.(x := OverwritePush(p.bank.x, Scaled(raw)));
      if p.sampleCnt + 1 == factor then Pipeline(BankStep(firB, iirA, iirB, b), 0)
      else Pipeline(b, p.sampleCnt + 1)
  }

  /** The first k samples drained by one call of detector(), oldest first. */
  function DrainFirst(firB: seq<real>, iirA: seq<seq<real>>, iirB: seq<seq<real>>, factor: nat,
                      p: Pipeline, samples: seq<int>, k: nat): (r: Pipeline)
    requires k <= |samples|
    decreases k
  {
    if k == 0 then p
    else SampleStep(firB, iirA, iirB, factor, DrainFirst(firB, iirA, iirB, factor, p, samples, k - 1), samples[k - 1])
  }

  /** All the samples drained by one call of detector(), oldest first. */
  function DrainAll(firB: seq<real>, iirA: seq<seq<real>>, iirB: seq<seq<real>>, factor: nat,
                    p: Pipeline, samples: seq<int>): (r: Pipeline)
  {
    DrainFirst(firB, iirA, iirB, factor, p, samples, |samples|)
  }

  /** Every drained sample reaches the FIR window, scaled and in order. */
  lemma {:induction false} DrainFeedsEverySample(firB: seq<real>, iirA: seq<seq<real>>, iirB: seq<seq<real>>,
                                                 factor: nat, p: Pipeline, samples: seq<int>, k: nat)
    requires CanPush(p.bank.x) && k <= |samples|
    ensures DrainFirst(firB, iirA, iirB, factor, p, samples, k).bank.x == PushAll(p.bank.x, ScaledAll(samples[..k]))
    decreases k
  {
    if k != 0 {
      DrainFeedsEverySample(firB, iirA, iirB, factor, p, samples, k - 1);
      DrainOneMore(p.bank.x, samples, k - 1);
    }
  }

  /** Every sample drained by one call reaches the FIR window, scaled and
      in order. */
  lemma DrainAllFeedsEverySample(firB: seq<real>, iirA: seq<seq<real>>, iirB: seq<seq<real>>,
                                 factor: nat, p: Pipeline, samples: seq<int>)
    requires CanPush(p.bank.x)
    ensures DrainAll(firB, iirA, iirB, factor, p, samples).bank.x == PushAll(p.bank.x, ScaledAll(samples))
  {
    DrainFeedsEverySample(firB, iirA, iirB, factor, p, samples, |samples|);
    assert samples[..|samples|] == samples;
  }

  /** The sample count stays below the decimation factor. */
  lemma {:induction false} DrainCountBelowFactor(firB: seq<real>, iirA: seq<seq<real>>, iirB: seq<seq<real>>,
                                                 factor: nat, p: Pipeline, samples: seq<int>, k: nat)
    requires CanPush(p.bank.x) && p.sampleCnt < factor && k <= |samples|
    ensures CanPush(DrainFirst(firB, iirA, iirB, factor, p, samples, k).bank.x)
    ensures DrainFirst(firB, iirA, iirB, factor, p, samples, k).sampleCnt < factor
    decreases k
  {
    if k != 0 {
      DrainCountBelowFactor(firB, iirA, iirB, factor, p, samples, k - 1);
    }
  }

  /** Running channels keeps every power value exact. */
  lemma {:induction false} RunChannelsKeepsInStep(iirA: seq<seq<real>>, iirB: seq<seq<real>>, s: Filter.BankState, n: nat)
    requires Filter.IirCoefficientsOk(iirA, iirB) && Filter.AllInStep(s) && n <= Filter.FrequencyCount
    ensures Filter.AllInStep(RunChannels(iirA, iirB, s, n))
    decreases n
  {
    if n > 0 {
      RunChannelsKeepsInStep(iirA, iirB, s, n - 1);
      Filter.ChannelStepKeepsAllInStep(iirA, iirB, RunChannels(iirA, iirB, s, n - 1), n - 1);
    }
  }

  /** No drift across a whole call of detector(): when every power value is
      the exact power of its output window before the drain, it still is
      after it, however many boundaries the drain crosses. */
  lemma {:induction false} DrainKeepsInStep(firB: seq<real>, iirA: seq<seq<real>>, iirB: seq<seq<real>>,
                                            factor: nat, p: Pipeline, samples: seq<int>, k: nat)
    requires Filter.CoefficientsOk(firB, iirA, iirB) && Filter.AllInStep(p.bank) && k <= |samples|
    ensures Filter.AllInStep(DrainFirst(firB, iirA, iirB, factor, p, samples, k).bank)
    decreases k
  {
    if k != 0 {
      DrainKeepsInStep(firB, iirA, iirB, factor, p, samples, k - 1);
      var q := DrainFirst(firB, iirA, iirB, factor, p, samples, k - 1);
      SampleStepKeepsInStep(firB, iirA, iirB, factor, q, samples[k - 1]);
    }
  }

  /** Draining every sample keeps every power value exact. */
  lemma DrainAllKeepsInStep(firB: seq<real>, iirA: seq<seq<real>>, iirB: seq<seq<real>>,
                            factor: nat, p: Pipeline, samples: seq<int>)
    requires Filter.CoefficientsOk(firB, iirA, iirB) && Filter.AllInStep(p.bank)
    ensures Filter.AllInStep(DrainAll(firB, iirA, iirB, factor, p, samples).bank)
  {
    DrainKeepsInStep(firB, iirA, iirB, factor, p, samples, |samples|);
  }

  /** One drained sample keeps every power value exact. */
  lemma SampleStepKeepsInStep(firB: seq<real>, iirA: seq<seq<real>>, iirB: seq<seq<real>>,
                              factor: nat, p: Pipeline, raw: int)
    requires Filter.CoefficientsOk(firB, iirA, iirB) && Filter.AllInStep(p.bank)
    ensures Filter.AllInStep(SampleStep(firB, iirA, iirB, factor, p, raw).bank)
  {
    var b := p.bank.(x := OverwritePush(p.bank.x, Scaled(raw)));
    Filter.WindowsDoNotAffectInStep(p.bank, b);
    if p.sampleCnt + 1 == factor {
      var y := OverwritePush(b.y, Filter.TapSum(firB, b.x.items, Filter.FirCoeffCount));
      Filter.WindowsDoNotAffectInStep(b, b.(y := y));
      RunChannelsKeepsInStep(iirA, iirB, b.(y := y), Filter.FrequencyCount);
    }
  }

  /** Draining one more sample pushes its scaled value onto the FIR window. */
  lemma DrainOneMore(x0: Queue, samples: seq<int>, i: nat)
    requires 0 < x0.capacity && |x0.items| <= x0.capacity && i < |samples|
    ensures PushAll(x0, ScaledAll(samples[..i + 1]))
         == OverwritePush(PushAll(x0, ScaledAll(samples[..i])), Scaled(samples[i]))
  {
    assert ScaledAll(samples[..i + 1]) == ScaledAll(samples[..i]) + [Scaled(samples[i])];
    PushAllSnoc(x0, ScaledAll(samples[..i]), Scaled(samples[i]));
  }

  /** The filter runs completed when n more samples are counted onto a
      count of c, for decimation factor F: (c + n) div F. */
  function RunsAfter(c: nat, n: nat, factor: nat): nat
    requires 0 < factor
  {
    (c + n) / factor
  }

  /** The sample count after n more samples are counted onto a count of c,
      for decimation factor F: (c + n) mod F. */
  function CountAfter(c: nat, n: nat, factor: nat): nat
    requires 0 < factor
  {
    (c + n) % factor
  }

  /** A positive multiple of a positive factor is at least the factor. */
  lemma MultipleAtLeastFactor(d: int, factor: int)
    requires 1 <= d && 0 < factor
    ensures d * factor >= factor
  {
    assert d * factor - factor == (d - 1) * factor;
  }

  /** Euclidean division has a unique quotient and remainder. */
  lemma DivModUnique(a: int, q: int, r: int, factor: int)
    requires 0 < factor && a == q * factor + r && 0 <= r < factor
    ensures a / factor == q && a % factor == r
  {
    var q', r' := a / factor, a % factor;
    assert a == q' * factor + r';
    if q' < q {
      assert (q - q') * factor == r' - r;
      MultipleAtLeastFactor(q - q', factor);
    } else if q < q' {
      assert (q' - q) * factor == r - r';
      MultipleAtLeastFactor(q' - q, factor);
    }
  }

  /** Counting one more sample: the count wraps to zero exactly when it
      reaches the decimation factor, and then one more run completes. */
  lemma CountOneMore(c: nat, n: nat, factor: nat)
    requires 0 < factor
    ensures CountAfter(c, n + 1, factor) ==
      if CountAfter(c, n, factor) + 1 == factor then 0 else CountAfter(c, n, factor) + 1
    ensures RunsAfter(c, n + 1, factor) ==
      if CountAfter(c, n, factor) + 1 == factor then RunsAfter(c, n, factor) + 1 else RunsAfter(c, n, factor)
  {
    var q, r := (c + n) / factor, (c + n) % factor;
    if r + 1 == factor {
      DivModUnique(c + n + 1, q + 1, 0, factor);
    } else {
      DivModUnique(c + n + 1, q, r + 1, factor);
    }
  }

  /** A count below the decimation factor, with no more samples, is itself. */
  lemma CountAfterNothing(c: nat, factor: nat)
    requires c < factor
    ensures CountAfter(c, 0, factor) == c && RunsAfter(c, 0, factor) == 0
  {
    DivModUnique(c, 0, c, factor);
  }

  /** The first filter run of a drain completes with its sample number
      factor - c, counting from 1: at least one run completes exactly when
      that many samples are drained. */
  lemma RunsAfterPositive(c: nat, n: nat, factor: nat)
    requires c < factor
    ensures RunsAfter(c, n, factor) > 0 <==> factor - c <= n
  {
    if c + n < factor {
      DivModUnique(c + n, 0, c + n, factor);
    } else {
      var m := c + n - factor;
      DivModUnique(c + n, m / factor + 1, m % factor, factor);
    }
  }

  /** The player detector() commits on for the power values of a boundary:
      the Boolean decision on them converted to 1 or 0. */
  function PlayerOf(p: seq<real>): nat {
    if |p| == Filter.FrequencyCount && Decide(p) then 1 else 0
  }

  /** What the drain loop of detector() refers back to: the samples the
      buffer held on entry, the pipeline, sample count, filter runs and hit
      state on entry, whether the lockout timer was running, and the hit
      state after a commit at the first boundary. */
  datatype DrainStart = DrainStart(
    samples: seq<int>, p0: Pipeline, c0: nat, firRuns0: nat, h0: HitState, locked: bool, first: HitState)

  /** The module state of detector.c, with the modules it drives. */
  class Detector {
    const buffer: SampleBuffer.Buffer
    const filter: Filter.FilterBank
    const lockout: LockoutTimer.Timer
    const hitLed: HitLedTimer.Timer
    /** FILTER_FIR_DECIMATION_FACTOR */
    const decimationFactor: nat
    /** detector_hitArray, `uint16_t` counts */
    const hitArray: array<int>

    var hitDetectedFlag: bool
    var ignoreAllHitsFlag: bool
    var invocationCount: nat
    var sampleCnt: nat

    ghost predicate Valid()
      reads this`sampleCnt, this`invocationCount, buffer, buffer.data, filter, hitArray
    {
      && buffer.Valid() && PipelineValid()
      && invocationCount < Uint32Range
      && hitArray != buffer.data
    }

    /** The part of the state a drained sample works on: the boundary state
        and the sample count, which stays below the decimation factor. */
    ghost predicate PipelineValid()
      reads this`sampleCnt, filter, hitArray
    {
      BoundaryValid() && 0 < decimationFactor && sampleCnt < decimationFactor
    }

    /** The part of the state a decimation boundary works on: the filter bank
        and the ten 16-bit hit counters. */
    ghost predicate BoundaryValid()
      reads filter, hitArray
    {
      && filter.Valid()
      && hitArray.Length == Filter.FrequencyCount
      && (forall k :: 0 <= k < hitArray.Length ==> 0 <= hitArray[k] < Uint16Range)
    }

    function HitSnap(): HitState
      reads this`hitDetectedFlag, hitArray, lockout, hitLed
    {
      HitState(hitArray[..], hitDetectedFlag, lockout.Snap(), hitLed.Snap())
    }

    /** The statics of detector.c, all zero, over the given modules. */
    constructor (buffer: SampleBuffer.Buffer, filter: Filter.FilterBank,
                 lockout: LockoutTimer.Timer, hitLed: HitLedTimer.Timer, decimationFactor: nat)
      requires buffer.Valid() && filter.Valid() && 0 < decimationFactor
      ensures Valid() && fresh(hitArray)
      ensures this.buffer == buffer && this.filter == filter
      ensures this.lockout == lockout && this.hitLed == hitLed
      ensures this.decimationFactor == decimationFactor
      ensures !hitDetectedFlag && !ignoreAllHitsFlag && invocationCount == 0 && sampleCnt == 0
      ensures hitArray[..] == seq(Filter.FrequencyCount, _ => 0)
    {
      this.buffer, this.filter, this.lockout, this.hitLed := buffer, filter, lockout, hitLed;
      this.decimationFactor := decimationFactor;
      hitArray := new int[Filter.FrequencyCount](_ => 0);
      hitDetectedFlag, ignoreAllHitsFlag := false, false;
      invocationCount, sampleCnt := 0, 0;
    }

    /** detector: drain every sample the buffer holds on entry through the
        filter bank. With c the sample count on entry and n the number of
        samples drained, the filters run (c + n) div F times and the count
        ends at (c + n) mod F, for F the decimation factor. At most one hit is
        committed, exactly when the lockout timer was not running on entry and
        the drain reached a decimation boundary; it is the decision on the power
        values of the first boundary, sample F - c. The invocation counter wraps
        at 2^32. */
    method Run()
      requires Valid()
      modifies this`invocationCount, this`sampleCnt, this`hitDetectedFlag, buffer
      modifies filter, filter.currentPowerValue, filter.oldestValue, lockout, hitLed, hitArray
      ensures Valid()
      ensures buffer.Contents == []
      ensures invocationCount == (old(invocationCount) + 1) % Uint32Range
      ensures Pipeline(filter.State(), sampleCnt) ==
        DrainAll(filter.firB, filter.iirA, filter.iirB, decimationFactor,
                 Pipeline(old(filter.State()), old(sampleCnt)), old(buffer.Contents))
      ensures filter.xQueue == PushAll(old(filter.xQueue), ScaledAll(old(buffer.Contents)))
      ensures filter.firRuns == old(filter.firRuns) + RunsAfter(old(sampleCnt), |old(buffer.Contents)|, decimationFactor)
      ensures sampleCnt == CountAfter(old(sampleCnt), |old(buffer.Contents)|, decimationFactor)
      ensures old(filter.AllPowerTracks()) ==> filter.AllPowerTracks()
      ensures ignoreAllHitsFlag == old(ignoreAllHitsFlag)
      ensures !old(lockout.Running()) && decimationFactor - old(sampleCnt) <= |old(buffer.Contents)| ==>
        HitSnap() == Commit(old(HitSnap()), PlayerOf(
          DrainFirst(filter.firB, filter.iirA, filter.iirB, decimationFactor, Pipeline(old(filter.State()), old(sampleCnt)),
                     old(buffer.Contents), decimationFactor - old(sampleCnt)).bank.power))
      ensures !(!old(lockout.Running()) && decimationFactor - old(sampleCnt) <= |old(buffer.Contents)|) ==>
        HitSnap() == old(HitSnap())
    {
      ghost var samples := buffer.Contents;
      ghost var p0 := Pipeline(filter.State(), sampleCnt);
      ghost var tracked := filter.AllPowerTracks();
      invocationCount := (invocationCount + 1) % Uint32Range;
      DrainBuffer();
      DrainAllFeedsEverySample(filter.firB, filter.iirA, filter.iirB, decimationFactor, p0, samples);
      if tracked {
        DrainAllKeepsInStep(filter.firB, filter.iirA, filter.iirB, decimationFactor, p0, samples);
      }
    }

    /** The drain loop of detector(): every sample the buffer holds, oldest
        first, goes through the pipeline. With c the count on entry and F the
        decimation factor, the first boundary comes with sample F - c. If the
        lockout timer is not running on entry and the drain reaches that
        boundary, the hit decided on its power values is committed; the
        commit starts the lockout timer, so no later boundary evaluates. */
    method DrainBuffer()
      requires Valid()
      modifies this`sampleCnt, this`hitDetectedFlag, buffer
      modifies filter, filter.currentPowerValue, filter.oldestValue, lockout, hitLed, hitArray
      ensures Valid()
      ensures buffer.Contents == []
      ensures Pipeline(filter.State(), sampleCnt) ==
        DrainAll(filter.firB, filter.iirA, filter.iirB, decimationFactor,
                 Pipeline(old(filter.State()), old(sampleCnt)), old(buffer.Contents))
      ensures filter.firRuns == old(filter.firRuns) + RunsAfter(old(sampleCnt), |old(buffer.Contents)|, decimationFactor)
      ensures sampleCnt == CountAfter(old(sampleCnt), |old(buffer.Contents)|, decimationFactor)
      ensures !old(lockout.Running()) && decimationFactor - old(sampleCnt) <= |old(buffer.Contents)| ==>
        HitSnap() == Commit(old(HitSnap()), PlayerOf(
          DrainFirst(filter.firB, filter.iirA, filter.iirB, decimationFactor, Pipeline(old(filter.State()), old(sampleCnt)),
                     old(buffer.Contents), decimationFactor - old(sampleCnt)).bank.power))
      ensures !(!old(lockout.Running()) && decimationFactor - old(sampleCnt) <= |old(buffer.Contents)|) ==>
        HitSnap() == old(HitSnap())
    {
      var elementCount := buffer.Elements();
      ghost var d := DrainStartHere();
      CountAfterNothing(d.c0, decimationFactor);
      var i := 0;
      while i < elementCount
        invariant i <= elementCount == |d.samples|
        invariant Valid() && Drained(d, i)
      {
        DrainStep(d, i);
        i := i + 1;
      }
      assert d.samples[..|d.samples|] == d.samples;
      RunsAfterPositive(d.c0, |d.samples|, decimationFactor);
    }

    /** The state on entry to the drain loop that its bookkeeping refers to. */
    ghost function DrainStartHere(): (d: DrainStart)
      requires Valid()
      reads this`sampleCnt, this`invocationCount, buffer, buffer.data, filter, filter.currentPowerValue
      reads filter.oldestValue, this`hitDetectedFlag, hitArray, lockout, hitLed
      ensures FirstOk(d)
    {
      var samples := buffer.Contents;
      var p0 := Pipeline(filter.State(), sampleCnt);
      var h0 := HitSnap();
      var k0: nat := decimationFactor - sampleCnt;
      var first := if k0 <= |samples| then
        Commit(h0, PlayerOf(DrainFirst(filter.firB, filter.iirA, filter.iirB, decimationFactor, p0, samples, k0).bank.power))
        else h0;
      DrainStart(samples, p0, sampleCnt, filter.firRuns, h0, lockout.Running(), first)
    }

    /** `d.first` is the hit state after the commit at the first boundary,
        when the drain reaches it. */
    ghost predicate FirstOk(d: DrainStart) {
      && d.c0 < decimationFactor
      && |d.h0.counts| == Filter.FrequencyCount
      && (d.locked <==> d.h0.lockout.state == LockoutTimer.Locked)
      && d.first == (if decimationFactor - d.c0 <= |d.samples| then
           Commit(d.h0, PlayerOf(DrainFirst(filter.firB, filter.iirA, filter.iirB, decimationFactor, d.p0, d.samples,
                                            decimationFactor - d.c0).bank.power))
           else d.h0)
    }

    /** The drain loop's invariant after its first i samples: the buffer
        holds the rest, the pipeline is the drain fold over the first i, and
        the hit state is the entry state until the first boundary and the
        commit of the first boundary's decision from then on, unless the
        lockout was running on entry. */
    ghost predicate Drained(d: DrainStart, i: nat)
      reads this`sampleCnt, buffer, filter, filter.currentPowerValue, filter.oldestValue
      reads this`hitDetectedFlag, hitArray, lockout, hitLed
    {
      && FirstOk(d)
      && i <= |d.samples| && buffer.Contents == d.samples[i..]
      && Pipeline(filter.State(), sampleCnt) ==
           DrainFirst(filter.firB, filter.iirA, filter.iirB, decimationFactor, d.p0, d.samples, i)
      && filter.firRuns == d.firRuns0 + RunsAfter(d.c0, i, decimationFactor)
      && sampleCnt == CountAfter(d.c0, i, decimationFactor)
      && HitOk(d, filter.firRuns, HitSnap())
    }

    /** With `runs` filter runs so far, the hit state is `d.first` once a
        boundary has been reached with the lockout timer idle on entry, and
        the entry state otherwise. */
    ghost predicate HitOk(d: DrainStart, runs: nat, h: HitState) {
      && (!d.locked && runs > d.firRuns0 ==> h == d.first && d.first.lockout.state == LockoutTimer.Locked)
      && (!(!d.locked && runs > d.firRuns0) ==> h == d.h0)
    }

    /** One drained sample keeps `HitOk`: only the first boundary, with the
        lockout timer idle, commits, and it commits `d.first`. */
    lemma {:induction false} HitStep(d: DrainStart, i: nat, runs: nat, runs': nat, h: HitState, h': HitState)
      requires FirstOk(d) && i < |d.samples| && HitOk(d, runs, h)
      requires runs == d.firRuns0 + RunsAfter(d.c0, i, decimationFactor)
      requires runs' == d.firRuns0 + RunsAfter(d.c0, i + 1, decimationFactor)
      requires runs' == runs || runs' == runs + 1
      requires runs' == runs || h.lockout.state == LockoutTimer.Locked ==> h' == h
      requires runs' == runs + 1 && h.lockout.state != LockoutTimer.Locked ==>
        h' == Commit(h, PlayerOf(DrainFirst(filter.firB, filter.iirA, filter.iirB, decimationFactor, d.p0, d.samples, i + 1).bank.power))
      ensures HitOk(d, runs', h')
    {
      if !d.locked && runs == d.firRuns0 < runs' {
        RunsAfterPositive(d.c0, i, decimationFactor);
        RunsAfterPositive(d.c0, i + 1, decimationFactor);
        FirstCommitIs(d, i + 1, h, h');
      }
    }

    /** At the first boundary, the commit of its decision is `d.first`. */
    lemma FirstCommitIs(d: DrainStart, k: nat, h: HitState, h': HitState)
      requires FirstOk(d) && k <= |d.samples| && k == decimationFactor - d.c0 && h == d.h0
      requires h' == Commit(h, PlayerOf(DrainFirst(filter.firB, filter.iirA, filter.iirB, decimationFactor, d.p0, d.samples, k).bank.power))
      ensures h' == d.first
    {
    }

    /** One pass of the drain loop, with its bookkeeping. */
    method DrainStep(ghost d: DrainStart, ghost i: nat)
      requires Valid() && Drained(d, i) && i < |d.samples|
      modifies this`sampleCnt, this`hitDetectedFlag, buffer, filter, filter.currentPowerValue, filter.oldestValue
      modifies lockout, hitLed, hitArray
      ensures Valid() && Drained(d, i + 1)
    {
      ghost var runs, h := filter.firRuns, HitSnap();
      assert lockout.Running() <==> h.lockout.state == LockoutTimer.Locked;
      ProcessNextSample(d.p0, d.samples, i);
      CountOneMore(d.c0, i, decimationFactor);
      HitStep(d, i, runs, filter.firRuns, h, HitSnap());
    }

    /** The body of the drain loop: pop the oldest sample, then feed it
        through the pipeline. When the first i samples of `samples` have been
        drained from p0 and the buffer's oldest sample is samples[i], the
        pipeline afterwards is the one that drained the first i + 1. */
    method ProcessNextSample(ghost p0: Pipeline, ghost samples: seq<int>, ghost i: nat)
      requires Valid() && i < |samples| && buffer.Contents == samples[i..]
      requires Pipeline(filter.State(), sampleCnt) ==
        DrainFirst(filter.firB, filter.iirA, filter.iirB, decimationFactor, p0, samples, i)
      modifies this`sampleCnt, this`hitDetectedFlag, buffer, filter, filter.currentPowerValue, filter.oldestValue
      modifies lockout, hitLed, hitArray
      ensures Valid()
      ensures buffer.Contents == samples[i + 1..]
      ensures Pipeline(filter.State(), sampleCnt) ==
        DrainFirst(filter.firB, filter.iirA, filter.iirB, decimationFactor, p0, samples, i + 1)
      ensures sampleCnt == if BoundaryReached(old(sampleCnt)) then 0 else old(sampleCnt) + 1
      ensures BoundaryReached(old(sampleCnt)) ==> filter.firRuns == old(filter.firRuns) + 1
      ensures !BoundaryReached(old(sampleCnt)) ==> filter.firRuns == old(filter.firRuns) && HitSnap() == old(HitSnap())
      ensures BoundaryReached(old(sampleCnt)) && old(lockout.Running()) ==> HitSnap() == old(HitSnap())
      ensures BoundaryReached(old(sampleCnt)) && !old(lockout.Running()) ==>
        HitSnap() == Commit(old(HitSnap()), if Decide(filter.currentPowerValue[..]) then 1 else 0)
      ensures BoundaryReached(old(sampleCnt)) && !old(lockout.Running()) ==>
        HitSnap() == Commit(old(HitSnap()), PlayerOf(
          DrainFirst(filter.firB, filter.iirA, filter.iirB, decimationFactor, p0, samples, i + 1).bank.power))
    {
      var rawAdcValue := buffer.Pop();
      FeedSample(rawAdcValue);
    }

    /** Whether counting one more sample onto `cnt` reaches the decimation
        factor. */
    predicate BoundaryReached(cnt: nat) {
      cnt + 1 == decimationFactor
    }

    /** One popped sample: scale it, feed it to the FIR window, count it, and
        at a decimation boundary run the filter bank and the hit evaluation. */
    method FeedSample(rawAdcValue: int)
      requires PipelineValid()
      modifies this`sampleCnt, this`hitDetectedFlag, filter, filter.currentPowerValue, filter.oldestValue
      modifies lockout, hitLed, hitArray
      ensures PipelineValid()
      ensures Pipeline(filter.State(), sampleCnt) ==
        SampleStep(filter.firB, filter.iirA, filter.iirB, decimationFactor,
                   Pipeline(old(filter.State()), old(sampleCnt)), rawAdcValue)
      ensures sampleCnt == if BoundaryReached(old(sampleCnt)) then 0 else old(sampleCnt) + 1
      ensures BoundaryReached(old(sampleCnt)) ==> filter.firRuns == old(filter.firRuns) + 1
      ensures !BoundaryReached(old(sampleCnt)) ==> filter.firRuns == old(filter.firRuns) && HitSnap() == old(HitSnap())
      ensures BoundaryReached(old(sampleCnt)) && old(lockout.Running()) ==> HitSnap() == old(HitSnap())
      ensures BoundaryReached(old(sampleCnt)) && !old(lockout.Running()) ==>
        HitSnap() == Commit(old(HitSnap()), if Decide(filter.currentPowerValue[..]) then 1 else 0)
    {
      ghost var h := HitSnap();
      var scaledAdcValue := Scaled(rawAdcValue);
      filter.AddNewInput(scaledAdcValue);
      ghost var b := filter.State();
      assert HitSnap() == h;
      sampleCnt := sampleCnt + 1;
      if sampleCnt == decimationFactor {
        sampleCnt := 0;
        Decimate();
        assert filter.State() == BankStep(filter.firB, filter.iirA, filter.iirB, b);
      }
    }

    /** A decimation boundary: the filter bank runs, then the hit evaluation,
        which sees the power values the filter bank has just updated. */
    method Decimate()
      requires BoundaryValid()
      modifies this`hitDetectedFlag, filter`yQueue, filter`firRuns, filter`zQueues, filter`outputQueues
      modifies filter.currentPowerValue, filter.oldestValue, lockout, hitLed, hitArray
      ensures BoundaryValid()
      ensures filter.firRuns == old(filter.firRuns) + 1
      ensures filter.State() == BankStep(filter.firB, filter.iirA, filter.iirB, old(filter.State()))
      ensures old(lockout.Running()) ==> HitSnap() == old(HitSnap())
      ensures !old(lockout.Running()) ==>
        HitSnap() == Commit(old(HitSnap()), if Decide(filter.currentPowerValue[..]) then 1 else 0)
    {
      RunFilterBank();
      EvaluateHit();
    }

    /** One decimation boundary: the FIR filter, then for each channel in
        order its IIR filter and its incremental power update. */
    method RunFilterBank()
      requires filter.Valid()
      modifies filter`yQueue, filter`firRuns, filter`zQueues, filter`outputQueues
      modifies filter.currentPowerValue, filter.oldestValue
      ensures filter.Valid()
      ensures filter.firRuns == old(filter.firRuns) + 1
      ensures filter.State() == BankStep(filter.firB, filter.iirA, filter.iirB, old(filter.State()))
      ensures old(filter.AllPowerTracks()) ==> filter.AllPowerTracks()
    {
      ghost var s0 := filter.State();
      assert FirFits(filter.firB, s0);
      var _ := filter.FirFilter();
      ghost var s1 := filter.State();
      var filterNumber := 0;
      while filterNumber < Filter.FrequencyCount
        invariant 0 <= filterNumber <= Filter.FrequencyCount
        invariant filter.Valid()
        invariant filter.firRuns == old(filter.firRuns) + 1
        invariant filter.State() == RunChannels(filter.iirA, filter.iirB, s1, filterNumber)
      {
        RunChannel(filterNumber);
        filterNumber := filterNumber + 1;
      }
      if Filter.AllInStep(s0) {
        Filter.WindowsDoNotAffectInStep(s0, s1);
        RunChannelsKeepsInStep(filter.iirA, filter.iirB, s1, Filter.FrequencyCount);
      }
    }

    /** Channel `n` at a decimation boundary: its IIR filter, then its
        incremental power update, which keeps the power value equal to the sum
        of squares of the channel's output window. */
    method RunChannel(n: nat)
      requires filter.Valid() && n < Filter.FrequencyCount
      modifies filter`zQueues, filter`outputQueues, filter.currentPowerValue, filter.oldestValue
      ensures filter.Valid()
      ensures filter.State() == Filter.ChannelStep(filter.iirA, filter.iirB, old(filter.State()), n)
    {
      ghost var s0 := filter.State();
      Filter.StateOkFitsEveryChannel(filter.iirA, filter.iirB, s0, n);
      var z := filter.IirFilter(n);
      ghost var q := OverwritePush(s0.out[n], z);
      assert filter.outputQueues[n] == q && q.items[|q.items| - 1] == z;
      assert filter.currentPowerValue[..] == s0.power && filter.oldestValue[..] == s0.oldest;
      var power := filter.ComputePower(n, false);
      ghost var t := Filter.ChannelStep(filter.iirA, filter.iirB, s0, n);
      assert t.z == filter.zQueues && t.out == filter.outputQueues;
      assert t.power[n] == Filter.IncrementalPower(s0.power[n], s0.oldest[n], z) == power;
      assert t.power == filter.currentPowerValue[..];
      assert t.oldest == filter.oldestValue[..];
    }

    /** The lockout-gated hit evaluation of a decimation boundary: copy the
        power values, decide on the copy, and commit the hit unconditionally. */
    method EvaluateHit()
      requires BoundaryValid()
      modifies this`hitDetectedFlag, lockout, hitLed, hitArray
      ensures BoundaryValid()
      ensures old(lockout.Running()) ==> HitSnap() == old(HitSnap())
      ensures !old(lockout.Running()) ==>
        HitSnap() == Commit(old(HitSnap()), if Decide(filter.currentPowerValue[..]) then 1 else 0)
      ensures filter.State() == old(filter.State())
    {
      if !lockout.Running() {
        var playerHit := PlayerHit();
        CommitHit(playerHit);
      }
    }

    /** The hit decision on a copy of the filter bank's current power values:
        player 1 when detector_detectHit reports a hit, player 0 otherwise. */
    method PlayerHit() returns (playerHit: nat)
      requires BoundaryValid()
      ensures playerHit == if Decide(filter.currentPowerValue[..]) then 1 else 0
    {
      var powerValues := new real[Filter.FrequencyCount];
      filter.GetCurrentPowerValues(powerValues);
      var hit := DetectHit(powerValues);
      playerHit := if hit then 1 else 0;
    }

    /** The commit of a hit on channel `playerHit`: lock out further hits,
        light the hit LED, count the hit (modulo 2^16) and raise the flag. */
    method CommitHit(playerHit: nat)
      requires BoundaryValid() && playerHit < Filter.FrequencyCount
      modifies this`hitDetectedFlag, lockout, hitLed, hitArray
      ensures BoundaryValid()
      ensures HitSnap() == Commit(old(HitSnap()), playerHit)
    {
      lockout.Start();
      hitLed.Start();
      hitArray[playerHit] := (hitArray[playerHit] + 1) % Uint16Range;
      hitDetectedFlag := true;
      assert hitArray[..] == Bump(old(hitArray[..]), playerHit);
    }

    /** detector_hitDetected */
    function HitDetected(): (r: bool)
      reads this
      ensures r <==> hitDetectedFlag
    {
      hitDetectedFlag
    }

    /** detector_clearHit: lowers the flag and changes nothing else. */
    method ClearHit()
      modifies this`hitDetectedFlag
      ensures !HitDetected()
    {
      hitDetectedFlag := false;
    }

    /** detector_ignoreAllHits: only records the flag, which nothing reads. */
    method IgnoreAllHits(flagValue: bool)
      modifies this`ignoreAllHitsFlag
      ensures ignoreAllHitsFlag == flagValue
    {
      ignoreAllHitsFlag := flagValue;
    }

    /** detector_getInvocationCount */
    function GetInvocationCount(): (n: nat)
      reads this
      ensures n == invocationCount
    {
      invocationCount
    }
  }
}
