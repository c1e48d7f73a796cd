/** The filter bank of lasertag/filter.c: a decimating FIR filter whose output
    feeds ten IIR band-pass filters, one per player frequency, each followed by
    a running power (sum of squares) estimate. `double` is modelled as `real`
    and `pow(x, 2)` as `x * x`, so every identity below is exact. */
module Filter {
  import opened Queues

  const FirCoeffCount: nat := 81
  const FrequencyCount: nat := 10
  const IirCoeffCount: nat := 11
  const XQueueSize: nat := FirCoeffCount
  const YQueueSize: nat := IirCoeffCount
  const ZQueueSize: nat := IirCoeffCount - 1

  /** The tapped sum Σ_{i<k} c[i] * w[|w| - 1 - i]: coefficient `i` multiplies
      the window item `i` places older than the newest one. */
  function TapSum(c: seq<real>, w: seq<real>, k: nat): real
    requires k <= |c| && k <= |w|
  {
    if k == 0 then 0.0 else TapSum(c, w, k - 1) + c[k - 1] * w[|w| - k]
  }

  /** An all-zero window produces a zero output, whatever the coefficients. */
  lemma {:induction false} TapSumOfZeros(c: seq<real>, w: seq<real>, k: nat)
    requires k <= |c| && k <= |w|
    requires forall j :: 0 <= j < |w| ==> w[j] == 0.0
    ensures TapSum(c, w, k) == 0.0
  {
    if k > 0 {
      TapSumOfZeros(c, w, k - 1);
    }
  }

  /** Impulse response: a window that is zero except for the value `v` at
      position `p` produces `c[|w| - 1 - p] * v` when that coefficient is among
      the first `k`, and zero otherwise. This pins down which coefficient
      multiplies which window position. */
  lemma {:induction false} TapSumOfImpulse(c: seq<real>, w: seq<real>, k: nat, p: nat)
    requires k <= |c| && k <= |w| && p < |w|
    requires forall j :: 0 <= j < |w| && j != p ==> w[j] == 0.0
    ensures |w| - k <= p ==> TapSum(c, w, k) == c[|w| - 1 - p] * w[p]
    ensures p < |w| - k ==> TapSum(c, w, k) == 0.0
  {
    if k > 0 {
      TapSumOfImpulse(c, w, k - 1, p);
    }
  }

  /** Only the first `k` coefficients take part in a tapped sum of length `k`. */
  lemma {:induction false} TapSumUsesFirstCoefficients(c: seq<real>, c': seq<real>, w: seq<real>, k: nat)
    requires k <= |c| && k <= |c'| && k <= |w|
    requires c[..k] == c'[..k]
    ensures TapSum(c, w, k) == TapSum(c', w, k)
  {
    if k > 0 {
      assert c[k - 1] == c[..k][k - 1] == c'[..k][k - 1] == c'[k - 1];
      assert c[..k - 1] == c[..k][..k - 1];
      assert c'[..k - 1] == c'[..k][..k - 1];
      TapSumUsesFirstCoefficients(c, c', w, k - 1);
    }
  }

  /** The IIR feedback sum runs over `a[0..9]` only, so the last feedback
      coefficient `a[10]` never affects a channel's output. */
  lemma FeedbackIgnoresLastCoefficient(a: seq<real>, a': seq<real>, z: seq<real>)
    requires |a| == IirCoeffCount && |a'| == IirCoeffCount && |z| == ZQueueSize
    requires a[..ZQueueSize] == a'[..ZQueueSize]
    ensures TapSum(a, z, ZQueueSize) == TapSum(a', z, ZQueueSize)
  {
    TapSumUsesFirstCoefficients(a, a', z, ZQueueSize);
  }

  /** The power of a window: the sum of the squares of its items. */
  function SumSquares(s: seq<real>): (r: real)
    ensures r >= 0.0
  {
    if s == [] then 0.0 else s[0] * s[0] + SumSquares(s[1..])
  }

  lemma {:induction false} SumSquaresSnoc(s: seq<real>, x: real)
    ensures SumSquares(s + [x]) == SumSquares(s) + x * x
  {
    if s == [] {
      assert [] + [x] == [x];
    } else {
      assert (s + [x])[1..] == s[1..] + [x];
      SumSquaresSnoc(s[1..], x);
    }
  }

  lemma {:induction false} SumSquaresOfZeros(n: nat)
    ensures SumSquares(Zeros(n)) == 0.0
  {
    if n > 0 {
      assert Zeros(n)[1..] == Zeros(n - 1);
      SumSquaresOfZeros(n - 1);
    }
  }

  /** The incremental power update of filter_computePower: the square of the
      value leaving the window is subtracted and the square of the value
      entering it is added. */
  function IncrementalPower(power: real, oldest: real, newest: real): real {
    power - oldest * oldest + newest * newest
  }

  /** The incremental power update of filter_computePower is exact: if `power`
      is the power of a full window `w` and `oldest` is its item 0, then after
      the window slides by one value, `power - oldest² + newest²` is the power
      of the new window, and its new item 0 is the next value to be evicted. */
  lemma IncrementalPowerIsExact(w: seq<real>, power: real, oldest: real, x: real)
    requires |w| > 0 && power == SumSquares(w) && oldest == w[0]
    ensures SumSquares(w[1..] + [x]) == IncrementalPower(power, oldest, x)
  {
    var rest := SumSquares(w[1..]);
    assert power == oldest * oldest + rest;
    SumSquaresSnoc(w[1..], x);
    assert SumSquares(w[1..] + [x]) == rest + x * x;
  }

  /** One decimation cycle of a channel's power tracker: the window slides by
      `x`, then the incremental update runs and the oldest value is captured. */
  datatype PowerTracker = PowerTracker(window: seq<real>, power: real, oldest: real)

  function SlideAndUpdate(t: PowerTracker, x: real): (r: PowerTracker)
    requires |t.window| > 0
    ensures |r.window| == |t.window|
  {
    var w := t.window[1..] + [x];
    PowerTracker(w, IncrementalPower(t.power, t.oldest, x), w[0])
  }

  function SlideAll(t: PowerTracker, xs: seq<real>): (r: PowerTracker)
    requires |t.window| > 0
    ensures |r.window| == |t.window|
    decreases |xs|
  {
    if xs == [] then t else SlideAll(SlideAndUpdate(t, xs[0]), xs[1..])
  }

  /** The tracker is in step with its window. */
  ghost predicate InStep(t: PowerTracker) {
    |t.window| > 0 && t.power == SumSquares(t.window) && t.oldest == t.window[0]
  }

  /** No drift: however many outputs go through the window, the incrementally
      maintained power equals the power recomputed from scratch. */
  lemma {:induction false} IncrementalPowerNeverDrifts(t: PowerTracker, xs: seq<real>)
    requires InStep(t)
    ensures InStep(SlideAll(t, xs))
    ensures SlideAll(t, xs).power == SumSquares(SlideAll(t, xs).window)
    decreases |xs|
  {
    if xs != [] {
      IncrementalPowerIsExact(t.window, t.power, t.oldest, xs[0]);
      IncrementalPowerNeverDrifts(SlideAndUpdate(t, xs[0]), xs[1..]);
    }
  }

  /** The coefficient tables have the sizes filter.c declares. */
  ghost predicate IirCoefficientsOk(iirA: seq<seq<real>>, iirB: seq<seq<real>>) {
    && |iirA| == FrequencyCount && |iirB| == FrequencyCount
    && (forall n :: 0 <= n < FrequencyCount ==> |iirA[n]| == IirCoeffCount)
    && (forall n :: 0 <= n < FrequencyCount ==> |iirB[n]| == IirCoeffCount)
  }

  ghost predicate CoefficientsOk(firB: seq<real>, iirA: seq<seq<real>>, iirB: seq<seq<real>>) {
    |firB| == FirCoeffCount && IirCoefficientsOk(iirA, iirB)
  }

  /** The state of the filter bank as a value: the FIR window `x`, the
      decimated window `y`, and for each channel its feedback window, its
      output window, its power value and its captured oldest output. */
  datatype BankState = BankState(
    x: Queue,
    y: Queue,
    z: seq<Queue>,
    out: seq<Queue>,
    power: seq<real>,
    oldest: seq<real>)

  /** Every window is full at its capacity, and there are ten channels. */
  ghost predicate QueuesOk(x: Queue, y: Queue, z: seq<Queue>, out: seq<Queue>) {
    && x.capacity == XQueueSize && x.Full()
    && y.capacity == YQueueSize && y.Full()
    && |z| == FrequencyCount && |out| == FrequencyCount
    && (forall n :: 0 <= n < FrequencyCount ==> z[n].capacity == ZQueueSize && z[n].Full())
    && (forall n :: 0 <= n < FrequencyCount ==> 0 < out[n].capacity && out[n].Full())
  }

  ghost predicate StateOk(s: BankState) {
    && QueuesOk(s.x, s.y, s.z, s.out)
    && |s.power| == FrequencyCount && |s.oldest| == FrequencyCount
  }

  /** The output of an IIR filter: the feed-forward sum over the decimated
      window `y` minus the feedback sum over the channel's own history `z`. */
  function IirOutput(a: seq<real>, b: seq<real>, y: seq<real>, z: seq<real>): real
    requires YQueueSize <= |b| && YQueueSize <= |y| && ZQueueSize <= |a| && ZQueueSize <= |z|
  {
    TapSum(b, y, YQueueSize) - TapSum(a, z, ZQueueSize)
  }

  /** Channel `n` has the coefficients and windows its step reads and pushes
      onto. Every state `StateOk` admits fits every channel
      (`StateOkFitsEveryChannel`); the check itself has no quantifier. */
  predicate ChannelFits(iirA: seq<seq<real>>, iirB: seq<seq<real>>, s: BankState, n: nat) {
    && n < |iirA| && n < |iirB| && ZQueueSize <= |iirA[n]| && YQueueSize <= |iirB[n]|
    && n < |s.z| && n < |s.out| && n < |s.power| && n < |s.oldest|
    && YQueueSize <= |s.y.items|
    && ZQueueSize <= |s.z[n].items| && CanPush(s.z[n]) && CanPush(s.out[n])
  }

  lemma StateOkFitsEveryChannel(iirA: seq<seq<real>>, iirB: seq<seq<real>>, s: BankState, n: nat)
    requires IirCoefficientsOk(iirA, iirB) && StateOk(s) && n < FrequencyCount
    ensures ChannelFits(iirA, iirB, s, n)
  {
    assert s.z[n].capacity == ZQueueSize && s.z[n].Full();
    assert 0 < s.out[n].capacity && s.out[n].Full();
  }

  /** Channel `n` of a decimation boundary: filter_iirFilter pushes the
      channel's output onto its feedback and output windows, then
      filter_computePower (not from scratch) updates its power value
      incrementally and captures its oldest output. Neither shared window
      changes. A state the channel does not fit is left as it is. */
  function ChannelStep(iirA: seq<seq<real>>, iirB: seq<seq<real>>, s: BankState, n: nat): (r: BankState)
    ensures r.x == s.x && r.y == s.y
  {
    if !ChannelFits(iirA, iirB, s, n) then s
    else
      var v := IirOutput(iirA[n], iirB[n], s.y.items, s.z[n].items);
      var q := OverwritePush(s.out[n], v);
      s.(z := s.z[n := OverwritePush(s.z[n], v)],
         out := s.out[n := q],
         power := s.power[n := IncrementalPower(s.power[n], s.oldest[n], v)],
         oldest := s.oldest[n := q.items[0]])
  }

  /** A channel step keeps every window full at its capacity, and changes
      no other channel. */
  lemma ChannelStepKeepsStateOk(iirA: seq<seq<real>>, iirB: seq<seq<real>>, s: BankState, n: nat)
    requires IirCoefficientsOk(iirA, iirB) && StateOk(s) && n < FrequencyCount
    ensures StateOk(ChannelStep(iirA, iirB, s, n))
    ensures forall m :: 0 <= m < FrequencyCount && m != n ==>
      var r := ChannelStep(iirA, iirB, s, n);
      r.z[m] == s.z[m] && r.out[m] == s.out[m] && r.power[m] == s.power[m] && r.oldest[m] == s.oldest[m]
  {
    StateOkFitsEveryChannel(iirA, iirB, s, n);
  }

  /** Channel `k`'s power value is the power of its output window, and its
      captured oldest value is that window's item 0. */
  ghost predicate InStepAt(s: BankState, k: nat) {
    && k < |s.power| && k < |s.oldest| && k < |s.out| && 0 < |s.out[k].items|
    && s.power[k] == SumSquares(s.out[k].items) && s.oldest[k] == s.out[k].items[0]
  }

  /** Every channel's power value is exact. */
  ghost predicate AllInStep(s: BankState) {
    StateOk(s) && forall k :: 0 <= k < FrequencyCount ==> InStepAt(s, k)
  }

  /** A channel step keeps every channel's power value exact: the stepped
      channel by the incremental update, the others by not changing. */
  lemma ChannelStepKeepsInStep(iirA: seq<seq<real>>, iirB: seq<seq<real>>, s: BankState, n: nat, k: nat)
    requires IirCoefficientsOk(iirA, iirB) && StateOk(s) && n < FrequencyCount && k < FrequencyCount
    requires InStepAt(s, k)
    ensures InStepAt(ChannelStep(iirA, iirB, s, n), k)
  {
    ChannelStepKeepsStateOk(iirA, iirB, s, n);
    if k == n {
      var v := IirOutput(iirA[n], iirB[n], s.y.items, s.z[n].items);
      IncrementalPowerIsExact(s.out[n].items, s.power[n], s.oldest[n], v);
    }
  }

  /** A channel step keeps every power value exact. */
  lemma ChannelStepKeepsAllInStep(iirA: seq<seq<real>>, iirB: seq<seq<real>>, s: BankState, n: nat)
    requires IirCoefficientsOk(iirA, iirB) && AllInStep(s) && n < FrequencyCount
    ensures AllInStep(ChannelStep(iirA, iirB, s, n))
  {
    ChannelStepKeepsStateOk(iirA, iirB, s, n);
    var t := ChannelStep(iirA, iirB, s, n);
    forall k | 0 <= k < FrequencyCount
      ensures InStepAt(t, k)
    {
      ChannelStepKeepsInStep(iirA, iirB, s, n, k);
    }
  }

  /** Whether the power values are exact does not depend on the FIR and
      decimated windows. */
  lemma WindowsDoNotAffectInStep(s: BankState, t: BankState)
    requires AllInStep(s) && StateOk(t)
    requires t.out == s.out && t.power == s.power && t.oldest == s.oldest
    ensures AllInStep(t)
  {
    forall k | 0 <= k < FrequencyCount
      ensures InStepAt(t, k)
    {
      assert InStepAt(s, k);
    }
  }

  /** The module state of filter.c. The coefficient tables are parameters:
      only their shapes matter here. */
  class FilterBank {
    const firB: seq<real>
    const iirA: seq<seq<real>>
    const iirB: seq<seq<real>>
    /** OUTPUT_QUEUE_SIZE, that is FILTER_INPUT_PULSE_WIDTH */
    const outputQueueSize: nat

    var xQueue: Queue
    var yQueue: Queue
    var zQueues: seq<Queue>
    var outputQueues: seq<Queue>

    const currentPowerValue: array<real>
    const oldestValue: array<real>

    /** How many times the FIR filter has run. */
    ghost var firRuns: nat

    /** The fixed shapes: table sizes, channel count and state arrays. */
    ghost predicate Shape()
      reads this
    {
      && CoefficientsOk(firB, iirA, iirB)
      && 0 < outputQueueSize
      && |zQueues| == FrequencyCount && |outputQueues| == FrequencyCount
      && currentPowerValue.Length == FrequencyCount
      && oldestValue.Length == FrequencyCount
      && currentPowerValue != oldestValue
    }

    /** After filter_init every queue has its capacity and is full. */
    ghost predicate Valid()
      reads this
    {
      && Shape()
      && QueuesOk(xQueue, yQueue, zQueues, outputQueues)
      && (forall n :: 0 <= n < FrequencyCount ==> outputQueues[n].capacity == outputQueueSize)
    }

    /** The filter-bank state as a value. */
    function State(): BankState
      reads this, currentPowerValue, oldestValue
    {
      BankState(xQueue, yQueue, zQueues, outputQueues, currentPowerValue[..], oldestValue[..])
    }

    /** Every channel's power value and oldest value are in step with its
        output queue, as the incremental update needs. */
    ghost predicate AllPowerTracks()
      reads this, currentPowerValue, oldestValue
    {
      AllInStep(State())
    }

    /** The statically allocated filter state (queues empty, power values
        zero) followed by filter_init. */
    constructor (firB: seq<real>, iirA: seq<seq<real>>, iirB: seq<seq<real>>, pulseWidth: nat)
      requires |firB| == FirCoeffCount
      requires |iirA| == FrequencyCount && |iirB| == FrequencyCount
      requires forall n :: 0 <= n < FrequencyCount ==> |iirA[n]| == IirCoeffCount
      requires forall n :: 0 <= n < FrequencyCount ==> |iirB[n]| == IirCoeffCount
      requires 0 < pulseWidth
      ensures Valid() && AllPowerTracks()
      ensures this.firB == firB && this.iirA == iirA && this.iirB == iirB
      ensures outputQueueSize == pulseWidth
      ensures fresh(currentPowerValue) && fresh(oldestValue)
      ensures currentPowerValue[..] == Zeros(FrequencyCount)
    {
      this.firB, this.iirA, this.iirB := firB, iirA, iirB;
      outputQueueSize := pulseWidth;
      xQueue, yQueue := Queue(0, []), Queue(0, []);
      zQueues := seq(FrequencyCount, _ => Queue(0, []));
      outputQueues := seq(FrequencyCount, _ => Queue(0, []));
      currentPowerValue := new real[FrequencyCount](_ => 0.0);
      oldestValue := new real[FrequencyCount](_ => 0.0);
      firRuns := 0;
      new;
      Init();
      SumSquaresOfZeros(outputQueueSize);
      assert currentPowerValue[..] == Zeros(FrequencyCount);
    }

    /** filter_init: every queue is re-created at its capacity and filled with
        zeros. The power values are not touched. */
    method Init()
      requires Shape()
      modifies this
      ensures Valid()
      ensures xQueue.items == Zeros(XQueueSize) && yQueue.items == Zeros(YQueueSize)
      ensures forall n :: 0 <= n < FrequencyCount ==> zQueues[n].items == Zeros(ZQueueSize)
      ensures forall n :: 0 <= n < FrequencyCount ==> outputQueues[n].items == Zeros(outputQueueSize)
      ensures firRuns == old(firRuns)
    {
      InitXQueue();
      InitYQueue();
      InitZQueues();
      InitOutputQueues();
    }

    /** initXQueue */
    method InitXQueue()
      requires Shape()
      modifies this`xQueue
      ensures xQueue == Queue(XQueueSize, Zeros(XQueueSize))
    {
      xQueue := Queues.Init(XQueueSize);
      var i := 0;
      while i < XQueueSize
        invariant i <= XQueueSize
        invariant xQueue == Queue(XQueueSize, Zeros(i))
      {
        xQueue := OverwritePush(xQueue, 0.0);
        i := i + 1;
      }
    }

    /** initYQueue */
    method InitYQueue()
      requires Shape()
      modifies this`yQueue
      ensures yQueue == Queue(YQueueSize, Zeros(YQueueSize))
    {
      yQueue := Queues.Init(YQueueSize);
      var i := 0;
      while i < YQueueSize
        invariant i <= YQueueSize
        invariant yQueue == Queue(YQueueSize, Zeros(i))
      {
        yQueue := OverwritePush(yQueue, 0.0);
        i := i + 1;
      }
    }

    /** initZQueues */
    method InitZQueues()
      requires Shape()
      modifies this`zQueues
      ensures Shape()
      ensures forall n :: 0 <= n < FrequencyCount ==> zQueues[n] == Queue(ZQueueSize, Zeros(ZQueueSize))
    {
      var i := 0;
      while i < FrequencyCount
        invariant i <= FrequencyCount && Shape()
        invariant forall n :: 0 <= n < i ==> zQueues[n] == Queue(ZQueueSize, Zeros(ZQueueSize))
      {
        zQueues := zQueues[i := Queues.Init(ZQueueSize)];
        var j := 0;
        while j < ZQueueSize
          invariant j <= ZQueueSize && Shape()
          invariant forall n :: 0 <= n < i ==> zQueues[n] == Queue(ZQueueSize, Zeros(ZQueueSize))
          invariant zQueues[i] == Queue(ZQueueSize, Zeros(j))
        {
          zQueues := zQueues[i := OverwritePush(zQueues[i], 0.0)];
          j := j + 1;
        }
        i := i + 1;
      }
    }

    /** initOutputQueues */
    method InitOutputQueues()
      requires Shape()
      modifies this`outputQueues
      ensures Shape()
      ensures forall n :: 0 <= n < FrequencyCount ==>
        outputQueues[n] == Queue(outputQueueSize, Zeros(outputQueueSize))
    {
      var i := 0;
      while i < FrequencyCount
        invariant i <= FrequencyCount && Shape()
        invariant forall n :: 0 <= n < i ==>
          outputQueues[n] == Queue(outputQueueSize, Zeros(outputQueueSize))
      {
        outputQueues := outputQueues[i := Queues.Init(outputQueueSize)];
        var j := 0;
        while j < outputQueueSize
          invariant j <= outputQueueSize && Shape()
          invariant forall n :: 0 <= n < i ==>
            outputQueues[n] == Queue(outputQueueSize, Zeros(outputQueueSize))
          invariant outputQueues[i] == Queue(outputQueueSize, Zeros(j))
        {
          outputQueues := outputQueues[i := OverwritePush(outputQueues[i], 0.0)];
          j := j + 1;
        }
        i := i + 1;
      }
    }

    /** filter_addNewInput: push a new scaled sample onto the FIR window. */
    method AddNewInput(x: real)
      requires Valid()
      modifies this`xQueue
      ensures Valid()
      ensures xQueue == OverwritePush(old(xQueue), x)
      ensures State() == old(State()).(x := xQueue)
      ensures old(AllPowerTracks()) ==> AllPowerTracks()
    {
      ghost var s0 := State();
      xQueue := OverwritePush(xQueue, x);
      if AllInStep(s0) {
        WindowsDoNotAffectInStep(s0, State());
      }
    }

    /** filter_firFilter: convolve the FIR window with the FIR taps, push the
        result onto the decimated window and return it. */
    method FirFilter() returns (y: real)
      requires Valid()
      modifies this`yQueue, this`firRuns
      ensures Valid()
      ensures y == TapSum(firB, xQueue.items, FirCoeffCount)
      ensures yQueue == OverwritePush(old(yQueue), y)
      ensures State() == old(State()).(y := yQueue)
      ensures firRuns == old(firRuns) + 1
      ensures old(AllPowerTracks()) ==> AllPowerTracks()
    {
      ghost var s0 := State();
      y := 0.0;
      var i := 0;
      while i < FirCoeffCount
        invariant i <= FirCoeffCount
        invariant y == TapSum(firB, xQueue.items, i)
      {
        y := y + ReadElementAt(xQueue, (FirCoeffCount - 1) - i) * firB[i];
        i := i + 1;
      }
      yQueue := OverwritePush(yQueue, y);
      firRuns := firRuns + 1;
      if AllInStep(s0) {
        WindowsDoNotAffectInStep(s0, State());
      }
    }

    /** filter_iirFilter: the feed-forward sum over the decimated window minus
        the feedback sum over the channel's own history; the result is pushed
        onto the channel's output queue and its feedback queue, and no other
        channel changes. */
    method IirFilter(n: nat) returns (z: real)
      requires Valid() && n < FrequencyCount
      modifies this`zQueues, this`outputQueues
      ensures Valid()
      ensures z == IirOutput(iirA[n], iirB[n], yQueue.items, old(zQueues[n].items))
      ensures outputQueues == old(outputQueues)[n := OverwritePush(old(outputQueues[n]), z)]
      ensures zQueues == old(zQueues)[n := OverwritePush(old(zQueues[n]), z)]
    {
      var y := 0.0;
      z := 0.0;
      var i := 0;
      while i < YQueueSize
        invariant i <= YQueueSize
        invariant y == TapSum(iirB[n], yQueue.items, i)
      {
        y := y + ReadElementAt(yQueue, YQueueSize - i - 1) * iirB[n][i];
        i := i + 1;
      }
      i := 0;
      while i < ZQueueSize
        invariant i <= ZQueueSize
        invariant z == TapSum(iirA[n], zQueues[n].items, i)
      {
        z := z + ReadElementAt(zQueues[n], ZQueueSize - i - 1) * iirA[n][i];
        i := i + 1;
      }
      z := y - z;
      outputQueues := outputQueues[n := OverwritePush(outputQueues[n], z)];
      zQueues := zQueues[n := OverwritePush(zQueues[n], z)];
    }

    /** filter_computePower: recompute channel `n`'s power from scratch, or
        update it incrementally from the last captured oldest value and the
        newest output; then capture the current oldest output. */
    method ComputePower(n: nat, forceComputeFromScratch: bool) returns (power: real)
      requires Valid() && n < FrequencyCount
      modifies currentPowerValue, oldestValue
      ensures forceComputeFromScratch ==> power == SumSquares(outputQueues[n].items)
      ensures !forceComputeFromScratch ==>
        var w := outputQueues[n].items;
        power == IncrementalPower(old(currentPowerValue[n]), old(oldestValue[n]), w[|w| - 1])
      ensures currentPowerValue[..] == old(currentPowerValue[..])[n := power]
      ensures oldestValue[..] == old(oldestValue[..])[n := outputQueues[n].items[0]]
    {
      var q := outputQueues[n];
      if forceComputeFromScratch {
        var sum := 0.0;
        var i := 0;
        while i < ElementCount(q)
          invariant i <= |q.items|
          invariant sum == SumSquares(q.items[..i])
          invariant unchanged(currentPowerValue, oldestValue)
        {
          assert q.items[..i + 1] == q.items[..i] + [q.items[i]];
          SumSquaresSnoc(q.items[..i], q.items[i]);
          sum := sum + ReadElementAt(q, i) * ReadElementAt(q, i);
          i := i + 1;
        }
        assert q.items[..i] == q.items;
        power := sum;
      } else {
        var newest := ReadElementAt(q, ElementCount(q) - 1);
        power := IncrementalPower(currentPowerValue[n], oldestValue[n], newest);
      }
      currentPowerValue[n] := power;
      oldestValue[n] := ReadElementAt(q, 0);
    }

    /** filter_getCurrentPowerValue: channel n's power, which is the energy
        of its output window whenever the bank's power values are in step. */
    function GetCurrentPowerValue(n: nat): (r: real)
      reads this, currentPowerValue, oldestValue
      requires Valid() && n < FrequencyCount
      ensures r == State().power[n]
      ensures AllPowerTracks() ==> r == SumSquares(outputQueues[n].items) && r >= 0.0
    {
      assert AllPowerTracks() ==> InStepAt(State(), n);
      currentPowerValue[n]
    }

    /** filter_setCurrentPowerValue: only entry `n` changes. */
    method SetCurrentPowerValue(n: nat, value: real)
      requires Valid() && n < FrequencyCount
      modifies currentPowerValue
      ensures currentPowerValue[..] == old(currentPowerValue[..])[n := value]
    {
      currentPowerValue[n] := value;
    }

    /** filter_getCurrentPowerValues: copy all ten power values into the
        caller's array. */
    method GetCurrentPowerValues(powerValues: array<real>)
      requires Valid()
      requires powerValues.Length == FrequencyCount
      requires powerValues != currentPowerValue && powerValues != oldestValue
      modifies powerValues
      ensures powerValues[..] == currentPowerValue[..]
    {
      var i := 0;
      while i < FrequencyCount
        invariant i <= FrequencyCount
        invariant powerValues[..i] == currentPowerValue[..i]
      {
        powerValues[i] := currentPowerValue[i];
        i := i + 1;
      }
    }

    /** filter_getNormalizedPowerValues: find the first channel holding the
        largest positive power and divide every power value by it; with no
        positive power, report channel 0 and all zeros. */
    method GetNormalizedPowerValues(normalizedArray: array<real>) returns (indexOfMaxValue: nat)
      requires Valid()
      requires normalizedArray.Length == FrequencyCount
      requires normalizedArray != currentPowerValue && normalizedArray != oldestValue
      modifies normalizedArray
      ensures indexOfMaxValue < FrequencyCount
      ensures var p, m := currentPowerValue, currentPowerValue[indexOfMaxValue];
        m > 0.0 ==>
          && (forall k :: 0 <= k < FrequencyCount ==> p[k] <= m)
          && (forall k :: 0 <= k < indexOfMaxValue ==> p[k] < m)
          && (forall k :: 0 <= k < FrequencyCount ==> normalizedArray[k] == p[k] / m)
          && normalizedArray[indexOfMaxValue] == 1.0
      ensures var p, m := currentPowerValue, currentPowerValue[indexOfMaxValue];
        m <= 0.0 ==>
          && indexOfMaxValue == 0
          && (forall k :: 0 <= k < FrequencyCount ==> p[k] <= 0.0)
          && (forall k :: 0 <= k < FrequencyCount ==> normalizedArray[k] == 0.0)
    {
      var p := currentPowerValue;
      var maxPower := 0.0;
      indexOfMaxValue := 0;
      var i := 0;
      while i < FrequencyCount
        invariant i <= FrequencyCount && indexOfMaxValue < FrequencyCount
        invariant maxPower == 0.0 || (maxPower > 0.0 && maxPower == p[indexOfMaxValue] && indexOfMaxValue < i)
        invariant maxPower == 0.0 ==> indexOfMaxValue == 0
        invariant forall k :: 0 <= k < i ==> p[k] <= maxPower
        invariant forall k :: 0 <= k < indexOfMaxValue ==> p[k] < maxPower
      {
        if p[i] > maxPower {
          maxPower := p[i];
          indexOfMaxValue := i;
        }
        i := i + 1;
      }
      ghost var powers := p[..];
      if maxPower > 0.0 {
        i := 0;
        while i < FrequencyCount
          invariant i <= FrequencyCount && p[..] == powers
          invariant forall k :: 0 <= k < i ==> normalizedArray[k] == p[k] / maxPower
        {
          normalizedArray[i] := p[i] / maxPower;
          i := i + 1;
        }
        assert normalizedArray[indexOfMaxValue] == maxPower / maxPower == 1.0;
      } else {
        i := 0;
        while i < FrequencyCount
          invariant i <= FrequencyCount && p[..] == powers
          invariant forall k :: 0 <= k < i ==> normalizedArray[k] == 0.0
        {
          normalizedArray[i] := 0.0;
          i := i + 1;
        }
      }
    }
  }
}
