# Laser-tag firmware core, modelled in Dafny

This project models the signal path and the state machines of a laser-tag gun
and receiver. Each C module is one Dafny module:

- **SampleBuffer** (`buffer.dfy`): the circular FIFO of raw ADC samples that the
  timer interrupt fills and the detector drains. A push onto a full buffer
  drops the oldest sample first.
- **Queues** (`queue.dfy`): the fixed-capacity delay lines of the filter bank.
  A queue is a value made of a capacity and its items, oldest first. An
  overwriting push onto a full queue slides the window by one.
- **Filter** (`filter.dfy`): the filter bank.
  - An 81-tap FIR filter runs once per decimation period.
  - Its output feeds ten IIR band-pass filters, one per player frequency.
    Each takes eleven feed-forward and eleven feedback coefficients. As
    written, the feedback sum uses only ten of them (see below).
  - Each channel keeps a running power (sum of squares) over its last
    `FILTER_INPUT_PULSE_WIDTH` outputs.
  - `double` is modelled as `real`, so the filter identities are exact.
- **Detector** (`detector.dfy`): drains the sample buffer, scales each sample to
  [-1, 1] and feeds it to the filter bank. At every decimation boundary it runs
  the filters. Unless the lockout timer is running, it then decides whether the
  largest channel power exceeds the median power times the fudge factor, and
  commits a hit. A commit starts the lockout and hit-LED timers, bumps a hit
  count and raises the hit flag.
- **LockoutTimer** and **HitLedTimer** (`lockout_timer.dfy`,
  `hit_led_timer.dfy`): tick-driven timers.
  - The lockout timer stays locked for a fixed number of ticks after a start.
  - The hit-LED timer lights the LED for a fixed number of ticks after a start
    request.
- **Trigger** (`trigger.dfy`): debounces the gun trigger or BTN0 in both
  directions. A debounced press fires the transmitter while shots remain.
- **Transmitter** (`transmitter.dfy`): the state machine meant to emit the
  square wave of the selected player frequency.

Each state machine is a class whose fields are the module's statics. Its
`Tick` method is proved to move the state `Snap()` by a pure step function
`Next`. The timing and safety properties are then lemmas about `Next` and
about runs of `Next`.

Compile-time constants that live in headers outside this model are
parameters of the constructors:

- the decimation factor
- the pulse widths
- the timer expire values
- the frequency tick table
- the coefficient tables

C integer widths are written out where the code can overflow:

- `invocation_count` wraps modulo 2^32.
- The hit counts and the transmitter's `signalTimer` wrap modulo 2^16.
- `currentFrequency` wraps modulo 2^8.

Two behaviours of the code are modelled as written.

- **The transmitter never signals.** In `lasertag/transmitter.c` the wait
  state never moves to a signal state, and `signalTimer` is never reset. From
  `transmitter_init` the machine therefore reaches the wait state and stays
  there (`Transmitter.NeverSignalsFromInit`). The two signal states are still
  modelled, with their own rules.
- **The IIR feedback is shifted by one coefficient.** `filter_iirFilter`
  multiplies the output from `i + 1` steps back by `a[i]`, not by `a[i + 1]`.
  So `a[0]` weights the newest past output, and the last feedback coefficient
  `a[10]` is never read (`Filter.FeedbackIgnoresLastCoefficient`). A
  direct-form filter with `a[0] == 1.0` would use `a[1..10]`. The model
  computes the outputs as the code does.
- **The hit is always on player 0 or 1.** The detector commits the boolean
  result of `detector_detectHit` as the player index, so every hit is counted
  on player 0 or player 1. The ignore-list check is the constant `true` in the
  source.

## Model

| member | source | states |
|---|---|---|
| SampleBuffer.PushoverAllKeepsNewest | lasertag/buffer.c:43-51 | Any run of pushes leaves exactly the newest `BUFFER_SIZE` of all the values ever held, oldest first: nothing is reordered and only the oldest values are lost |
| SampleBuffer.OverflowKeepsLastValues | lasertag/buffer.c:43-51 | Pushing at least `BUFFER_SIZE` values into an empty buffer leaves it full, holding the last `BUFFER_SIZE` values in push order |
| SampleBuffer.NoOverflowKeepsAll | lasertag/buffer.c:43-51 | Without overflow, every pushed value is kept, in order |
| SampleBuffer.PushoverSeq | lasertag/buffer.c:43-51 | After a push, the new value is the newest element. Below capacity, the old contents are kept in front of it. At capacity, the size stays at capacity and the oldest value is gone |
| SampleBuffer.Buffer.constructor | lasertag/buffer.c:20-27 | The static buffer starts empty and consistent: the slot `indexOut + k` (mod size) holds the k-th oldest element |
| SampleBuffer.Buffer.Init | lasertag/buffer.c:31-40 | `buffer_init` empties the buffer and resets both cursors |
| SampleBuffer.Buffer.Pushover | lasertag/buffer.c:43-51 | The circular-array push keeps the cursor invariant, and its abstract contents follow `PushoverSeq` |
| SampleBuffer.Buffer.Pop | lasertag/buffer.c:54-66 | An empty buffer yields 0 and stays unchanged. Otherwise the oldest value is returned and removed |
| SampleBuffer.Buffer.Elements | lasertag/buffer.c:70-73 | The element count is the number of values held, never more than the capacity |
| SampleBuffer.Buffer.Size | lasertag/buffer.c:76-79 | The capacity is `BUFFER_SIZE` (32768) |
| Queues.Init | lasertag/filter.c:61 | `queue_init` gives an empty queue of the requested capacity |
| Queues.ReadElementAt | lasertag/filter.c:128-140 | A read returns an item the queue holds, and the newest offset reads back the value pushed last |
| Queues.ElementCount | lasertag/filter.c:185-193 | The count is zero exactly for an empty queue, and never more than the capacity of a well-formed queue |
| Queues.OverwritePushSlides | lasertag/filter.c:121-124 | Read through `ReadElementAt`, a push onto a full queue moves every item one offset towards the oldest end and puts the new value at the newest offset |
| Queues.OverwritePush | lasertag/filter.c:121-124 | An overwriting push makes the value the newest item. A full queue slides by one, and a queue that is not full grows by one |
| Queues.FillFromEmpty | lasertag/filter.c:60-99 | Pushes within capacity keep every value, in order, after the existing items. This is the zero fill at start-up |
| Queues.PushAllSlides | lasertag/filter.c:121-124 | After any run of pushes, a full queue holds the newest `capacity` values of its old items followed by the pushed values |
| Filter.TapSumOfZeros | lasertag/filter.c:128-140 | A window of zeros gives a zero output, whatever the coefficients |
| Filter.TapSumOfImpulse | lasertag/filter.c:128-140 | For an impulse window, the output is the coefficient aligned with the impulse (coefficient `i` multiplies the item `i` places older than the newest), or zero when no coefficient is aligned |
| Filter.FeedbackIgnoresLastCoefficient | lasertag/filter.c:144-163 | The feedback sum runs over `a[0..9]`, so `a[10]` never affects a channel's output |
| Filter.SumSquaresOfZeros | lasertag/filter.c:91-99 | The power of a zero-filled output queue is zero |
| Filter.IncrementalPowerIsExact | lasertag/filter.c:179-199 | For a full window: its power, minus the square of the value it drops, plus the square of the value it gains, is the power of the slid window |
| Filter.IncrementalPowerNeverDrifts | lasertag/filter.c:179-199 | Over any number of outputs, the incrementally kept power equals the power recomputed from scratch |
| Filter.StateOkFitsEveryChannel | lasertag/filter.c:144-163 | In any well-formed bank state, every channel has the coefficients and full windows its IIR step reads |
| Filter.ChannelStep | lasertag/filter.c:144-199 | One channel's IIR step and incremental power update leave the FIR and decimated windows unchanged |
| Filter.ChannelStepKeepsStateOk | lasertag/filter.c:144-199 | A channel step keeps every window full at its capacity. Every other channel keeps its windows, power value and oldest value |
| Filter.ChannelStepKeepsInStep | lasertag/filter.c:179-199 | If a channel's power value is the power of its output window before a channel step, it still is afterwards. This holds for the stepped channel by the incremental update and for the others by not changing |
| Filter.ChannelStepKeepsAllInStep | lasertag/filter.c:144-199 | A channel step keeps every channel's power value exact |
| Filter.WindowsDoNotAffectInStep | lasertag/filter.c:121-140 | Changing only the FIR and decimated windows keeps every power value exact |
| Filter.FilterBank.constructor | lasertag/filter.c:47-53 | The static filter state after `filter_init`: every queue is full of zeros, and every channel's power is in step with its window |
| Filter.FilterBank.Init | lasertag/filter.c:111-118 | `filter_init` re-creates every queue at its capacity, filled with zeros |
| Filter.FilterBank.InitXQueue | lasertag/filter.c:60-67 | The FIR window is full of zeros |
| Filter.FilterBank.InitYQueue | lasertag/filter.c:70-77 | The decimated window is full of zeros |
| Filter.FilterBank.InitZQueues | lasertag/filter.c:80-88 | All ten feedback windows are full of zeros |
| Filter.FilterBank.InitOutputQueues | lasertag/filter.c:91-99 | All ten output queues are full of zeros |
| Filter.FilterBank.AddNewInput | lasertag/filter.c:121-124 | The sample is pushed onto the FIR window, and the power bookkeeping stays in step |
| Filter.FilterBank.FirFilter | lasertag/filter.c:128-140 | The FIR output is the tapped sum of the FIR window, and it is pushed onto the decimated window |
| Filter.FilterBank.IirFilter | lasertag/filter.c:144-163 | The output of channel n is the feed-forward sum over the decimated window minus the feedback sum over its own history. It is pushed onto that channel's two queues, and no other channel changes |
| Filter.FilterBank.ComputePower | lasertag/filter.c:179-199 | From scratch, the result is the sum of squares of the output queue. Otherwise it is the incremental update. Only entry n of the power and oldest-value arrays changes |
| Filter.FilterBank.GetCurrentPowerValue | lasertag/filter.c:203-206 | Channel n's entry of the bank's power values. Whenever the power values are in step, it is the sum of squares of channel n's output window, so it is never negative |
| Filter.FilterBank.SetCurrentPowerValue | lasertag/filter.c:210-213 | Only entry n changes |
| Filter.FilterBank.GetCurrentPowerValues | lasertag/filter.c:220-226 | The caller's array receives all ten power values |
| Filter.FilterBank.GetNormalizedPowerValues | lasertag/filter.c:235-257 | The returned index is the first channel with the largest positive power, and every value is divided by that power, so it becomes 1.0. With no positive power, the result is index 0 and all zeros |
| Detector.Scaled | lasertag/detector.c:84 | Every 12-bit ADC reading scales into [-1, 1] |
| Detector.ScaledIsMonotone | lasertag/detector.c:83-84 | The scaling maps 0 to -1 and 4095 to 1, and preserves the order of readings |
| Detector.ScaledAll | lasertag/detector.c:73-86 | The drained samples reach the filter bank scaled, in order |
| Detector.Insert | lasertag/detector.c:37-49 | Inserting a value adds exactly that value to the sequence |
| Detector.InsertSorted | lasertag/detector.c:37-49 | Inserting into a sorted sequence keeps it sorted |
| Detector.Sort | lasertag/detector.c:36-50 | The reference insertion sort returns a permutation of its input |
| Detector.SortSorted | lasertag/detector.c:36-50 | The reference sort's result is sorted |
| Detector.SortedPermutationIsSort | lasertag/detector.c:36-50 | Any sorted permutation of the input is the reference sort's result, so the sort is determined by sortedness plus permutation |
| Detector.SortedUnique | lasertag/detector.c:36-50 | Two sorted sequences with the same elements are equal |
| Detector.SortLastIsMax | lasertag/detector.c:53-56 | The last sorted value is an input value, and it is at least every input value |
| Detector.Decide | lasertag/detector.c:52-56 | A hit is decided exactly when some channel's power exceeds the median power times the fudge factor |
| Detector.DecideIgnoresChannelOrder | lasertag/detector.c:36-56 | The decision depends only on the power values, not on which channel holds which |
| Detector.DetectHit | lasertag/detector.c:32-57 | The caller's array ends sorted (a sorted permutation of its input), and the result is the hit decision on the input |
| Detector.InsertInPlace | lasertag/detector.c:37-49 | One outer step makes the prefix up to `i` the old prefix with `a[i]` inserted (`Insert`). It keeps the array a permutation and leaves everything after `i` as it was |
| Detector.PrefixIsInsert | lasertag/detector.c:37-49 | An array step that keeps the values, leaves everything after `i` alone and sorts the prefix up to `i` has made that prefix the old prefix with the old `a[i]` inserted |
| Detector.ShiftLarger | lasertag/detector.c:38-48 | The inner loop stops at the first value at most the key, or at -1. It shifts every larger value up by one, which leaves a hole that keeps the array a permutation once the key is written into it. Everything up to the stop and everything after `i` keeps its old value |
| Detector.ScanSigned | lasertag/detector.c:44-48 | With a signed index, the scan stops at -1 or at a value at most the key, and every value it passes is larger than the key |
| Detector.ScanAsWritten | lasertag/detector.c:34-48 | With the `uint8_t` index as written, the scan stops at a value at most the key, or wraps to 255 |
| Detector.ScanAsWrittenReadsPastEnd | lasertag/detector.c:34-48 | Whenever the signed scan would stop at -1, the scan as written reaches index 255, outside the ten power values. Otherwise the two scans agree |
| Detector.ScanAsWrittenCounterexample | lasertag/detector.c:34-48 | On the first outer step with the power values 2.0, 1.0, 0.0, …, the scan as written reaches index 255 |
| Detector.DecisionAsWritten | lasertag/detector.c:56 | The comparison as written has an element to read only if there are more than ten values |
| Detector.DecisionAsWrittenReadsPastEnd | lasertag/detector.c:56 | For the ten power values, the comparison as written reads past the end of the array |
| Detector.Bump | lasertag/detector.c:110 | Only the hit count of the player changes, and it goes up by one modulo 2^16 |
| Detector.Commit | lasertag/detector.c:107-112 | A commit adds one to the hit count of the player it is on and leaves every other count as it was. It raises the hit flag, locks the lockout timer and requests the hit LED |
| Detector.RunChannels | lasertag/detector.c:97-101 | Running the channels in order leaves the FIR and decimated windows unchanged |
| Detector.BankStep | lasertag/detector.c:94-102 | A decimation boundary leaves the FIR window unchanged |
| Detector.SampleStep | lasertag/detector.c:76-102 | One drained sample is pushed, scaled, onto the FIR window. The count goes up by one, or wraps to zero at the decimation factor |
| Detector.DrainFeedsEverySample | lasertag/detector.c:73-114 | After the first k drained samples, the FIR window is the old window with those k samples pushed, scaled, in order |
| Detector.DrainAllFeedsEverySample | lasertag/detector.c:73-114 | After a whole drain, the FIR window is the old window with every drained sample pushed, scaled, in order |
| Detector.DrainCountBelowFactor | lasertag/detector.c:87-93 | The sample count stays below the decimation factor through any drain |
| Detector.RunChannelsKeepsInStep | lasertag/detector.c:97-101 | Running the channels keeps every power value exact |
| Detector.SampleStepKeepsInStep | lasertag/detector.c:76-102 | One drained sample keeps every power value exact, whether or not it reaches a boundary |
| Detector.DrainKeepsInStep | lasertag/detector.c:73-114 | No drift: if every power value is the exact power of its output window before a drain, it still is after any number of drained samples |
| Detector.DrainAllKeepsInStep | lasertag/detector.c:73-114 | A whole drain keeps every power value exact |
| Detector.CountOneMore | lasertag/detector.c:87-93 | Counting one more sample: the count wraps to zero exactly when it reaches the decimation factor, and then one more filter run completes |
| Detector.Detector.constructor | lasertag/detector.c:9-16 | All statics start at zero or false |
| Detector.Detector.Run | lasertag/detector.c:69-116 | `detector` drains the whole buffer, and the invocation count goes up by one modulo 2^32. The new filter bank and sample count are the drain fold `DrainAll` of the drained samples over the old ones. So every drained sample reaches the FIR window, scaled and in order. With c the count on entry, n the samples drained and F the decimation factor, the filters run (c + n) div F times and the count ends at (c + n) mod F. One hit is committed when the lockout was not running on entry and a boundary was reached, that is when F - c <= n. It is the commit of the decision on the power values of the first boundary, after sample F - c. Otherwise nothing hit-related changes. The power values stay exact |
| Detector.Detector.DrainBuffer | lasertag/detector.c:71-114 | The drain loop: the buffer ends empty, and the bank and count are the drain fold over the samples it held, with (c + n) div F filter runs and the count at (c + n) mod F. With c the count on entry and F the decimation factor, when the lockout timer is idle on entry and at least F - c samples are drained, the hit state is the commit of the decision on the power values after sample F - c, the first boundary. Otherwise the hit state is unchanged |
| Detector.Detector.DrainStep | lasertag/detector.c:72-114 | One pass of the drain loop keeps the loop's bookkeeping `Drained`: the buffer holds the rest, the bank and count are the drain fold so far, and the hit state is the entry state before the first boundary and the first boundary's commit after it |
| Detector.Detector.HitStep | lasertag/detector.c:87-113 | Over one drained sample, only the first boundary commits, and only when the lockout timer was idle on entry. Its commit starts the lockout timer, so every later boundary leaves the hit state alone |
| Detector.RunsAfterPositive | lasertag/detector.c:87-93 | From a count c below the factor F, some filter run completes within n samples exactly when F - c <= n |
| Detector.Detector.ProcessNextSample | lasertag/detector.c:72-114 | One pass of the drain loop pops the oldest sample and moves the bank and count by one more step of the drain fold. At a boundary the filters run once. If the lockout timer is idle, the hit state becomes the commit of `detector_detectHit`'s decision on the new power values, on player 1 for a hit and 0 otherwise. Otherwise the hit state is unchanged |
| Detector.Detector.FeedSample | lasertag/detector.c:84-113 | One popped sample moves the bank and count by `SampleStep`. At a boundary with the lockout not running, the hit state changes by a commit of the hit decision on the new power values. Otherwise it is unchanged |
| Detector.Detector.Decimate | lasertag/detector.c:91-113 | A boundary moves the filter bank by `BankStep`: the FIR output is pushed onto the decimated window, then every channel runs its IIR step and power update. The hit state changes only when the lockout is not running, and then by a commit of the hit decision on the new power values |
| Detector.Detector.RunFilterBank | lasertag/detector.c:94-102 | The FIR filter and the ten channel steps move the bank by `BankStep`, which gives every new power value and oldest value |
| Detector.Detector.RunChannel | lasertag/detector.c:97-101 | Channel n's IIR step and power update move the bank by `ChannelStep`. So channel n's power value becomes the incremental update, and every other channel keeps its windows, power value and oldest value |
| Detector.Detector.EvaluateHit | lasertag/detector.c:103-113 | While the lockout is running, nothing changes. Otherwise a hit is committed on the decided player. The filter bank is left as it was |
| Detector.Detector.PlayerHit | lasertag/detector.c:104-106 | The player index is 1 exactly when the decision on the current power values is a hit, and 0 otherwise |
| Detector.Detector.CommitHit | lasertag/detector.c:108-111 | The four commit actions, and nothing else |
| Detector.Detector.HitDetected | lasertag/detector.c:119-121 | Reports the hit flag |
| Detector.Detector.ClearHit | lasertag/detector.c:129-131 | Afterwards no hit is reported |
| Detector.Detector.IgnoreAllHits | lasertag/detector.c:136-138 | Records the flag |
| Detector.Detector.GetInvocationCount | lasertag/detector.c:156-158 | Reports the invocation count |
| LockoutTimer.NextRules | lasertag/lockoutTimer.c:29-58 | A waiting timer is left alone. A locked timer at its expire value is released with the count at zero, and below it the count goes up by one. The count never passes the expire value |
| LockoutTimer.LockedForExpireValueTicks | lasertag/lockoutTimer.c:29-64 | After a start, the timer is still locked after each of the first expire-value ticks, with the tick count equal to the number of ticks |
| LockoutTimer.ReleasedAfterExpireValuePlusOneTicks | lasertag/lockoutTimer.c:29-64 | The tick after those releases the timer, with the count back at zero |
| LockoutTimer.Timer.constructor | lasertag/lockoutTimer.c:11-19 | The static timer starts waiting with the count at zero |
| LockoutTimer.Timer.Init | lasertag/lockoutTimer.c:22-26 | `lockoutTimer_init` sets waiting, the count to zero and no start request |
| LockoutTimer.Timer.Tick | lasertag/lockoutTimer.c:29-58 | The tick moves the timer by `Next` |
| LockoutTimer.Timer.Start | lasertag/lockoutTimer.c:61-64 | A start locks the timer from any state, with the count at zero |
| LockoutTimer.Timer.Running | lasertag/lockoutTimer.c:67-69 | Running means locked |
| HitLedTimer.InvPreserved | lasertag/hitLedTimer.c:33-107 | The tick, a start request and enabling or disabling keep the invariant. While running, the start request is pending, the LED is on and the count is between 1 and the expire value. While idle, the count is zero and the LED is off |
| HitLedTimer.InitAndLedWritesBreakInv | lasertag/hitLedTimer.c:24-30 | Re-initialising keeps the invariant exactly when the timer was idle, so a running timer is left idle with its LED lit. Writing the LED directly keeps the invariant exactly when it writes the level already there |
| HitLedTimer.NextRules | lasertag/hitLedTimer.c:33-71 | A disabled timer does not move. An idle timer starts on a request and lights the LED. A running timer counts up to the expire value, then turns the LED off and clears the request |
| HitLedTimer.StartWhileRunningIsDiscarded | lasertag/hitLedTimer.c:74-76 | A start while running changes nothing |
| HitLedTimer.LitForExpireValueTicks | lasertag/hitLedTimer.c:33-71 | From a pending start on an enabled idle timer, the LED is on after each of the first expire-value ticks |
| HitLedTimer.OffAfterExpireValuePlusOneTicks | lasertag/hitLedTimer.c:33-71 | The tick after those turns the LED off, returns the timer to idle and clears the request |
| HitLedTimer.Timer.constructor | lasertag/hitLedTimer.c:12-21 | The static timer starts idle, disabled, with the LED off |
| HitLedTimer.Timer.Init | lasertag/hitLedTimer.c:24-30 | `hitLedTimer_init` resets the statics and leaves the LED level as it was |
| HitLedTimer.Timer.Tick | lasertag/hitLedTimer.c:33-71 | The tick moves the timer by `Next` |
| HitLedTimer.Timer.Start | lasertag/hitLedTimer.c:74-76 | A start only records the request |
| HitLedTimer.Timer.IsRunning | lasertag/hitLedTimer.c:79-85 | Reports whether the state is running |
| HitLedTimer.Timer.TurnLedOn | lasertag/hitLedTimer.c:88-91 | Only the LED level changes, to on |
| HitLedTimer.Timer.TurnLedOff | lasertag/hitLedTimer.c:94-97 | Only the LED level changes, to off |
| HitLedTimer.Timer.Disable | lasertag/hitLedTimer.c:100-102 | Only the enable flag changes, to off |
| HitLedTimer.Timer.Enable | lasertag/hitLedTimer.c:105-107 | Only the enable flag changes, to on |
| Trigger.TriggerPressed | lasertag/trigger.c:46-49 | The trigger counts as pressed exactly when BTN0 is down, or the gun pin is high and not ignored |
| Trigger.Fires | lasertag/trigger.c:78-84 | The transmitter fires only on a debounced press from the released state |
| Trigger.NextRules | lasertag/trigger.c:71-124 | A disabled trigger does not move. An enabled one changes state exactly when its count has reached MAX_TICKS, and a press spends one shot. Otherwise the count goes up on a disagreeing sample and drops to zero on an agreeing one. The count never passes MAX_TICKS, and the pressed flag mirrors the state |
| Trigger.FiresOnPress | lasertag/trigger.c:78-88 | A press fires exactly when the shot count is in (0, 10], and it spends a shot whether or not it fires |
| Trigger.CountsTrailingSamples | lasertag/trigger.c:71-124 | Debouncing: before MAX_TICKS is reached, the state is kept, and the count equals the run of trailing disagreeing samples. So a single agreeing sample starts the count over |
| Trigger.ChangesAfterMaxTicksSamples | lasertag/trigger.c:71-124 | From a fresh state, MAX_TICKS disagreeing samples bring the count to MAX_TICKS, and the next tick changes the state |
| Trigger.RunSnoc | lasertag/trigger.c:71-124 | A run of ticks split before its last sample |
| Trigger.Machine.constructor | lasertag/trigger.c:31-42 | The statics start cleared, in the released state |
| Trigger.Machine.Init | lasertag/trigger.c:55-68 | `trigger_init` disables the trigger, loads 10 shots and clears the count and flag. Once set, gun input stays ignored, and it becomes ignored when the trigger reads as pressed at init |
| Trigger.Machine.Tick | lasertag/trigger.c:71-124 | The tick moves the trigger by `Next` on the sampled input, and it runs the transmitter exactly when the tick fires |
| Trigger.Machine.UpdateState | lasertag/trigger.c:76-102 | The transition half of the tick, including the transmitter run |
| Trigger.Machine.Act | lasertag/trigger.c:105-123 | The counting half of the tick |
| Trigger.Machine.Enable | lasertag/trigger.c:129-131 | Only the enable flag changes, to on |
| Trigger.Machine.Disable | lasertag/trigger.c:134-136 | Only the enable flag changes, to off |
| Trigger.Machine.GetRemainingShotCount | lasertag/trigger.c:139-141 | Reports the shot count |
| Trigger.Machine.SetRemainingShotCount | lasertag/trigger.c:144-146 | Afterwards the shot count reads back as the value set, and nothing else changes |
| Trigger.Machine.IsPressed | lasertag/trigger.c:148-150 | The pressed flag is set exactly in the pressed state |
| Transmitter.Next | lasertag/transmitter.c:54-110 | A tick keeps the statics within their C types and keeps the period non-zero. It never changes the frequency or continuous mode |
| Transmitter.Initial | lasertag/transmitter.c:39-51 | After `transmitter_init`: the initial state, a zero timer, not running, continuous mode off, frequency 0 and its period loaded |
| Transmitter.FirstTickWaits | lasertag/transmitter.c:56-59 | The first tick moves to the wait state and changes nothing else |
| Transmitter.WaitRules | lasertag/transmitter.c:60-69 | A wait tick with a run request consumes it unless continuous mode is on, drives the pin high and reloads the period. Without a request, nothing changes. Either way the machine stays waiting |
| Transmitter.WaitIsAbsorbing | lasertag/transmitter.c:60-69 | Once waiting, the machine waits forever and its timer does not move |
| Transmitter.NeverSignalsFromInit | lasertag/transmitter.c:39-110 | From `transmitter_init`, no number of ticks reaches a signal state, and the timer stays at zero |
| Transmitter.SignalRules | lasertag/transmitter.c:70-109 | High turns low exactly when the position in the period has passed half of it. Low returns to waiting exactly when the timer has passed the pulse width, and otherwise turns high exactly before half the period. Each signal tick advances the timer by one modulo 2^16 |
| Transmitter.Machine.constructor | lasertag/transmitter.c:24-36 | The statics as their initialisers set them: the initial state, everything zero or off, and a period of 0. That is not yet a valid machine |
| Transmitter.Machine.Init | lasertag/transmitter.c:39-51 | From any statics, including those before the first call, `transmitter_init` leaves the state after `transmitter_init` (`Initial`), which is valid |
| Transmitter.Machine.Tick | lasertag/transmitter.c:54-110 | The tick moves the machine by `Next` |
| Transmitter.Machine.Run | lasertag/transmitter.c:113 | Only the run request changes, and afterwards the machine reports running |
| Transmitter.Machine.IsRunning | lasertag/transmitter.c:116-118 | Reports the run request |
| Transmitter.Machine.SetFrequencyNumber | lasertag/transmitter.c:123-125 | The `uint16_t` argument is stored modulo 2^8, so a frequency below 256 reads back unchanged |
| Transmitter.Machine.GetFrequencyNumber | lasertag/transmitter.c:128 | Reports the stored frequency |
| Transmitter.Machine.SetContinuousMode | lasertag/transmitter.c:138-140 | Only the continuous-mode flag changes |

## Left out

- Hardware I/O is not modelled directly.
  - The ADC reading, the MIO gun pin, BTN0, the LED and MIO outputs, and the transmitter output pin are parameters of the operations or recorded levels.
  - The initial LED and pin levels are taken as off and low.
  - Interrupt disabling around `buffer_pop` is left out, because it has no effect on a single-threaded model.
- Concurrency between the interrupt-driven ticks and the detector is not modelled: each operation runs to completion.
- IEEE `double` rounding is not modelled.
  - Values are reals, and `pow(x, 2)` is `x * x`.
  - The filter identities hold exactly here but only approximately on the hardware.
- The implementation of `queue.c` is not part of this model. Queues are modelled by their observable behaviour (capacity, items oldest first, overwriting push).
- The coefficient tables and the frequency tick table are constructor parameters of a fixed shape. Their values are not transcribed.
- The header constants are parameters:
  - `FILTER_FIR_DECIMATION_FACTOR`
  - `FILTER_INPUT_PULSE_WIDTH`
  - `TRANSMITTER_PULSE_WIDTH`
  - the two timer expire values
- The filter accessors are not modelled: the coefficient-array and queue getters return addresses, and the coefficient, queue-size and decimation getters return constants.
- The self-test and debug routines are outside the modelled core:
  - `*_runTest`
  - `filter_runTest`
  - the debug prints
- `isr.c` and `game.c` are not part of this model.
- `detector_init`, `detector_setIgnoredFrequencies`, `detector_getFrequencyNumberOfLastHit`, `detector_getHitCounts`, `detector_setFudgeFactorIndex` are not modelled, because their bodies are empty in the source. Nothing reads `detector_ignoreAllHitsFlag`, so it has no effect.
- HitLedTimer.InvPreserved: `hitLedTimer_init`, `hitLedTimer_turnLedOn` and `hitLedTimer_turnLedOff` do not keep the invariant in general. Re-initialising a running timer leaves the LED lit while the timer is idle, until a later run turns it off (`HitLedTimer.InitAndLedWritesBreakInv`).
- Transmitter.Next: a tick requires `CanTick`, so a wait tick with a pending run request and `currentFrequency` of 10 or more is not modelled. In that case `transmitter.c:66` reads the frequency tick table out of bounds. `Transmitter.Machine.SetFrequencyNumber` accepts any value below 256, so such a state is reachable.
- Transmitter.Machine.Tick: ticks before the first `transmitter_init` are not modelled, because the machine is valid only once the period is loaded.
- Trigger.Machine.IsPressed: `trigger_isPressed` is declared `void` in the source while returning the flag. It is modelled as returning the flag, and it requires the trigger invariant.
- Trigger.Snapshot: the type of `shotsRemaining` is declared in a header outside this model, so the count is an unbounded integer, and its wrap-around below zero is not modelled.

## Findings

| source | as written | input that shows it | evidently intended | confidence | as-written member | corrected member |
|---|---|---|---|---|---|---|
| lasertag/detector.c:34-48 | The insertion sort's inner index `j` is `uint8_t`, so `j >= 0` always holds. When the key is smaller than every value before it, `j` wraps from 0 to 255 and the loop reads `powerValues[255]` | Power values 2.0, 1.0, 0.0, … on the first outer step (`i = 1`, key 1.0) | A signed index, so the scan stops at -1 and the key is stored at index 0 | not executed | Detector.ScanAsWrittenCounterexample | Detector.DetectHit |
| lasertag/detector.c:56 | The final comparison reads `powerValues[FILTER_FREQUENCY_COUNT]`, one past the end of the ten values | Any ten power values | Compare the largest value, `powerValues[FILTER_FREQUENCY_COUNT - 1]` | not executed | Detector.DecisionAsWrittenReadsPastEnd | Detector.Decide |
