/** The transmitter state machine of lasertag/transmitter.c. It is meant to
    emit a square wave whose period (in ticks) comes from the frequency tick
    table, for TRANSMITTER_PULSE_WIDTH ticks per shot. As written, the wait
    state never moves to a signal state, so from its initial state the machine
    reaches the wait state and stays there; the signal states are modelled
    all the same, with their own transition rules. */
module Transmitter {
  import Filter
  import opened CTypes

  datatype State = InitSt | Wait | SigHigh | SigLow

  /** The module's statics and the level last written to the output pin. */
  datatype Snapshot = Snapshot(
    state: State,
    signalTimer: nat,
    continuousModeOn: bool,
    running: bool,
    currentFrequency: nat,
    period: nat,
    pinHigh: bool)

  /** filter_frequencyTickTable: one positive `uint16_t` period per frequency. */
  ghost predicate TableOk(table: seq<nat>) {
    |table| == Filter.FrequencyCount && forall k :: 0 <= k < |table| ==> 0 < table[k] < Uint16Range
  }

  /** The statics stay within their C types, and the period is never zero. */
  ghost predicate Inv(s: Snapshot) {
    && s.signalTimer < Uint16Range
    && 0 < s.period < Uint16Range
    && s.currentFrequency < Uint8Range
  }

  /** The table lookup of a running wait tick is in bounds. */
  ghost predicate CanTick(s: Snapshot, table: seq<nat>) {
    s.state == Wait && s.running ==> s.currentFrequency < |table|
  }

  /** transmitter_tick as a step function: the transition (with its pin
      writes), then the action, which advances `signalTimer` modulo 2^16 in
      the two signal states. */
  function Next(s: Snapshot, table: seq<nat>, pulseWidth: nat): (r: Snapshot)
    requires TableOk(table) && Inv(s) && CanTick(s, table)
    ensures Inv(r)
    ensures r.currentFrequency == s.currentFrequency && r.continuousModeOn == s.continuousModeOn
  {
    var t :=
      match s.state
      case InitSt => s.(state := Wait)
      case Wait =>
        if s.running then
          s.(running := s.continuousModeOn, pinHigh := true, period := table[s.currentFrequency])
        else s
      case SigHigh =>
        if s.signalTimer % s.period > s.period / 2 then s.(state := SigLow, pinHigh := false) else s
      case SigLow =>
        if s.signalTimer > pulseWidth then s.(state := Wait)
        else if s.signalTimer % s.period < s.period / 2 then s.(state := SigHigh, pinHigh := true)
        else s;
    if t.state == SigHigh || t.state == SigLow then t.(signalTimer := (t.signalTimer + 1) % Uint16Range)
    else t
  }

  /** `n` ticks in a row, with no other call in between. */
  function Ticks(s: Snapshot, table: seq<nat>, pulseWidth: nat, n: nat): (r: Snapshot)
    requires TableOk(table) && Inv(s) && s.currentFrequency < |table|
    ensures Inv(r) && r.currentFrequency == s.currentFrequency
  {
    if n == 0 then s else Next(Ticks(s, table, pulseWidth, n - 1), table, pulseWidth)
  }

  /** The state transmitter_init leaves, given the pin level. */
  function Initial(table: seq<nat>, pinHigh: bool): (s: Snapshot)
    requires TableOk(table)
    ensures Inv(s) && s.state == InitSt && s.signalTimer == 0 && !s.running && !s.continuousModeOn
    ensures s.currentFrequency == 0 && s.period == table[0]
  {
    Snapshot(InitSt, 0, false, false, 0, table[0], pinHigh)
  }

  /** The first tick leaves the initial state for the wait state and changes
      nothing else. */
  lemma FirstTickWaits(s: Snapshot, table: seq<nat>, pulseWidth: nat)
    requires TableOk(table) && Inv(s) && s.state == InitSt
    ensures Next(s, table, pulseWidth) == s.(state := Wait)
  {
  }

  /** A wait tick with `running` set consumes the run request unless
      continuous mode is on, drives the pin high and reloads the period for the
      current frequency; without it the tick changes nothing. Either way the
      machine stays in the wait state. */
  lemma WaitRules(s: Snapshot, table: seq<nat>, pulseWidth: nat)
    requires TableOk(table) && Inv(s) && CanTick(s, table) && s.state == Wait
    ensures var r := Next(s, table, pulseWidth);
      && r.state == Wait
      && r.signalTimer == s.signalTimer
      && (s.running ==> r.running == s.continuousModeOn && r.pinHigh && r.period == table[s.currentFrequency])
      && (!s.running ==> r == s)
  {
  }

  /** Once in the wait state, the machine stays there, and `signalTimer` does
      not move, for any number of ticks. */
  lemma {:induction false} WaitIsAbsorbing(s: Snapshot, table: seq<nat>, pulseWidth: nat, n: nat)
    requires TableOk(table) && Inv(s) && s.currentFrequency < |table| && s.state == Wait
    ensures Ticks(s, table, pulseWidth, n).state == Wait
    ensures Ticks(s, table, pulseWidth, n).signalTimer == s.signalTimer
  {
    if n > 0 {
      WaitIsAbsorbing(s, table, pulseWidth, n - 1);
      WaitRules(Ticks(s, table, pulseWidth, n - 1), table, pulseWidth);
    }
  }

  /** From transmitter_init, no number of ticks ever reaches a signal state:
      the pin is never driven low and `signalTimer` stays zero. */
  lemma NeverSignalsFromInit(table: seq<nat>, pulseWidth: nat, pinHigh: bool, n: nat)
    requires TableOk(table)
    ensures Ticks(Initial(table, pinHigh), table, pulseWidth, n).state in {InitSt, Wait}
    ensures Ticks(Initial(table, pinHigh), table, pulseWidth, n).signalTimer == 0
  {
    var s := Initial(table, pinHigh);
    if n > 0 {
      var w := Next(s, table, pulseWidth);
      WaitIsAbsorbing(w, table, pulseWidth, n - 1);
      TicksFirst(s, table, pulseWidth, n);
    }
  }

  /** Unfolding a run of ticks from its first tick instead of its last. */
  lemma {:induction false} TicksFirst(s: Snapshot, table: seq<nat>, pulseWidth: nat, n: nat)
    requires TableOk(table) && Inv(s) && s.currentFrequency < |table| && 0 < n
    ensures Ticks(s, table, pulseWidth, n) == Ticks(Next(s, table, pulseWidth), table, pulseWidth, n - 1)
  {
    if n > 1 {
      TicksFirst(s, table, pulseWidth, n - 1);
    }
  }

  /** The signal states: high moves to low exactly when the position within
      the period has passed half of it, driving the pin low; low returns to
      wait exactly when `signalTimer` has passed the pulse width, and otherwise
      moves to high exactly when the position is before half the period; in
      the signal states every tick advances `signalTimer` by one, modulo 2^16. */
  lemma SignalRules(s: Snapshot, table: seq<nat>, pulseWidth: nat)
    requires TableOk(table) && Inv(s) && s.state in {SigHigh, SigLow}
    ensures var r := Next(s, table, pulseWidth);
      && (s.state == SigHigh ==>
            (r.state == SigLow <==> s.signalTimer % s.period > s.period / 2)
            && (r.state == SigLow ==> !r.pinHigh)
            && r.state in {SigHigh, SigLow})
      && (s.state == SigLow ==>
            (r.state == Wait <==> s.signalTimer > pulseWidth)
            && (r.state == SigHigh <==>
                  s.signalTimer <= pulseWidth && s.signalTimer % s.period < s.period / 2)
            && (r.state == SigHigh ==> r.pinHigh))
      && (r.state != Wait ==> r.signalTimer == (s.signalTimer + 1) % Uint16Range)
      && (r.state == Wait ==> r.signalTimer == s.signalTimer)
      && r.period == s.period && r.running == s.running
  {
  }

  class Machine {
    /** filter_frequencyTickTable */
    const table: seq<nat>
    /** TRANSMITTER_PULSE_WIDTH */
    const pulseWidth: nat

    var currentState: State
    var signalTimer: nat
    var continuousModeOn: bool
    var running: bool
    var currentFrequency: nat
    var period: nat
    /** The level last written to TRANSMITTER_OUTPUT_PIN. */
    var pinHigh: bool

    function Snap(): Snapshot
      reads this
    {
      Snapshot(currentState, signalTimer, continuousModeOn, running, currentFrequency, period, pinHigh)
    }

    ghost predicate Valid()
      reads this
    {
      TableOk(table) && Inv(Snap())
    }

    /** The statics as the C initialisers set them, with the pin low. The
        period is still zero, so the machine is not yet valid: transmitter_init
        loads the first period. */
    constructor (table: seq<nat>, pulseWidth: nat)
      ensures this.table == table && this.pulseWidth == pulseWidth
      ensures Snap() == Snapshot(InitSt, 0, false, false, 0, 0, false)
      ensures !Valid()
    {
      this.table := table;
      this.pulseWidth := pulseWidth;
      currentState, signalTimer, continuousModeOn, running := InitSt, 0, false, false;
      currentFrequency, period, pinHigh := 0, 0, false;
    }

    /** transmitter_init: from any statics, including the initial ones; the
        pin level is left as it was. */
    method Init()
      requires TableOk(table)
      modifies this
      ensures Valid() && Snap() == Initial(table, old(pinHigh))
    {
      currentState := InitSt;
      signalTimer := 0;
      continuousModeOn := false;
      running := false;
      currentFrequency := 0;
      period := table[0];
    }

    /** transmitter_tick */
    method Tick()
      requires Valid() && CanTick(Snap(), table)
      modifies this
      ensures Valid() && Snap() == Next(old(Snap()), table, pulseWidth)
    {
      match currentState {
        case InitSt =>
          currentState := Wait;
        case Wait =>
          if running {
            if !continuousModeOn {
              running := false;
            }
            pinHigh := true;
            period := table[currentFrequency];
          }
        case SigHigh =>
          if signalTimer % period > period / 2 {
            currentState := SigLow;
            pinHigh := false;
          }
        case SigLow =>
          if signalTimer > pulseWidth {
            currentState := Wait;
          } else if signalTimer % period < period / 2 {
            currentState := SigHigh;
            pinHigh := true;
          }
      }
      match currentState {
        case InitSt =>
        case Wait =>
        case SigHigh =>
          signalTimer := (signalTimer + 1) % Uint16Range;
        case SigLow =>
          signalTimer := (signalTimer + 1) % Uint16Range;
      }
    }

    /** transmitter_run: only the run request changes. */
    method Run()
      requires Valid()
      modifies this
      ensures Valid() && Snap() == old(Snap()).(running := true)
      ensures IsRunning()
    {
      running := true;
    }

    /** transmitter_running */
    function IsRunning(): (r: bool)
      reads this
      ensures r <==> running
    {
      running
    }

    /** transmitter_setFrequencyNumber: the `uint16_t` argument is stored in a
        `uint8_t`, so it is truncated modulo 2^8; the period is not touched
        (it is reloaded on the next running wait tick). */
    method SetFrequencyNumber(frequencyNumber: nat)
      requires Valid() && frequencyNumber < Uint16Range
      modifies this
      ensures Valid() && Snap() == old(Snap()).(currentFrequency := frequencyNumber % Uint8Range)
      ensures frequencyNumber < Uint8Range ==> GetFrequencyNumber() == frequencyNumber
    {
      currentFrequency := frequencyNumber % Uint8Range;
    }

    /** transmitter_getFrequencyNumber */
    function GetFrequencyNumber(): (n: nat)
      reads this
      ensures n == currentFrequency
    {
      currentFrequency
    }

    /** transmitter_setContinuousMode */
    method SetContinuousMode(continuousModeFlag: bool)
      requires Valid()
      modifies this
      ensures Valid() && Snap() == old(Snap()).(continuousModeOn := continuousModeFlag)
    {
      continuousModeOn := continuousModeFlag;
    }
  }
}
