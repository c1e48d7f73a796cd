/** The trigger state machine of lasertag/trigger.c. It debounces the gun
    trigger (or BTN0) in both directions: the state changes only after the
    input has held its new level for MAX_TICKS consecutive ticks. A debounced
    press fires the transmitter while shots remain, and spends a shot either
    way. */
module Trigger {
  import Transmitter

  /** MAX_TICKS */
  const MaxTicks: nat := 5000
  /** The largest shot count for which a press fires. */
  const MaxShots: int := 10

  datatype State = Released | Pressed

  /** The module's statics. The type of `shotsRemaining` is declared in a
      header that is not part of this model, so it is an unbounded integer. */
  datatype Snapshot = Snapshot(
    enabled: bool,
    ignoreGunInput: bool,
    shotsRemaining: int,
    ticks: nat,
    pressedFlag: bool,
    state: State)

  /** triggerPressed: the gun input counts unless it is ignored; BTN0 always
      counts. */
  function TriggerPressed(ignoreGunInput: bool, gunPin: bool, btn0: bool): (r: bool)
    ensures r <==> btn0 || (gunPin && !ignoreGunInput)
  {
    (!ignoreGunInput && gunPin) || btn0
  }

  /** Whether the input level `pressed` counts towards leaving `state`:
      pressed samples in the released state, released samples in the pressed
      state. */
  function Counts(state: State, pressed: bool): bool {
    if state == Released then pressed else !pressed
  }

  /** The state the debounce counter leads to from `state`. */
  function Other(state: State): State {
    if state == Released then Pressed else Released
  }

  /** Whether a tick from `s` is the debounced press that calls
      transmitter_run. */
  function Fires(s: Snapshot): (r: bool)
    ensures r ==> s.state == Released && s.ticks >= MaxTicks
  {
    s.enabled && s.state == Released && s.ticks >= MaxTicks && 0 < s.shotsRemaining <= MaxShots
  }

  /** The state update of trigger_tick: an enabled trigger whose counter has
      reached MAX_TICKS changes state with the counter back at zero; a press
      spends a shot. */
  function Transition(s: Snapshot): Snapshot {
    if s.ticks < MaxTicks then s
    else if s.state == Released then
      s.(ticks := 0, shotsRemaining := s.shotsRemaining - 1, state := Pressed, pressedFlag := true)
    else s.(ticks := 0, state := Released, pressedFlag := false)
  }

  /** The state action of trigger_tick: a sample that disagrees with the
      state is counted, one that agrees resets the count. */
  function Action(t: Snapshot, pressed: bool): Snapshot {
    if Counts(t.state, pressed) then t.(ticks := t.ticks + 1) else t.(ticks := 0)
  }

  /** trigger_tick as a step function of the sampled input level: nothing
      while disabled; otherwise the state update, then the state action. */
  function Next(s: Snapshot, pressed: bool): Snapshot {
    if !s.enabled then s else Action(Transition(s), pressed)
  }

  /** The ticks of a run of input samples, the first sample first. */
  function Run(s: Snapshot, inputs: seq<bool>): (r: Snapshot)
    ensures r.enabled == s.enabled
    decreases |inputs|
  {
    if inputs == [] then s else Run(Next(s, inputs[0]), inputs[1..])
  }

  /** The number of samples at the end of `inputs` that count towards leaving
      `state`. */
  function TrailingRun(state: State, inputs: seq<bool>): (n: nat)
    ensures n <= |inputs|
  {
    if inputs == [] || !Counts(state, inputs[|inputs| - 1]) then 0
    else TrailingRun(state, inputs[..|inputs| - 1]) + 1
  }

  /** What holds after trigger_init and every tick: the counter never passes
      MAX_TICKS, and the pressed flag mirrors the state. */
  ghost predicate Inv(s: Snapshot) {
    s.ticks <= MaxTicks && s.pressedFlag == (s.state == Pressed)
  }

  /** The rules of one tick: a disabled trigger does not move; an enabled one
      changes state exactly when its counter has reached MAX_TICKS, the change
      leaves the counter at most 1 and spends one shot on a press (and only
      then); without a change, the counter goes up by one on a sample that
      counts and drops to zero otherwise; and the invariant is preserved. */
  lemma NextRules(s: Snapshot, pressed: bool)
    requires Inv(s)
    ensures !s.enabled ==> Next(s, pressed) == s
    ensures Inv(Next(s, pressed))
    ensures var r := Next(s, pressed);
      && r.enabled == s.enabled && r.ignoreGunInput == s.ignoreGunInput
      && (s.enabled ==> (r.state != s.state <==> s.ticks == MaxTicks))
      && (r.state != s.state ==> r.ticks <= 1)
      && (r.shotsRemaining == if r.state == Pressed && s.state == Released then s.shotsRemaining - 1 else s.shotsRemaining)
      && (r.state == s.state ==> r.ticks == if s.enabled && Counts(s.state, pressed) then s.ticks + 1 else if s.enabled then 0 else s.ticks)
  {
  }

  /** A press fires the transmitter exactly when the shot count is in
      (0, MAX_SHOTS]; the count is decremented whether or not it fires. */
  lemma FiresOnPress(s: Snapshot, pressed: bool)
    requires Inv(s) && s.enabled && s.state == Released
    ensures Fires(s) <==> Next(s, pressed).state == Pressed && 0 < s.shotsRemaining <= MaxShots
    ensures Next(s, pressed).state == Pressed ==> Next(s, pressed).shotsRemaining == s.shotsRemaining - 1
  {
  }

  /** Splitting a run of samples before its last sample. */
  lemma {:induction false} RunSnoc(s: Snapshot, inputs: seq<bool>, x: bool)
    ensures Run(s, inputs + [x]) == Next(Run(s, inputs), x)
    decreases |inputs|
  {
    if inputs == [] {
      assert [] + [x] == [x];
    } else {
      assert (inputs + [x])[1..] == inputs[1..] + [x];
      RunSnoc(Next(s, inputs[0]), inputs[1..], x);
    }
  }

  /** Debouncing: while an enabled trigger has not yet reached MAX_TICKS, it
      keeps its state, and its counter is the number of trailing samples that
      disagree with the state (added to the count it started with, when all
      of them do). So a state change needs MAX_TICKS consecutive samples of the
      new level; a single agreeing sample starts the count over. */
  lemma {:induction false} CountsTrailingSamples(s: Snapshot, inputs: seq<bool>)
    requires Inv(s) && s.enabled && s.ticks + |inputs| <= MaxTicks
    ensures Run(s, inputs).state == s.state
    ensures Run(s, inputs).shotsRemaining == s.shotsRemaining
    ensures Run(s, inputs).ticks ==
      if TrailingRun(s.state, inputs) == |inputs| then s.ticks + |inputs|
      else TrailingRun(s.state, inputs)
    decreases |inputs|
  {
    if inputs != [] {
      var init := inputs[..|inputs| - 1];
      var x := inputs[|inputs| - 1];
      assert inputs == init + [x];
      assert inputs[..|inputs| - 1] == init;
      CountsTrailingSamples(s, init);
      RunSnoc(s, init, x);
    }
  }

  /** From a freshly entered state (counter at zero), MAX_TICKS samples of the
      other level bring the counter to MAX_TICKS, and the next tick changes the
      state whatever its sample. */
  lemma ChangesAfterMaxTicksSamples(s: Snapshot, inputs: seq<bool>, x: bool)
    requires Inv(s) && s.enabled && s.ticks == 0
    requires |inputs| == MaxTicks && forall k :: 0 <= k < |inputs| ==> Counts(s.state, inputs[k])
    ensures Run(s, inputs).ticks == MaxTicks && Run(s, inputs).state == s.state
    ensures Run(s, inputs + [x]).state == Other(s.state)
  {
    AllCountingIsTrailing(s.state, inputs);
    CountsTrailingSamples(s, inputs);
    RunSnoc(s, inputs, x);
  }

  /** A run of samples that all count is its own trailing run. */
  lemma {:induction false} AllCountingIsTrailing(state: State, inputs: seq<bool>)
    requires forall k :: 0 <= k < |inputs| ==> Counts(state, inputs[k])
    ensures TrailingRun(state, inputs) == |inputs|
    decreases |inputs|
  {
    if inputs != [] {
      AllCountingIsTrailing(state, inputs[..|inputs| - 1]);
    }
  }

  class Machine {
    const transmitter: Transmitter.Machine

    var ignoreGunInput: bool
    var isEnabled: bool
    var shotsRemaining: int
    var ticks: nat
    var triggerPressedFlag: bool
    var currentState: State

    function Snap(): Snapshot
      reads this
    {
      Snapshot(isEnabled, ignoreGunInput, shotsRemaining, ticks, triggerPressedFlag, currentState)
    }

    /** The statics before trigger_init, all zero. */
    constructor (transmitter: Transmitter.Machine)
      ensures this.transmitter == transmitter
      ensures Snap() == Snapshot(false, false, 0, 0, false, Released) && Inv(Snap())
    {
      this.transmitter := transmitter;
      ignoreGunInput, isEnabled, shotsRemaining := false, false, 0;
      ticks, triggerPressedFlag, currentState := 0, false, Released;
    }

    /** trigger_init: ten shots, released, disabled; the gun input is ignored
        from now on if the trigger reads as pressed at this moment. */
    method Init(gunPin: bool, btn0: bool)
      modifies this
      ensures Inv(Snap())
      ensures Snap() == Snapshot(false, old(ignoreGunInput) || gunPin || btn0, MaxShots, 0, false, Released)
    {
      isEnabled := false;
      shotsRemaining := MaxShots;
      triggerPressedFlag := false;
      currentState := Released;
      ticks := 0;
      if TriggerPressed(ignoreGunInput, gunPin, btn0) {
        ignoreGunInput := true;
      }
    }

    /** trigger_tick, with the levels of the gun pin and BTN0 sampled for this
        tick; a debounced press with shots left runs the transmitter. */
    method Tick(gunPin: bool, btn0: bool)
      requires transmitter.Valid()
      modifies this, transmitter
      ensures Snap() == Next(old(Snap()), TriggerPressed(ignoreGunInput, gunPin, btn0))
      ensures transmitter.Valid()
      ensures transmitter.Snap() ==
        if Fires(old(Snap())) then old(transmitter.Snap()).(running := true) else old(transmitter.Snap())
    {
      if !isEnabled {
        return;
      }
      UpdateState();
      Act(TriggerPressed(ignoreGunInput, gunPin, btn0));
    }

    /** The state update of trigger_tick. */
    method UpdateState()
      requires transmitter.Valid()
      modifies this, transmitter
      ensures Snap() == Transition(old(Snap()))
      ensures transmitter.Valid()
      ensures transmitter.Snap() ==
        if old(Snap()).state == Released && old(ticks) >= MaxTicks && 0 < old(shotsRemaining) <= MaxShots
        then old(transmitter.Snap()).(running := true) else old(transmitter.Snap())
    {
      match currentState {
        case Released =>
          if ticks >= MaxTicks {
            ticks := 0;
            if shotsRemaining > 0 && shotsRemaining <= MaxShots {
              transmitter.Run();
            }
            SetRemainingShotCount(shotsRemaining - 1);
            currentState := Pressed;
            triggerPressedFlag := true;
          }
        case Pressed =>
          if ticks >= MaxTicks {
            ticks := 0;
            currentState := Released;
            triggerPressedFlag := false;
          }
      }
    }

    /** The state action of trigger_tick, given the sampled input level. */
    method Act(pressed: bool)
      modifies this
      ensures Snap() == Action(old(Snap()), pressed)
    {
      match currentState {
        case Released =>
          if pressed {
            ticks := ticks + 1;
          } else {
            ticks := 0;
          }
        case Pressed =>
          if !pressed {
            ticks := ticks + 1;
          } else {
            ticks := 0;
          }
      }
    }

    /** trigger_enable */
    method Enable()
      modifies this
      ensures Snap() == old(Snap()).(enabled := true)
    {
      isEnabled := true;
    }

    /** trigger_disable */
    method Disable()
      modifies this
      ensures Snap() == old(Snap()).(enabled := false)
    {
      isEnabled := false;
    }

    /** trigger_getRemainingShotCount */
    function GetRemainingShotCount(): (n: int)
      reads this
      ensures n == shotsRemaining
    {
      shotsRemaining
    }

    /** trigger_setRemainingShotCount: the next read returns `count`. */
    method SetRemainingShotCount(count: int)
      modifies this
      ensures Snap() == old(Snap()).(shotsRemaining := count)
      ensures GetRemainingShotCount() == count
    {
      shotsRemaining := count;
    }

    /** trigger_isPressed: the debounced level. */
    function IsPressed(): (r: bool)
      reads this
      requires Inv(Snap())
      ensures r <==> currentState == Pressed
    {
      triggerPressedFlag
    }
  }
}
