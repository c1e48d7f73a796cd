/** The hit-LED timer of lasertag/hitLedTimer.c: a start request lights the
    hit LED on the next enabled tick and keeps it lit for
    HIT_LED_TIMER_EXPIRE_VALUE ticks. The LED and the MIO pin it drives are one
    output, `ledOn`. */
module HitLedTimer {

  datatype State = Idle | Running

  /** The module's statics `isEnabled`, `shouldStart`, `ticks`,
      `currentState`, and the level last written to the LED. */
  datatype Snapshot = Snapshot(enabled: bool, shouldStart: bool, ticks: nat, state: State, ledOn: bool)

  /** hitLedTimer_tick as a step function: nothing while disabled; otherwise
      the state update (with the LED written on entry to and exit from the
      running state), then the state action. */
  function Next(s: Snapshot, expireValue: nat): Snapshot {
    if !s.enabled then s
    else
      var t :=
        match s.state
        case Idle =>
          if s.shouldStart then s.(ticks := 0, state := Running, ledOn := true) else s
        case Running =>
          if s.ticks >= expireValue then s.(ticks := 0, shouldStart := false, ledOn := false, state := Idle)
          else s;
      if t.state == Running then t.(ticks := t.ticks + 1) else t
  }

  /** hitLedTimer_start as a step function: it only records the request. */
  function Started(s: Snapshot): Snapshot {
    s.(shouldStart := true)
  }

  /** `n` ticks in a row, with no start in between. */
  function Ticks(s: Snapshot, expireValue: nat, n: nat): Snapshot {
    if n == 0 then s else Next(Ticks(s, expireValue, n - 1), expireValue)
  }

  /** What holds in every reachable state: while running, the request is
      still pending, the LED is on and the count is in [1, expireValue]; while
      idle, the count is zero and the LED is off. */
  ghost predicate Inv(s: Snapshot, expireValue: nat) {
    && (s.state == Running ==> s.shouldStart && s.ledOn && 1 <= s.ticks <= expireValue)
    && (s.state == Idle ==> s.ticks == 0 && !s.ledOn)
  }

  /** The tick, a start request and enabling or disabling preserve the
      invariant (the expire value is positive). */
  lemma InvPreserved(s: Snapshot, expireValue: nat, enabled: bool)
    requires 0 < expireValue && Inv(s, expireValue)
    ensures Inv(Next(s, expireValue), expireValue)
    ensures Inv(Started(s), expireValue)
    ensures Inv(s.(enabled := enabled), expireValue)
  {
  }

  /** The operations that write the statics or the LED directly keep the
      invariant only in part. Re-initialising keeps it exactly when the timer
      was idle: a running timer's LED stays lit while the timer reads as idle,
      until a later run ends. Writing the LED keeps it exactly when the level
      written is the level already there. */
  lemma InitAndLedWritesBreakInv(s: Snapshot, expireValue: nat, on: bool)
    requires Inv(s, expireValue)
    ensures Inv(Snapshot(false, false, 0, Idle, s.ledOn), expireValue) <==> s.state == Idle
    ensures Inv(s.(ledOn := on), expireValue) <==> on == s.ledOn
  {
  }

  /** The transition rules: a disabled timer does not move; an enabled idle
      timer enters the running state exactly when a start is pending, with
      the LED turned on and the count restarted; a running timer leaves
      exactly when its count has reached the expire value, turning the LED off,
      resetting the count and dropping the request. */
  lemma NextRules(s: Snapshot, expireValue: nat)
    requires Inv(s, expireValue)
    ensures !s.enabled ==> Next(s, expireValue) == s
    ensures s.enabled && s.state == Idle ==>
      (Next(s, expireValue).state == Running <==> s.shouldStart)
    ensures s.enabled && s.state == Idle && s.shouldStart ==>
      Next(s, expireValue).ticks == 1 && Next(s, expireValue).ledOn
    ensures s.enabled && s.state == Running ==>
      (Next(s, expireValue).state == Idle <==> s.ticks == expireValue)
    ensures s.enabled && s.state == Running && s.ticks == expireValue ==>
      var r := Next(s, expireValue);
      r.ticks == 0 && !r.shouldStart && !r.ledOn
  {
  }

  /** A start issued while the timer is running changes nothing: the request
      is already pending and is dropped when the running period ends. */
  lemma StartWhileRunningIsDiscarded(s: Snapshot, expireValue: nat)
    requires Inv(s, expireValue) && s.state == Running
    ensures Started(s) == s
  {
  }

  /** From a pending start on an enabled idle timer, the LED is on after each
      of the first `expireValue` ticks, the count equal to the ticks so far. */
  lemma {:induction false} LitForExpireValueTicks(s: Snapshot, expireValue: nat, n: nat)
    requires s.enabled && s.state == Idle && s.shouldStart
    requires 1 <= n <= expireValue
    ensures Ticks(s, expireValue, n).state == Running
    ensures Ticks(s, expireValue, n).ticks == n && Ticks(s, expireValue, n).ledOn
    ensures Ticks(s, expireValue, n).enabled
  {
    if n > 1 {
      LitForExpireValueTicks(s, expireValue, n - 1);
    }
  }

  /** ... and the tick after those turns it off and clears the request. */
  lemma OffAfterExpireValuePlusOneTicks(s: Snapshot, expireValue: nat)
    requires s.enabled && s.state == Idle && s.shouldStart && 1 <= expireValue
    ensures Ticks(s, expireValue, expireValue + 1).state == Idle
    ensures !Ticks(s, expireValue, expireValue + 1).ledOn
    ensures !Ticks(s, expireValue, expireValue + 1).shouldStart
  {
    LitForExpireValueTicks(s, expireValue, expireValue);
  }

  class Timer {
    /** HIT_LED_TIMER_EXPIRE_VALUE */
    const expireValue: nat

    var isEnabled: bool
    var shouldStart: bool
    var ticks: nat
    var currentState: State
    /** The level last written to the hit LED and its MIO pin. */
    var ledOn: bool

    function Snap(): Snapshot
      reads this
    {
      Snapshot(isEnabled, shouldStart, ticks, currentState, ledOn)
    }

    /** The static timer after hitLedTimer_init; the LED starts off. */
    constructor (expireValue: nat)
      requires 0 < expireValue
      ensures this.expireValue == expireValue
      ensures Snap() == Snapshot(false, false, 0, Idle, false)
      ensures Inv(Snap(), expireValue)
    {
      this.expireValue := expireValue;
      isEnabled, shouldStart, ticks, currentState, ledOn := false, false, 0, Idle, false;
    }

    /** hitLedTimer_init: the LED level is left as it was. */
    method Init()
      modifies this
      ensures Snap() == Snapshot(false, false, 0, Idle, old(ledOn))
    {
      isEnabled := false;
      ticks := 0;
      currentState := Idle;
      shouldStart := false;
    }

    /** hitLedTimer_tick */
    method Tick()
      modifies this
      ensures Snap() == Next(old(Snap()), expireValue)
    {
      if !isEnabled {
        return;
      }
      match currentState {
        case Idle =>
          if shouldStart {
            ticks := 0;
            currentState := Running;
            TurnLedOn();
          }
        case Running =>
          if ticks >= expireValue {
            ticks := 0;
            shouldStart := false;
            TurnLedOff();
            currentState := Idle;
          }
      }
      match currentState {
        case Idle =>
        case Running =>
          ticks := ticks + 1;
      }
    }

    /** hitLedTimer_start */
    method Start()
      modifies this
      ensures Snap() == Started(old(Snap()))
    {
      shouldStart := true;
    }

    /** hitLedTimer_running */
    function IsRunning(): (r: bool)
      reads this
      ensures r <==> currentState == Running
    {
      if currentState == Running then true else false
    }

    /** hitLedTimer_turnLedOn */
    method TurnLedOn()
      modifies this
      ensures Snap() == old(Snap()).(ledOn := true)
    {
      ledOn := true;
    }

    /** hitLedTimer_turnLedOff */
    method TurnLedOff()
      modifies this
      ensures Snap() == old(Snap()).(ledOn := false)
    {
      ledOn := false;
    }

    /** hitLedTimer_disable */
    method Disable()
      modifies this
      ensures Snap() == old(Snap()).(enabled := false)
    {
      isEnabled := false;
    }

    /** hitLedTimer_enable */
    method Enable()
      modifies this
      ensures Snap() == old(Snap()).(enabled := true)
    {
      isEnabled := true;
    }
  }
}
