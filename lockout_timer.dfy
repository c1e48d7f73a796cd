/** The lockout timer of lasertag/lockoutTimer.c: once started it stays locked
    for LOCKOUT_TIMER_EXPIRE_VALUE ticks, during which the detector evaluates
    no hits. */
module LockoutTimer {

  datatype State = Waiting | Locked

  /** The module's statics: `currentState`, `ticks` and `shouldStart`. */
  datatype Snapshot = Snapshot(state: State, ticks: nat, shouldStart: bool)

  /** lockoutTimer_tick as a step function: the state update, then the state
      action. */
  function Next(s: Snapshot, expireValue: nat): Snapshot {
    var t :=
      if s.state == Locked && s.ticks >= expireValue then Snapshot(Waiting, 0, false)
      else s;
    if t.state == Locked then t.(ticks := t.ticks + 1) else t
  }

  /** lockoutTimer_start as a step function. */
  function Started(s: Snapshot): Snapshot {
    s.(state := Locked, ticks := 0)
  }

  /** `n` ticks in a row, with no start in between. */
  function Ticks(s: Snapshot, expireValue: nat, n: nat): Snapshot {
    if n == 0 then s else Next(Ticks(s, expireValue, n - 1), expireValue)
  }

  /** While locked, the tick count never exceeds the expire value. */
  ghost predicate Bounded(s: Snapshot, expireValue: nat) {
    s.state == Locked ==> s.ticks <= expireValue
  }

  /** The transition rules of one tick: waiting is left alone; a locked timer
      counts up until it has reached the expire value, and leaving the locked
      state resets the count; the bound on the count is preserved. */
  lemma NextRules(s: Snapshot, expireValue: nat)
    ensures s.state == Waiting ==> Next(s, expireValue) == s
    ensures s.state == Locked && s.ticks >= expireValue ==>
      Next(s, expireValue).state == Waiting && Next(s, expireValue).ticks == 0
    ensures s.state == Locked && s.ticks < expireValue ==>
      Next(s, expireValue).state == Locked && Next(s, expireValue).ticks == s.ticks + 1
    ensures Bounded(s, expireValue) ==> Bounded(Next(s, expireValue), expireValue)
  {
  }

  /** After a start, the timer is still locked after each of the first
      `expireValue` ticks, and its count equals the number of ticks so far. */
  lemma {:induction false} LockedForExpireValueTicks(s: Snapshot, expireValue: nat, n: nat)
    requires n <= expireValue
    ensures Ticks(Started(s), expireValue, n).state == Locked
    ensures Ticks(Started(s), expireValue, n).ticks == n
  {
    if n > 0 {
      LockedForExpireValueTicks(s, expireValue, n - 1);
    }
  }

  /** ... and the tick after those releases it, with the count back at zero. */
  lemma ReleasedAfterExpireValuePlusOneTicks(s: Snapshot, expireValue: nat)
    ensures Ticks(Started(s), expireValue, expireValue + 1).state == Waiting
    ensures Ticks(Started(s), expireValue, expireValue + 1).ticks == 0
  {
    LockedForExpireValueTicks(s, expireValue, expireValue);
  }

  class Timer {
    /** LOCKOUT_TIMER_EXPIRE_VALUE */
    const expireValue: nat

    var currentState: State
    var ticks: nat
    var shouldStart: bool

    function Snap(): Snapshot
      reads this
    {
      Snapshot(currentState, ticks, shouldStart)
    }

    /** The static timer after lockoutTimer_init. */
    constructor (expireValue: nat)
      ensures this.expireValue == expireValue
      ensures Snap() == Snapshot(Waiting, 0, false) && !Running()
    {
      this.expireValue := expireValue;
      currentState, ticks, shouldStart := Waiting, 0, false;
    }

    /** lockoutTimer_init */
    method Init()
      modifies this
      ensures Snap() == Snapshot(Waiting, 0, false) && !Running()
    {
      ticks := 0;
      shouldStart := false;
      currentState := Waiting;
    }

    /** lockoutTimer_tick */
    method Tick()
      modifies this
      ensures Snap() == Next(old(Snap()), expireValue)
    {
      match currentState {
        case Waiting =>
        case Locked =>
          if ticks >= expireValue {
            ticks := 0;
            shouldStart := false;
            currentState := Waiting;
          }
      }
      match currentState {
        case Waiting =>
        case Locked =>
          ticks := ticks + 1;
      }
    }

    /** lockoutTimer_start: lock from any state, with the count at zero. */
    method Start()
      modifies this
      ensures Snap() == Started(old(Snap()))
      ensures Running() && ticks == 0
    {
      currentState := Locked;
      ticks := 0;
    }

    /** lockoutTimer_running */
    function Running(): (r: bool)
      reads this
      ensures r <==> currentState == Locked
    {
      if currentState == Locked then true else false
    }
  }
}
