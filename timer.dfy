/** The countdown: the remaining time is persisted with a wall-clock
    timestamp on every tick, and reconstructed after a reload by subtracting
    the whole seconds that have passed since. `now` is the wall clock
    (`Date.now()`, in milliseconds), passed in. */
module Timer {
  import opened JsValues
  import opened Storage

  /** The whole game lasts ten minutes. */
  const TOTAL_TIME: real := 600.0

  function Max(a: real, b: real): real {
    if a >= b then a else b
  }

  /** `Math.floor((now - since) / 1000)`: whole seconds between two
      millisecond timestamps. */
  function ElapsedSeconds(now: int, since: real): int {
    ((now as real - since) / 1000.0).Floor
  }

  /** `saveTimerState`: the remaining time and the moment it was saved. */
  function SaveTimer(st: Store, timeLeft: real, now: int): (st': Store)
    ensures NumberOf(Get(st', TimeLeftKey)) == Finite(timeLeft)
    ensures NumberOf(Get(st', LastSavedTimeKey)) == Finite(now as real)
    ensures forall k :: k != TimeLeftKey && k != LastSavedTimeKey ==> Get(st', k) == Get(st, k)
  {
    st[TimeLeftKey := NumberText(timeLeft)][LastSavedTimeKey := NumberText(now as real)]
  }

  /** The timer keys removed, as on game over and on a forced restart. */
  function ClearTimer(st: Store): (st': Store)
    ensures TimeLeftKey !in st' && LastSavedTimeKey !in st'
    ensures forall k :: k != TimeLeftKey && k != LastSavedTimeKey ==> Get(st', k) == Get(st, k)
  {
    st - {TimeLeftKey, LastSavedTimeKey}
  }

  /** `restoreTimerState`, as written: both keys are read with `Number`, so a
      missing key reads as 0 and only a stored non-numeric string or an
      infinity falls back to the full game time. */
  function RestoreTimerState(st: Store, now: int): (t: real)
    ensures 0.0 <= t
    ensures !NumberOf(Get(st, TimeLeftKey)).Finite? || !NumberOf(Get(st, LastSavedTimeKey)).Finite?
            ==> t == TOTAL_TIME
  {
    var saved := NumberOf(Get(st, TimeLeftKey));
    var last := NumberOf(Get(st, LastSavedTimeKey));
    if !saved.Finite? || !last.Finite? then
      TOTAL_TIME
    else
      Max(0.0, saved.value - ElapsedSeconds(now, last.value) as real)
  }

  /** The restored time never exceeds what was saved (or 0, when a negative
      value was stored), as long as the clock has not gone backwards. */
  lemma RestoreNeverGains(st: Store, now: int)
    requires NumberOf(Get(st, TimeLeftKey)).Finite? && NumberOf(Get(st, LastSavedTimeKey)).Finite?
    requires now as real >= NumberOf(Get(st, LastSavedTimeKey)).value
    ensures RestoreTimerState(st, now) <= Max(0.0, NumberOf(Get(st, TimeLeftKey)).value)
  {
    var last := NumberOf(Get(st, LastSavedTimeKey)).value;
    assert (now as real - last) / 1000.0 >= 0.0;
    assert ElapsedSeconds(now, last) >= 0;
  }

  /** Restoring what a tick saved: the saved time less the whole seconds
      since the save, never below 0; within the same second nothing is lost. */
  lemma RestoreAfterSave(st: Store, timeLeft: real, saved: int, now: int)
    ensures RestoreTimerState(SaveTimer(st, timeLeft, saved), now)
            == Max(0.0, timeLeft - ElapsedSeconds(now, saved as real) as real)
    ensures saved <= now < saved + 1000 ==>
              RestoreTimerState(SaveTimer(st, timeLeft, saved), now) == Max(0.0, timeLeft)
  {
    var st' := SaveTimer(st, timeLeft, saved);
    assert Get(st', TimeLeftKey) == Some(NumberText(timeLeft));
    assert Get(st', LastSavedTimeKey) == Some(NumberText(saved as real));
    if saved <= now < saved + 1000 {
      var q := (now as real - saved as real) / 1000.0;
      assert 0.0 <= q < 1.0;
      assert ElapsedSeconds(now, saved as real) == 0;
    }
  }

  /** Worked example: 100 s saved at time T; 30 s later 70 s are left, and
      200 s later the clock is clamped at 0. */
  lemma RestoreExample(st: Store, saved: int)
    ensures RestoreTimerState(SaveTimer(st, 100.0, saved), saved + 30000) == 70.0
    ensures RestoreTimerState(SaveTimer(st, 100.0, saved), saved + 200000) == 0.0
  {
    RestoreAfterSave(st, 100.0, saved, saved + 30000);
    assert ((saved + 30000) as real - saved as real) / 1000.0 == 30.0;
    RestoreAfterSave(st, 100.0, saved, saved + 200000);
    assert ((saved + 200000) as real - saved as real) / 1000.0 == 200.0;
  }

  /** With no timer saved at all (a first visit, or after game over) both
      keys read as 0, so at any wall-clock time from the epoch on the
      restored time is 0, not the full game time. */
  lemma NoSavedTimerRestoresZero(st: Store, now: int)
    requires TimeLeftKey !in st && LastSavedTimeKey !in st
    requires now >= 0
    ensures RestoreTimerState(st, now) == 0.0
  {
    assert ElapsedSeconds(now, 0.0) >= 0;
  }

  /** `restoreTimerState` as its comment intends: a missing key means no
      saved time, and the full game time is returned. */
  function RestoreTimerStateIntended(st: Store, now: int): (t: real)
    ensures 0.0 <= t
    ensures TimeLeftKey !in st || LastSavedTimeKey !in st ==> t == TOTAL_TIME
  {
    if TimeLeftKey !in st || LastSavedTimeKey !in st then TOTAL_TIME else RestoreTimerState(st, now)
  }

  /** The intended reading differs from the written one only when a timer
      key is missing. */
  lemma IntendedAgreesWhenSaved(st: Store, now: int)
    requires TimeLeftKey in st && LastSavedTimeKey in st
    ensures RestoreTimerStateIntended(st, now) == RestoreTimerState(st, now)
  {
  }
}
