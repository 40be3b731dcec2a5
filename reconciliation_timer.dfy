/**
 * The manual-reconciliation timer of backup-20260123-152753/main.js: it is
 * started the first time the case-1 section becomes visible, ticks once a
 * second, changes the challenge hint at 15 and at 30 seconds, and is
 * stopped by the "give up" button, which reads the time shown.
 */
module ReconciliationTimer {
  import Clock
  import opened Common

  /** The challenge hint: the initial text, the 15-second nudge, the 30-second one. */
  datatype Hint = Initial | After15 | After30

  /** The hint on display once the timer has counted `seconds`. */
  function HintAt(seconds: nat): Hint
  {
    if seconds >= 30 then After30 else if seconds >= 15 then After15 else Initial
  }

  /** The hint changes at a tick exactly when the count reaches 15 or 30. */
  lemma HintChangesAt(seconds: nat)
    requires seconds >= 1
    ensures HintAt(seconds) != HintAt(seconds - 1) <==> seconds == 15 || seconds == 30
  {
  }

  class Timer {
    /** reconciliationSeconds */
    var seconds: nat
    /** Whether reconciliationTimer holds an interval id (it is never reset to null). */
    var handle: bool
    /** Whether the interval is still firing. */
    var ticking: bool
    var hint: Hint

    ghost predicate Valid()
      reads this
    {
      (ticking ==> handle)
      && (!handle ==> seconds == 0)
      && hint == HintAt(seconds)
    }

    constructor ()
      ensures Valid() && seconds == 0 && !handle && !ticking && hint == Initial
    {
      seconds := 0;
      handle := false;
      ticking := false;
      hint := Initial;
    }

    /**
     * The visibility callback for case 1: starts the interval only if no
     * interval id was ever stored, so the timer starts at most once.
     */
    method OnSectionVisible(isIntersecting: bool) returns (started: bool)
      requires Valid()
      modifies this`seconds, this`handle, this`ticking
      ensures Valid()
      ensures started <==> isIntersecting && !old(handle)
      ensures started ==> seconds == 0 && handle && ticking
      ensures !started ==> seconds == old(seconds) && handle == old(handle) && ticking == old(ticking)
    {
      started := isIntersecting && !handle;
      if started {
        seconds := 0;
        handle := true;
        ticking := true;
      }
    }

    /** One interval tick: one more second, the display redrawn, the hint updated at 15 and 30. */
    method Tick() returns (display: string)
      requires Valid() && ticking
      modifies this`seconds, this`hint
      ensures Valid()
      ensures seconds == old(seconds) + 1 && display == Clock.FormatTime(seconds)
      ensures hint != old(hint) <==> seconds == 15 || seconds == 30
    {
      seconds := seconds + 1;
      display := Clock.FormatTime(seconds);
      if seconds == 15 {
        hint := After15;
      }
      if seconds == 30 {
        hint := After30;
      }
      HintChangesAt(seconds);
    }

    /**
     * The "give up" button: the interval is cleared (the id stays, so the
     * timer never restarts) and the time reached is formatted for the result.
     */
    method GiveUp() returns (finalTime: string)
      requires Valid()
      modifies this`ticking
      ensures Valid() && !ticking && handle == old(handle)
      ensures Clock.ParseTime(finalTime) == Some(seconds)
    {
      ticking := false;
      finalTime := Clock.FormatTime(seconds);
      Clock.FormatTimeRoundTrip(seconds);
    }
  }
}
