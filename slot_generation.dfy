/**
 * The windows generateAppointmentSlots cuts out of an availability: back-to-back
 * slots of `duration` minutes separated by `pause` minutes, from the start time
 * for as long as a slot still ends by the end time.
 *
 * The loop as written compares LocalTime values after plusMinutes, which wraps at
 * midnight (LoopWindows, with a fuel bound since it need not stop); SlotWindows is
 * the loop with the comparison made on the same day, which the model uses.
 */
module SlotGeneration {
  import opened Calendar

  /** One generated slot: its start and end time of day. */
  datatype Window = Window(start: Time, end: Time)

  // ------------------------------------------------------------ as written

  /**
   * At most `fuel` rounds of the loop as written: while the current time plus the
   * slot length, on the 24-hour clock, is not after the end time, emit that slot and
   * move the clock on by slot plus break.
   */
  function LoopWindows(current: Time, endTime: Time, duration: int, pause: int, fuel: nat): seq<Window>
    decreases fuel
  {
    if fuel == 0 then []
    else if PlusMinutes(current, duration) <= endTime then
      [Window(current, PlusMinutes(current, duration))]
      + LoopWindows(PlusMinutes(current, duration + pause), endTime, duration, pause, fuel - 1)
    else []
  }

  /**
   * An availability ending at 23:59 never leaves the loop: every clock reading is at
   * most 23:59, so every round emits a slot, whatever the fuel.
   */
  lemma {:induction false} LoopNeverEndsAt2359(current: Time, duration: int, pause: int, fuel: nat)
    ensures |LoopWindows(current, 1439, duration, pause, fuel)| == fuel
    decreases fuel
  {
    if fuel > 0 {
      LoopNeverEndsAt2359(PlusMinutes(current, duration + pause), duration, pause, fuel - 1);
    }
  }

  /**
   * The end time need not be 23:59: with an end of 23:30, 30-minute slots and a
   * 15-minute break, a clock starting at a quarter past some multiple of 45 minutes
   * (22:00, say) wraps past midnight and lands back at or below the end time on
   * every round, since 45 divides the 1440 minutes of a day.
   */
  lemma {:induction false} LoopNeverEndsAfterWrap(current: Time, fuel: nat)
    requires current % 45 == 15
    ensures |LoopWindows(current, 1410, 30, 15, fuel)| == fuel
    decreases fuel
  {
    if fuel > 0 {
      assert PlusMinutes(current, 30) <= 1410;
      LoopNeverEndsAfterWrap(PlusMinutes(current, 30 + 15), fuel - 1);
    }
  }

  // ------------------------------------------------------------ corrected

  /**
   * The loop with the comparison made on the same day: emit the slot starting at
   * `current` while it ends by the end time without passing midnight.
   */
  function SlotWindows(current: nat, endTime: Time, duration: int, pause: int): (r: seq<Window>)
    requires duration > 0 && pause >= 0
    decreases if current <= endTime then endTime - current + 1 else 0
  {
    if current + duration <= endTime then
      [Window(current, current + duration)] + SlotWindows(current + duration + pause, endTime, duration, pause)
    else []
  }

  /**
   * A window that runs past midnight, 23:50 to 00:30 with 30-minute slots: the loop
   * as written emits the one wrapped slot 23:50 to 00:20 and stops, whatever the
   * break, while the same-day loop gives such a window no slot at all.
   */
  lemma OvernightWindow(pause: int, fuel: nat)
    requires 0 <= pause <= 60 && fuel > 0
    ensures LoopWindows(1430, 30, 30, pause, fuel) == [Window(1430, 20)]
    ensures SlotWindows(1430, 30, 30, pause) == []
  {
    assert PlusMinutes(1430, 30) == 20;
    assert PlusMinutes(1430, 30 + pause) == 20 + pause;
    if fuel > 1 {
      assert PlusMinutes(20 + pause, 30) == 50 + pause;
    }
  }

  /**
   * Slot k starts k rounds of slot plus break after the first, lasts exactly the slot
   * length, and ends by the end time.
   */
  lemma {:induction false} SlotWindowsShape(current: nat, endTime: Time, duration: int, pause: int)
    requires duration > 0 && pause >= 0
    ensures forall k :: 0 <= k < |SlotWindows(current, endTime, duration, pause)| ==>
              && SlotWindows(current, endTime, duration, pause)[k].start == current + k * (duration + pause)
              && SlotWindows(current, endTime, duration, pause)[k].end == current + k * (duration + pause) + duration
    ensures forall k :: 0 <= k < |SlotWindows(current, endTime, duration, pause)| ==>
              SlotWindows(current, endTime, duration, pause)[k].end <= endTime
    decreases if current <= endTime then endTime - current + 1 else 0
  {
    var w := SlotWindows(current, endTime, duration, pause);
    if current + duration <= endTime {
      var next := current + duration + pause;
      SlotWindowsShape(next, endTime, duration, pause);
      var rest := SlotWindows(next, endTime, duration, pause);
      assert w == [Window(current, current + duration)] + rest;
      forall k | 0 <= k < |w|
        ensures w[k].start == current + k * (duration + pause)
        ensures w[k].end == current + k * (duration + pause) + duration
        ensures w[k].end <= endTime
      {
        if k > 0 {
          assert w[k] == rest[k - 1];
          assert rest[k - 1].start == next + (k - 1) * (duration + pause);
          assert (k - 1) * (duration + pause) + (duration + pause) == k * (duration + pause);
        }
      }
    }
  }

  /** Every slot lies between the first start time and the end time and lasts exactly the slot length. */
  lemma {:induction false} SlotWindowsWithin(current: nat, endTime: Time, duration: int, pause: int)
    requires duration > 0 && pause >= 0
    ensures forall w | w in SlotWindows(current, endTime, duration, pause) ::
              current <= w.start && w.end == w.start + duration && w.end <= endTime
    decreases if current <= endTime then endTime - current + 1 else 0
  {
    if current + duration <= endTime {
      SlotWindowsWithin(current + duration + pause, endTime, duration, pause);
    }
  }

  /** The slot after the last one would end after the end time. */
  lemma {:induction false} SlotWindowsMaximal(current: nat, endTime: Time, duration: int, pause: int)
    requires duration > 0 && pause >= 0
    ensures var n := |SlotWindows(current, endTime, duration, pause)|;
            current + n * (duration + pause) + duration > endTime
    decreases if current <= endTime then endTime - current + 1 else 0
  {
    if current + duration <= endTime {
      var next := current + duration + pause;
      SlotWindowsMaximal(next, endTime, duration, pause);
      var n := |SlotWindows(current, endTime, duration, pause)|;
      assert n == |SlotWindows(next, endTime, duration, pause)| + 1;
      assert next + (n - 1) * (duration + pause) == current + n * (duration + pause);
    }
  }

  /** Consecutive slots are separated by exactly the break. */
  lemma SlotWindowsSpacing(current: nat, endTime: Time, duration: int, pause: int)
    requires duration > 0 && pause >= 0
    ensures var w := SlotWindows(current, endTime, duration, pause);
            forall k :: 0 <= k < |w| - 1 ==> w[k + 1].start == w[k].end + pause
  {
    SlotWindowsShape(current, endTime, duration, pause);
    var w := SlotWindows(current, endTime, duration, pause);
    forall k | 0 <= k < |w| - 1
      ensures w[k + 1].start == w[k].end + pause
    {
      assert w[k + 1].start == current + (k + 1) * (duration + pause);
      assert w[k].end == current + k * (duration + pause) + duration;
      assert (k + 1) * (duration + pause) == k * (duration + pause) + (duration + pause);
    }
  }

  /**
   * Where the clock does not pass midnight (the first slot ends before 24:00 and the
   * end time leaves room for a slot and a break), the loop as written, given enough
   * rounds, cuts exactly the corrected windows.
   */
  lemma {:induction false} LoopAgreesBeforeMidnight(current: Time, endTime: Time, duration: int, pause: int,
                                                    fuel: nat)
    requires duration > 0 && pause >= 0 && endTime + duration + pause < MinutesPerDay
    requires current + duration < MinutesPerDay
    requires fuel > |SlotWindows(current, endTime, duration, pause)|
    ensures LoopWindows(current, endTime, duration, pause, fuel) == SlotWindows(current, endTime, duration, pause)
    decreases fuel
  {
    if current + duration <= endTime {
      var next := current + duration + pause;
      assert PlusMinutes(current, duration + pause) == next;
      LoopAgreesBeforeMidnight(next, endTime, duration, pause, fuel - 1);
    }
  }
}
