/** The monitoring window shared by the poller and the two HTTP entry points: the
    hour/minute comparison chain of every `isWithinSchedule`, and the fixed UTC-3
    local hour the entry points compute from the UTC clock. */
module Window {

  /** The comparison chain: not before `startHour`, not after `endHour`, and not after
      `endMinute` within `endHour`. */
  function WithinWindow(startHour: int, endHour: int, endMinute: int, hour: int, minute: int): bool
  {
    if hour < startHour then false
    else if hour > endHour then false
    else if hour == endHour && minute > endMinute then false
    else true
  }

  /** The chain admits exactly the clock readings from `startHour:00` to
      `endHour:endMinute`, both included, counted in minutes of the day. */
  lemma WithinWindowInterval(startHour: int, endHour: int, endMinute: int, hour: int, minute: int)
    requires 0 <= minute < 60 && 0 <= endMinute < 60
    ensures WithinWindow(startHour, endHour, endMinute, hour, minute)
            <==> startHour * 60 <= hour * 60 + minute <= endHour * 60 + endMinute
  {
    if hour < startHour {
      assert hour * 60 + minute < startHour * 60 by {
        assert (startHour - hour) * 60 >= 60;
      }
    } else if hour > endHour {
      assert hour * 60 + minute > endHour * 60 + endMinute by {
        assert (hour - endHour) * 60 >= 60;
      }
    }
  }

  /** With an end minute of 59 the minute never excludes a reading. */
  lemma WholeEndHour(startHour: int, endHour: int, hour: int, minute: int)
    requires 0 <= minute < 60
    ensures WithinWindow(startHour, endHour, 59, hour, minute) <==> startHour <= hour <= endHour
  {
  }

  /** `(utcHour + offset + 24) % 24` with the São Paulo offset of -3. */
  function LocalHour(utcHour: int): int
  {
    (utcHour - 3 + 24) % 24
  }

  /** For every UTC hour of the clock the local hour is an hour of the clock, three
      hours behind: `utcHour - 3` modulo 24. JavaScript's `%` agrees with Dafny's
      here because `utcHour - 3 + 24` is never negative. */
  lemma LocalHourRange(utcHour: int)
    requires 0 <= utcHour < 24
    ensures 0 <= LocalHour(utcHour) < 24
    ensures LocalHour(utcHour) == (utcHour - 3) % 24
    ensures utcHour >= 3 ==> LocalHour(utcHour) == utcHour - 3
    ensures utcHour < 3 ==> LocalHour(utcHour) == utcHour + 21
  {
    if utcHour >= 3 {
      assert utcHour - 3 + 24 == (utcHour - 3) + 1 * 24;
    }
  }
}
