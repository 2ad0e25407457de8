/**
 * What the word clock reads from its real-time clock.  The firmware calls the
 * RTC getters directly; here one reading of them is a value, and the weekday
 * helper is a function of the epoch it holds.
 */
module Rtc {

  const SecondsPerDay: nat := 86400
  /** 1 January 1970, epoch day 0, was a Thursday (Sunday is 0). */
  const EpochStartDayOffset: nat := 4

  /**
   * One reading of the RTC getters: month 1..12, day of month 1..31,
   * hours 0..23, minutes 0..59 and the Unix epoch in seconds.  The firmware
   * sets the RTC to Eastern Standard Time (UTC - 5 hours) all year, so every
   * field is on the standard-time clock; daylight time is added only when the
   * hour word is chosen.
   */
  datatype Reading = Reading(month: nat, day: nat, hours: nat, minutes: nat, epoch: nat)

  /** `dayOfWeek`: the weekday of the epoch, 0 = Sunday .. 6 = Saturday. */
  function DayOfWeek(epoch: nat): (wd: nat)
    ensures wd < 7
    ensures epoch < SecondsPerDay ==> wd == 4
  {
    (epoch / SecondsPerDay + EpochStartDayOffset) % 7
  }

  /** One day later the weekday has advanced by one, wrapping Saturday to Sunday. */
  lemma DayOfWeekNextDay(epoch: nat)
    ensures DayOfWeek(epoch + SecondsPerDay) == (DayOfWeek(epoch) + 1) % 7
  {
    assert (epoch + SecondsPerDay) / SecondsPerDay == epoch / SecondsPerDay + 1;
  }

  /** The weekday does not change within one day of 86400 seconds. */
  lemma DayOfWeekSameDay(epoch: nat, s: nat)
    requires epoch % SecondsPerDay + s < SecondsPerDay
    ensures DayOfWeek(epoch + s) == DayOfWeek(epoch)
  {
    assert (epoch + s) / SecondsPerDay == epoch / SecondsPerDay;
  }
}
