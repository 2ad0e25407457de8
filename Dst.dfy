/**
 * The daylight-saving decision of the word clock.  `IsDst` follows the
 * firmware's `isDST` branch by branch: a ladder of day-of-month tests for
 * March and November.  `StatuteDst` is the rule the firmware's comment
 * names (United States: from the second Sunday in March, 2:00, to the first
 * Sunday in November, 2:00), written as a computation of the changeover day.
 * The RTC keeps Eastern Standard Time all year, so the statute's thresholds
 * are read on that clock: 2:00 in March, and 1:00 in November (2:00 daylight
 * time).  `IsDstAgainstStatute` proves that the two agree everywhere except
 * on three families of readings: two where the ladder's "past/before Sunday"
 * test wins over its 2:00 test, and one where its 2:00 test is read on the
 * standard clock although the changeover happens at 2:00 daylight time.
 */
module Dst {
  import opened Rtc

  /** `isDST`, as written: 1 if the displayed hour is to be advanced by one. */
  function IsDst(t: Reading): (d: int)
    ensures 0 <= d <= 1
    ensures t.month < 3 || t.month > 11 ==> d == 0
    ensures 3 < t.month < 11 ==> d == 1
    // What the March ladder amounts to, day by day.
    ensures t.month == 3 && t.day > 14 ==> d == 1
    ensures t.month == 3 && t.day <= 7 ==> d == 0
    ensures t.month == 3 && t.day == 8 ==> (d == 1 <==> DayOfWeek(t.epoch) == 0 && t.hours >= 2)
    ensures t.month == 3 && 9 <= t.day <= 14 ==> (d == 1 <==> DayOfWeek(t.epoch) <= t.day - 8)
    // What the November ladder amounts to, day by day.
    ensures t.month == 11 && 1 <= t.day <= 6 ==>
      (d == 1 <==> DayOfWeek(t.epoch) >= t.day || (DayOfWeek(t.epoch) == 0 && t.hours < 2))
    ensures t.month == 11 && t.day == 7 ==> (d == 1 <==> DayOfWeek(t.epoch) == 0)
    ensures t.month == 11 && (t.day == 0 || t.day > 7) ==> d == 0
  {
    var wd := DayOfWeek(t.epoch);
    if t.month < 3 || t.month > 11 then 0
    else if t.month > 3 && t.month < 11 then 1
    else if t.month == 3 then
      // Each day 8..14: "is Sunday and past 2:00", else "past Sunday".
      if t.day > 14 then 1
      else if t.day == 14 then (if wd == 0 && t.hours >= 2 then 1 else if wd <= 6 then 1 else 0)
      else if t.day == 13 then (if wd == 0 && t.hours >= 2 then 1 else if wd <= 5 then 1 else 0)
      else if t.day == 12 then (if wd == 0 && t.hours >= 2 then 1 else if wd <= 4 then 1 else 0)
      else if t.day == 11 then (if wd == 0 && t.hours >= 2 then 1 else if wd <= 3 then 1 else 0)
      else if t.day == 10 then (if wd == 0 && t.hours >= 2 then 1 else if wd <= 2 then 1 else 0)
      else if t.day == 9 then (if wd == 0 && t.hours >= 2 then 1 else if wd <= 1 then 1 else 0)
      else if t.day == 8 then (if wd == 0 && t.hours >= 2 then 1 else 0)
      else 0
    else
      // November; each day 1..7: "is Sunday and before 2:00", else "before Sunday".
      if t.day == 7 then (if wd == 0 && t.hours < 2 then 1 else if wd < 1 then 1 else 0)
      else if t.day == 6 then (if wd == 0 && t.hours < 2 then 1 else if wd >= 6 then 1 else 0)
      else if t.day == 5 then (if wd == 0 && t.hours < 2 then 1 else if wd >= 5 then 1 else 0)
      else if t.day == 4 then (if wd == 0 && t.hours < 2 then 1 else if wd >= 4 then 1 else 0)
      else if t.day == 3 then (if wd == 0 && t.hours < 2 then 1 else if wd >= 3 then 1 else 0)
      else if t.day == 2 then (if wd == 0 && t.hours < 2 then 1 else if wd >= 2 then 1 else 0)
      else if t.day == 1 then (if wd == 0 && t.hours < 2 then 1 else if wd >= 1 then 1 else 0)
      else 0
  }

  /**
   * The day of the month of the month's first Sunday, knowing that day `day`
   * falls on weekday `wd` (0 = Sunday).
   */
  function FirstSunday(day: nat, wd: nat): (f: nat)
    requires 1 <= day && wd < 7
    ensures 1 <= f <= 7
    // `f` is a Sunday: it lies a whole number of weeks from the last Sunday on or before `day`.
    ensures (day - wd - f) % 7 == 0
  {
    (day - wd - 1) % 7 + 1
  }

  /** No day of the month before `FirstSunday` is a Sunday. */
  lemma FirstSundayIsFirst(day: nat, wd: nat, d: nat)
    requires 1 <= day && wd < 7
    requires 1 <= d < FirstSunday(day, wd)
    ensures (day - wd - d) % 7 != 0
  {
  }

  /**
   * The statutory rule at a reading taken on weekday `wd`, with `hours` the
   * RTC's standard-time hour: from the second Sunday in March at 2:00 standard
   * time until the first Sunday in November at 2:00 daylight time, which is
   * 1:00 standard time.
   */
  predicate StatuteDst(month: nat, day: nat, hours: nat, wd: nat)
    requires wd < 7
  {
    if month < 3 || month > 11 then false
    else if 3 < month < 11 then true
    else if day < 1 then false
    else if month == 3 then
      var second := FirstSunday(day, wd) + 7;
      day > second || (day == second && hours >= 2)
    else
      var first := FirstSunday(day, wd);
      day < first || (day == first && hours < 1)
  }

  /**
   * Where the ladder and the statute part: a Sunday on 9..14 March before
   * 2:00 (the "past Sunday" test already holds); the first Sunday of November
   * from 1:00 to 1:59 standard time (the ladder's "before 2:00" is read on
   * the standard clock); and Sunday 7 November from 2:00 on (the "before
   * Sunday" test still holds).
   */
  predicate ChangeoverOverride(month: nat, day: nat, hours: nat, wd: nat)
  {
    || (month == 3 && 9 <= day <= 14 && wd == 0 && hours < 2)
    || (month == 11 && 1 <= day <= 7 && wd == 0 && hours == 1)
    || (month == 11 && day == 7 && wd == 0 && hours >= 2)
  }

  /** March: the ladder against the statute. */
  lemma {:induction false} MarchAgainstStatute(t: Reading)
    requires t.month == 3
    ensures var wd := DayOfWeek(t.epoch);
      (IsDst(t) == 1) == (StatuteDst(t.month, t.day, t.hours, wd) || ChangeoverOverride(t.month, t.day, t.hours, wd))
  {
    var wd := DayOfWeek(t.epoch);
    if 1 <= t.day <= 14 {
      var f := FirstSunday(t.day, wd);
      if wd <= t.day - 1 {
        // The last Sunday on or before `day` is `day - wd`, and it is either the first or the second.
        assert f == t.day - wd || f + 7 == t.day - wd;
      } else {
        assert f == t.day - wd + 7;
      }
    }
  }

  /** November: the ladder against the statute. */
  lemma {:induction false} NovemberAgainstStatute(t: Reading)
    requires t.month == 11
    ensures var wd := DayOfWeek(t.epoch);
      (IsDst(t) == 1) == (StatuteDst(t.month, t.day, t.hours, wd) || ChangeoverOverride(t.month, t.day, t.hours, wd))
  {
    var wd := DayOfWeek(t.epoch);
    if 1 <= t.day <= 7 {
      var f := FirstSunday(t.day, wd);
      if wd <= t.day - 1 {
        assert f == t.day - wd;
      } else {
        assert f == t.day - wd + 7;
      }
    } else if t.day > 7 {
      var f := FirstSunday(t.day, wd);
      assert f <= 7;
    }
  }

  /**
   * The firmware's rule is the statutory one except exactly at the three
   * override families, where it reports daylight time and the statute does not.
   */
  lemma IsDstAgainstStatute(t: Reading)
    ensures var wd := DayOfWeek(t.epoch);
      && ((IsDst(t) == 1) == (StatuteDst(t.month, t.day, t.hours, wd) || ChangeoverOverride(t.month, t.day, t.hours, wd)))
      && (ChangeoverOverride(t.month, t.day, t.hours, wd) ==> !StatuteDst(t.month, t.day, t.hours, wd))
  {
    var wd := DayOfWeek(t.epoch);
    if t.month == 3 {
      MarchAgainstStatute(t);
    } else if t.month == 11 {
      NovemberAgainstStatute(t);
    }
    if ChangeoverOverride(t.month, t.day, t.hours, wd) {
      var f := FirstSunday(t.day, wd);
      if t.month == 3 {
        assert f + 7 == t.day;
      } else {
        assert f == t.day;
      }
    }
  }

  /**
   * The override families on real dates (epochs on the RTC's standard-time
   * clock): Sunday 14 March 2021 at 1:00, Sunday 6 November 2022 at 1:30, and
   * Sunday 7 November 2021 at 1:00 and 2:00.  The ladder says daylight time at
   * all of them; the statute says standard time.
   */
  lemma ChangeoverExamples()
    ensures DayOfWeek(1615683600) == 0 && DayOfWeek(1636250400) == 0 && DayOfWeek(1667698200) == 0
    ensures IsDst(Reading(3, 14, 1, 0, 1615683600)) == 1 && !StatuteDst(3, 14, 1, 0)
    ensures IsDst(Reading(3, 14, 2, 0, 1615687200)) == 1 && StatuteDst(3, 14, 2, 0)
    ensures IsDst(Reading(11, 6, 0, 30, 1667694600)) == 1 && StatuteDst(11, 6, 0, 0)
    ensures IsDst(Reading(11, 6, 1, 30, 1667698200)) == 1 && !StatuteDst(11, 6, 1, 0)
    ensures IsDst(Reading(11, 6, 2, 30, 1667701800)) == 0 && !StatuteDst(11, 6, 2, 0)
    ensures IsDst(Reading(11, 7, 1, 0, 1636246800)) == 1 && !StatuteDst(11, 7, 1, 0)
    ensures IsDst(Reading(11, 7, 2, 0, 1636250400)) == 1 && !StatuteDst(11, 7, 2, 0)
  {
  }
}
