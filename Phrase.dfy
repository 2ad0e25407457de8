/**
 * Which words the clock shows for a reading of the RTC: IT IS, a minute
 * phrase chosen by five-minute bucket, and one hour word.  `DisplayedWords`
 * lists them in the order `updateWC` lights them; `ReadMinute` and
 * `ReadHour` read a list of words back the way a person reads the face.
 */
module Phrase {
  import opened Rtc
  import opened Words
  import opened Dst

  /**
   * The minute phrase of `updateWC`'s minute switch; minutes past 59 match no
   * case.  A phrase is O'CLOCK alone, or up to two minute words before PAST or TO.
   */
  function MinutePhrase(minutes: nat): (ws: seq<Word>)
    ensures ws == [] || ws == [OClock] || (2 <= |ws| <= 3 && ws[|ws| - 1] in {Past, To})
  {
    if minutes <= 4 then [OClock]
    else if minutes <= 9 then [Five, Past]
    else if minutes <= 14 then [Ten, Past]
    else if minutes <= 19 then [A, Quarter, Past]
    else if minutes <= 24 then [Twenty, Past]
    else if minutes <= 29 then [Twenty, Five, Past]
    else if minutes <= 34 then [Half, Past]
    else if minutes <= 39 then [Twenty, Five, To]
    else if minutes <= 44 then [Twenty, To]
    else if minutes <= 49 then [A, Quarter, To]
    else if minutes <= 54 then [Ten, To]
    else if minutes <= 59 then [Five, To]
    else []
  }

  /** The index switched on for the hour word: the next hour from :35 on, plus daylight time. */
  function HourIndex(t: Reading): (i: nat)
    ensures i < 12
  {
    ((if t.minutes >= 35 then 1 else 0) + t.hours + IsDst(t)) % 12
  }

  /** The hour word for an index of the hour switch: 0 is TWELVE, 1..11 are ONE..ELEVEN. */
  function HourWord(i: nat): (w: Word)
    requires i < 12
    ensures IsHourWord(w)
  {
    match i
    case 0 => HourTwelve
    case 1 => HourOne
    case 2 => HourTwo
    case 3 => HourThree
    case 4 => HourFour
    case 5 => HourFive
    case 6 => HourSix
    case 7 => HourSeven
    case 8 => HourEight
    case 9 => HourNine
    case 10 => HourTen
    case 11 => HourEleven
  }

  /** The number an hour word stands for, 1..12. */
  function HourValue(w: Word): nat
    requires IsHourWord(w)
  {
    match w
    case HourOne => 1
    case HourTwo => 2
    case HourThree => 3
    case HourFour => 4
    case HourFive => 5
    case HourSix => 6
    case HourSeven => 7
    case HourEight => 8
    case HourNine => 9
    case HourTen => 10
    case HourEleven => 11
    case HourTwelve => 12
  }

  /** The hour switch and the hour words' values are inverse: index `i` shows the hour `i` (12 for 0). */
  lemma HourWordValue(i: nat)
    requires i < 12
    ensures HourValue(HourWord(i)) % 12 == i
    ensures forall w :: IsHourWord(w) && HourValue(w) % 12 == i ==> w == HourWord(i)
  {
  }

  /** Every word `updateWC` lights for a reading, in the order it lights them: IT IS first, the hour word last. */
  function DisplayedWords(t: Reading): (ws: seq<Word>)
    ensures 3 <= |ws| <= 6
    ensures ws[0] == It && ws[1] == Is && IsHourWord(ws[|ws| - 1])
  {
    [It, Is] + MinutePhrase(t.minutes) + [HourWord(HourIndex(t))]
  }

  /** The number of minutes a list of minute words spells (FIVE, TEN, A QUARTER, TWENTY, TWENTY FIVE, HALF). */
  function SpelledMinutes(ws: seq<Word>): nat
  {
    (if Five in ws then 5 else 0) + (if Ten in ws then 10 else 0) + (if Quarter in ws then 15 else 0)
    + (if Twenty in ws then 20 else 0) + (if Half in ws then 30 else 0)
  }

  /** The minute a person reads off a list of words: "X PAST" is X, "X TO" is 60 - X, O'CLOCK is 0. */
  function ReadMinute(ws: seq<Word>): int
  {
    if Past in ws then SpelledMinutes(ws)
    else if To in ws then 60 - SpelledMinutes(ws)
    else 0
  }

  /** The value of the first hour word in a list (0 if there is none). */
  function FirstHourValue(ws: seq<Word>): nat
  {
    if ws == [] then 0
    else if IsHourWord(ws[0]) then HourValue(ws[0])
    else FirstHourValue(ws[1..])
  }

  /** The hour (0..11) a person reads off a list of words: "... TO h" names the hour before h. */
  function ReadHour(ws: seq<Word>): nat
  {
    if To in ws then (FirstHourValue(ws) + 11) % 12 else FirstHourValue(ws) % 12
  }

  /**
   * The minute phrase depends only on the five-minute bucket, says PAST on
   * minutes 5..34, TO on 35..59, O'CLOCK on 0..4, is empty past 59, and holds
   * neither IT, IS nor an hour word.
   */
  lemma {:induction false} MinutePhraseBuckets(minutes: nat)
    ensures minutes < 60 ==> MinutePhrase(minutes) == MinutePhrase(minutes / 5 * 5)
    ensures OClock in MinutePhrase(minutes) <==> minutes <= 4
    ensures Past in MinutePhrase(minutes) <==> 5 <= minutes <= 34
    ensures To in MinutePhrase(minutes) <==> 35 <= minutes <= 59
    ensures minutes >= 60 <==> MinutePhrase(minutes) == []
    ensures forall w :: w in MinutePhrase(minutes) ==> w != It && w != Is && !IsHourWord(w)
  {
  }

  /** Read back, the minute phrase gives the minute rounded down to a multiple of five. */
  lemma {:induction false} MinutePhraseReadsRoundedMinute(minutes: nat)
    requires minutes < 60
    ensures ReadMinute(MinutePhrase(minutes)) == minutes / 5 * 5
  {
  }

  /** Each hour word in the list of a whole display is the one the hour switch picked. */
  lemma {:induction false} OneHourWord(t: Reading)
    ensures It in DisplayedWords(t) && Is in DisplayedWords(t)
    ensures HourWord(HourIndex(t)) in DisplayedWords(t)
    ensures forall w :: w in DisplayedWords(t) && IsHourWord(w) ==> w == HourWord(HourIndex(t))
  {
    MinutePhraseBuckets(t.minutes);
    var ws := DisplayedWords(t);
    assert ws[|ws| - 1] == HourWord(HourIndex(t));
    assert forall w :: w in ws ==> w in MinutePhrase(t.minutes) || w == It || w == Is || w == ws[|ws| - 1];
  }

  /** Only the hour word of a display carries an hour, so reading the display finds it. */
  lemma {:induction false} FirstHourValueFindsHourWord(ws: seq<Word>, prefix: seq<Word>, h: Word)
    requires IsHourWord(h)
    requires ws == prefix + [h]
    requires forall w :: w in prefix ==> !IsHourWord(w)
    ensures FirstHourValue(ws) == HourValue(h)
    decreases |prefix|
  {
    if prefix != [] {
      assert ws[1..] == prefix[1..] + [h];
      FirstHourValueFindsHourWord(ws[1..], prefix[1..], h);
    }
  }

  /** IT, IS and an hour word around a phrase do not change the minute it reads. */
  lemma FramedPhraseReadsSame(phrase: seq<Word>, h: Word)
    requires IsHourWord(h)
    ensures ReadMinute([It, Is] + phrase + [h]) == ReadMinute(phrase)
  {
    var ws := [It, Is] + phrase + [h];
    // IT, IS and the hour word are neither minute words nor PAST or TO.
    assert forall w :: w in ws && !w.It? && !w.Is? && !IsHourWord(w) ==> w in phrase;
    assert forall w :: w in phrase ==> w in ws;
  }

  /** Read back, the whole display gives the minute rounded down to five. */
  lemma DisplayReadsMinute(t: Reading)
    requires t.minutes < 60
    ensures ReadMinute(DisplayedWords(t)) == t.minutes / 5 * 5
  {
    MinutePhraseReadsRoundedMinute(t.minutes);
    FramedPhraseReadsSame(MinutePhrase(t.minutes), HourWord(HourIndex(t)));
  }

  /**
   * Read back, the whole display gives the RTC hour shifted by daylight
   * time: "... TO h" at :35 and later names the hour before h.
   */
  lemma DisplayReadsHour(t: Reading)
    requires t.minutes < 60
    ensures ReadHour(DisplayedWords(t)) == (t.hours + IsDst(t)) % 12
  {
    var ws := DisplayedWords(t);
    var phrase := MinutePhrase(t.minutes);
    var h := HourWord(HourIndex(t));
    MinutePhraseBuckets(t.minutes);
    FirstHourValueFindsHourWord(ws, [It, Is] + phrase, h);
    HourWordValue(HourIndex(t));
    assert To in ws <==> To in phrase;
  }

  /**
   * Two readings on 15 January 1970 (standard time): 3:02 shows IT IS
   * O'CLOCK THREE; 23:40 shows IT IS TWENTY TO TWELVE.
   */
  lemma DisplayExamples()
    ensures DisplayedWords(Reading(1, 15, 3, 2, 1220520)) == [It, Is, OClock, HourThree]
    ensures DisplayedWords(Reading(1, 15, 23, 40, 1294800)) == [It, Is, Twenty, To, HourTwelve]
  {
  }
}
