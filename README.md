# Word clock: time-to-words, grid addressing and daylight-saving rule

A Dafny model of the decision logic of an Arduino word clock (`src/main.cpp`).
The clock has a 10 x 12 grid of letters backed by an LED strip. Each refresh it
paints an animated background into the strip buffer. Then `updateWC` overwrites
the cells of the words that tell the time with white: IT IS, a minute phrase
picked by five-minute bucket, and one hour word. The hour is advanced by one
during US daylight-saving time (`isDST`).

Modules, one per component of the firmware:

- `Rtc` (Rtc.dfy): one reading of the RTC getters (`Reading`) and `dayOfWeek`
  (`DayOfWeek`, 0 = Sunday).
- `Grid` (Grid.dfy): the `ledMap` table, the serpentine wiring it encodes, and
  its inverse. The table is proved to be a bijection from the 120 cells onto
  strip positions 0..119. Position 0 is the bottom-left cell. The comment
  diagram above the table shows its last row reversed (0 at the right), which
  disagrees with the table's last row; `Serpentine` follows the table, which
  is what the code uses.
- `Words` (Words.dfy): the `word_t` enumeration, the cells each word lights (as
  `setWCWord` writes them) and the letter layout printed on the face. Every word's
  cells are proved to spell the word. No two words share a cell, except that A is
  the A of HALF: `WC_A` lights HALF's A (row 0, column 8), not the A printed
  before QUARTER (row 1, column 0), which no word lights.
- `Dst` (Dst.dfy): `isDST` as written (`IsDst`), branch by branch. It is compared
  with the statutory US rule computed from the changeover day (`StatuteDst`).
- `Phrase` (Phrase.dfy): the minute switch, the hour index and the hour switch of
  `updateWC`, as the list of words displayed. Reading the displayed words back
  gives the hour (with daylight time) and the minute rounded down to five.
- `Display` (Display.dfy): the LED buffer as an `array<Color>` of `NumLeds`
  (1000) entries. `SetWord` (`setWCWord`) and `UpdateWordClock` (`updateWC`)
  write into it in place. They are proved equal to `Paint`/`Overlay`, which paint
  words white over an arbitrary background and leave every other entry as it was.
  Also the brightness expression of the main loop.

RTC getters become fields of a `Reading` parameter: month, day, hours, minutes,
epoch. The firmware sets the RTC to Eastern Standard Time (UTC - 5 hours) all
year, so every field is on the standard-time clock; `updateWC` adds `isDST` to
the hour only when it picks the hour word. The background animation is not modelled. `UpdateWordClock` runs on
whatever the buffer holds, which covers the composition in `loop`.

Where the code and the US rule disagree, the model follows the code. The rule
(`StatuteDst`) is read on the RTC's standard-time clock: daylight time starts
on the second Sunday of March at 2:00 and ends on the first Sunday of November
at 2:00 daylight time, which is 1:00 on that clock. `isDST` differs from it in
three places, and reports daylight time in all three:

- On a Sunday that is 9..14 March, its "past Sunday" test
  (`dayOfWeek() <= day - 8`) already holds, so it reports daylight time at 0:00
  and 1:00 too.
- On the first Sunday of November, its "before 2:00" test is read on the
  standard clock, so it still reports daylight time from 1:00 to 1:59. At 1:30
  the clock shows HALF PAST TWO.
- On Sunday 7 November, its "before Sunday" test (`dayOfWeek() < 1`) holds all
  day, so it reports daylight time from 2:00 on as well.

`Dst.IsDstAgainstStatute` proves these are the only differences.
`Dst.ChangeoverExamples` shows them on dates in 2021 and 2022.

## Model

| member | source | states |
|---|---|---|
| Grid.LedMapIsSerpentine | src/main.cpp:61-71 | every table entry equals the serpentine strip position: rows counted from the bottom, even rows right to left |
| Grid.LedMap | src/main.cpp:61-71 | the `ledMap` lookup: every cell's strip position is below 120 |
| Grid.Serpentine | src/main.cpp:17-25 | the serpentine position of a cell, always below 120 (the diagram's last row is reversed against the table; this follows the table) |
| Grid.CellAt | src/main.cpp:61-71 | the cell a strip position 0..119 belongs to is on the grid |
| Grid.SerpentineRoundTrip | src/main.cpp:61-71 | decoding the serpentine (table) position of any cell gives that cell back |
| Grid.LedMapRoundTrip | src/main.cpp:61-71 | every cell maps into 0..119 and decoding its position gives the cell back |
| Grid.LedMapOnto | src/main.cpp:61-71 | every strip position 0..119 is the image of a cell |
| Grid.LedMapInjective | src/main.cpp:61-71 | no two cells share an LED |
| Words.LayoutRow | src/main.cpp:41-50 | each of the ten printed rows has twelve letters |
| Words.Cells | src/main.cpp:336-480 | `setWCWord` lights one cell per letter of the word, in one run of adjacent cells on a single row |
| Words.CellsOnGrid | src/main.cpp:336-480 | every cell written for a word lies on the 10 x 12 grid |
| Words.CellsSpellWord | src/main.cpp:41-50 | the letters under each word's cells spell that word (O'CLOCK included) |
| Words.WordsOver | src/main.cpp:336-480 | `setWCWord` lights at most one word over a cell, except the A of HALF |
| Words.CellsUnderWord | src/main.cpp:336-480 | each cell a word lights is listed for that word in `WordsOver` |
| Words.WordsOverOnlyCells | src/main.cpp:336-480 | a word listed over a cell in `WordsOver` lights that cell, so `WordsOver` and the cell lists are the same relation |
| Words.CellsDisjoint | src/main.cpp:336-480 | two different words share no cell unless they are A and HALF |
| Words.AInsideHalf | src/main.cpp:349-385 | A lights exactly HALF's second cell, row 0 column 8 |
| Rtc.DayOfWeek | src/main.cpp:794-800 | the weekday is in 0..6, and the first epoch day is a Thursday (4) |
| Rtc.DayOfWeekNextDay | src/main.cpp:794-800 | 86400 seconds later the weekday advances by one modulo 7 |
| Rtc.DayOfWeekSameDay | src/main.cpp:794-800 | the weekday is constant within one 86400-second day |
| Dst.IsDst | src/main.cpp:521-792 | result 0 or 1; 0 before March and after November, 1 in April..October; the March and November ladders reduce to the per-day rules (day 8: Sunday and 2:00 or later; 9..14: weekday at most day - 8; November 1..6: weekday at least day, or Sunday before 2:00; 7: Sunday) |
| Dst.FirstSunday | src/main.cpp:524 | the first Sunday of the month is a day 1..7 whole weeks away from the reading's last Sunday |
| Dst.FirstSundayIsFirst | src/main.cpp:524 | no earlier day of the month is a Sunday |
| Dst.MarchAgainstStatute | src/main.cpp:540-663 | in March the ladder says daylight time exactly when the statute does or it is a Sunday on 9..14 before 2:00 |
| Dst.NovemberAgainstStatute | src/main.cpp:667-790 | in November the ladder says daylight time exactly when the statute does, or it is the first Sunday at 1:00-1:59, or Sunday 7 November from 2:00 |
| Dst.IsDstAgainstStatute | src/main.cpp:521-792 | `isDST` is 1 exactly when the statute says daylight time or one of the three override cases holds, and the statute says standard time in those cases |
| Dst.ChangeoverExamples | src/main.cpp:540-790 | 14 March 2021 at 1:00, 6 November 2022 at 1:30 and 7 November 2021 at 1:00 and 2:00 (all Sundays) give 1 where the statute gives standard time |
| Phrase.MinutePhrase | src/main.cpp:239-293 | the minute switch: O'CLOCK alone, or two or three words ending in PAST or TO, or nothing past minute 59 |
| Phrase.HourIndex | src/main.cpp:295 | the hour switch index is below 12 |
| Phrase.HourWord | src/main.cpp:295-333 | the hour switch always picks an hour word |
| Phrase.HourWordValue | src/main.cpp:295-333 | index i shows the hour word worth i (TWELVE for 0), and no other hour word is worth i modulo 12 |
| Phrase.MinutePhraseBuckets | src/main.cpp:239-293 | the phrase depends only on minute / 5; O'CLOCK iff 0..4, PAST iff 5..34, TO iff 35..59; nothing past 59; never IT, IS or an hour word |
| Phrase.MinutePhraseReadsRoundedMinute | src/main.cpp:239-293 | read back, the phrase gives the minute rounded down to a multiple of five |
| Phrase.DisplayedWords | src/main.cpp:231-334 | `updateWC` lights three to six words: IT and IS first, an hour word last |
| Phrase.OneHourWord | src/main.cpp:231-334 | IT, IS and the chosen hour word are displayed, and every hour word displayed is the one the hour switch picked |
| Phrase.FramedPhraseReadsSame | src/main.cpp:231-293 | IT, IS and an hour word around a phrase do not change the minute it reads |
| Phrase.DisplayReadsMinute | src/main.cpp:231-293 | reading the whole display gives the minute rounded down to five |
| Phrase.DisplayReadsHour | src/main.cpp:295-333 | reading the whole display gives (hours + isDST) mod 12; from :35 on the shown hour is the next one, named with TO |
| Phrase.DisplayExamples | src/main.cpp:231-334 | 3:02 shows IT IS O'CLOCK THREE; 23:40 shows IT IS TWENTY TO TWELVE |
| Display.SetWord | src/main.cpp:336-481 | the buffer afterwards is the old buffer with exactly the word's LEDs set to (255, 255, 255) |
| Display.SetMinutePhrase | src/main.cpp:239-293 | the minute switch paints exactly the minute phrase over the buffer |
| Display.UpdateWordClock | src/main.cpp:231-334 | the buffer afterwards is the old buffer with IT, IS, the minute phrase and the hour word painted white |
| Display.Paint | src/main.cpp:336-481 | painting one word keeps the buffer's length (what each LED becomes is `Display.OverlayAt`) |
| Display.Overlay | src/main.cpp:231-334 | painting a list of words in order keeps the buffer's length (what each LED becomes is `Display.OverlayAt`) |
| Display.OverlayAt | src/main.cpp:336-480 | after painting a list of words, an LED is white iff a listed word lights it and otherwise keeps its background |
| Display.LitPositionsMembers | src/main.cpp:336-480 | an LED is lit by a list of words iff one of the words lights it |
| Display.OverlayAppend | src/main.cpp:231-334 | painting two lists one after the other is painting their concatenation |
| Display.OverlayOrderIrrelevant | src/main.cpp:231-334 | the order and repetition of `setWCWord` calls do not change the frame, only which words are painted |
| Display.PositionsDisjoint | src/main.cpp:336-480 | two different words light no common LED, except A and HALF |
| Display.UnlistedWordKeepsBackground | src/main.cpp:336-480 | a word that is not painted (and is not A or HALF) keeps the background on all its LEDs |
| Display.DisplayedWordsLit | src/main.cpp:231-334 | every LED of every displayed word is white in the frame |
| Display.OtherHourWordsDark | src/main.cpp:295-333 | the LEDs of the eleven hour words not chosen keep the background |
| Display.Brightness | src/main.cpp:189-190 | the stored brightness fits a byte, and a 10-bit reading gives 10..254 |
| Display.BrightnessMonotonic | src/main.cpp:190 | over 0..1023 a higher reading never gives a lower brightness |

## Left out

- Background animation (src/main.cpp:195-215): floating-point rotation with `cos`/`sin`, and FastLED's `inoise16`, `setHue` and `fadeToBlackBy`. These are floating point and library calls. The background is any buffer contents, and `ledNdx` is not modelled.
- WiFi and NTP synchronisation (`setRTCFromWiFi`, `connectToWiFi`, `connectedToWifi`): network I/O. Note: the retry loop stops the program with `while (1)` when `numberOfTries == maxTries`. That also happens when the sixth and last attempt succeeds.
- Serial output (`printTime`, `printDate`, `print2digits`): output only.
- `setup()`, `FastLED.show`, `FastLED.delay`, `FastLED.setBrightness`, `analogRead` and RTC hardware access: hardware glue. RTC values enter as a `Reading` parameter, and the sensor value as a number.
- The `millis()` timing gates of `loop`: scheduling over a hardware timer.
- `wordMask`: declared but never used.
- The A printed before QUARTER (row 1, column 0): no word lights it, because `WC_A` lights the A of HALF (src/main.cpp:349-351). The model keeps the code's cells.
- Each call to an RTC getter reads the clock again, so a second boundary could fall between two reads. The model reads the RTC once per `Reading`.
- Integer widths: readings are `nat`. `dayOfWeek` cannot overflow for a `uint32_t` epoch. `Rtc.DayOfWeekNextDay` is stated for all epochs, but in the firmware it holds only while epoch + 86400 still fits in 32 bits. The hour index cannot overflow for RTC hours 0..23.
- Display.SetWord: the firmware writes each cell with its own `setRGB` call. The model loops over the word's cell list, doing the same writes in the same order.
- Display.Brightness: the product `reading * 245` is assumed not to overflow `int`, which holds for any ADC reading of this board (at most 12 bits); a 32-bit `int` would overflow only above 8,765,239.
