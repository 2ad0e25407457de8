/**
 * The LED buffer and the word overlay.  `SetWord` (the firmware's
 * `setWCWord`) paints one word's cells white in place; `UpdateWordClock`
 * (`updateWC`) paints every displayed word on top of whatever background the
 * animation left in the buffer.  `Paint` and `Overlay` are the specification
 * of those writes on the buffer's contents.
 */
module Display {
  import opened Grid
  import opened Words
  import opened Rtc
  import opened Phrase

  /** The firmware's strip buffer is oversized; only its first 120 entries are the grid. */
  const NumLeds: nat := 1000

  newtype Byte = x: int | 0 <= x < 256

  /** One LED colour (`CRGB`). */
  datatype Color = Rgb(red: Byte, green: Byte, blue: Byte)

  const White: Color := Rgb(255, 255, 255)

  /** The strip positions of a list of cells. */
  function CellPositions(cs: seq<Cell>): set<nat>
  {
    set k | 0 <= k < |cs| && InGrid(cs[k]) :: LedMap(cs[k])
  }

  /** The strip positions a word lights. */
  function Positions(w: Word): set<nat>
  {
    CellPositions(Cells(w))
  }

  /** The strip positions lit by a list of words. */
  function LitPositions(ws: seq<Word>): set<nat>
  {
    if ws == [] then {} else Positions(ws[0]) + LitPositions(ws[1..])
  }

  /** The buffer after one word is painted white: its positions are white, the rest unchanged. */
  function Paint(leds: seq<Color>, w: Word): (r: seq<Color>)
    ensures |r| == |leds|
  {
    seq(|leds|, i requires 0 <= i < |leds| => if i in Positions(w) then White else leds[i])
  }

  /** The buffer after a list of words is painted over it, first word first. */
  function Overlay(background: seq<Color>, ws: seq<Word>): (r: seq<Color>)
    ensures |r| == |background|
    decreases |ws|
  {
    if ws == [] then background else Overlay(Paint(background, ws[0]), ws[1..])
  }

  /** Painting one list of words and then another is painting their concatenation. */
  lemma {:induction false} OverlayAppend(background: seq<Color>, ws1: seq<Word>, ws2: seq<Word>)
    ensures Overlay(background, ws1 + ws2) == Overlay(Overlay(background, ws1), ws2)
    decreases |ws1|
  {
    if ws1 == [] {
      assert ws1 + ws2 == ws2;
    } else {
      assert (ws1 + ws2)[1..] == ws1[1..] + ws2;
      OverlayAppend(Paint(background, ws1[0]), ws1[1..], ws2);
    }
  }

  /** Every position is white where some word lights it and keeps the background elsewhere. */
  lemma {:induction false} OverlayAt(background: seq<Color>, ws: seq<Word>, i: nat)
    requires i < |background|
    ensures Overlay(background, ws)[i] == if i in LitPositions(ws) then White else background[i]
    decreases |ws|
  {
    if ws != [] {
      OverlayAt(Paint(background, ws[0]), ws[1..], i);
    }
  }

  /** A position is lit by a list of words exactly when one of its words lights it. */
  lemma {:induction false} LitPositionsMembers(ws: seq<Word>, i: nat)
    ensures i in LitPositions(ws) <==> exists w :: w in ws && i in Positions(w)
    decreases |ws|
  {
    if ws != [] {
      LitPositionsMembers(ws[1..], i);
      assert forall w :: w in ws <==> w == ws[0] || w in ws[1..];
    }
  }

  /** The order in which words are painted, and repeats, do not matter: only which words. */
  lemma OverlayOrderIrrelevant(background: seq<Color>, ws1: seq<Word>, ws2: seq<Word>)
    requires forall w :: w in ws1 <==> w in ws2
    ensures Overlay(background, ws1) == Overlay(background, ws2)
  {
    forall i | 0 <= i < |background|
      ensures Overlay(background, ws1)[i] == Overlay(background, ws2)[i]
    {
      OverlayAt(background, ws1, i);
      OverlayAt(background, ws2, i);
      LitPositionsMembers(ws1, i);
      LitPositionsMembers(ws2, i);
    }
  }

  /** Painting a list of one, two or three words paints them one after the other. */
  lemma ShortOverlays(background: seq<Color>)
    ensures forall w1 :: Overlay(background, [w1]) == Paint(background, w1)
    ensures forall w1, w2 :: Overlay(background, [w1, w2]) == Paint(Paint(background, w1), w2)
    ensures forall w1, w2, w3 ::
      Overlay(background, [w1, w2, w3]) == Paint(Paint(Paint(background, w1), w2), w3)
  {
    forall w1: Word, w2: Word, w3: Word
      ensures Overlay(background, [w1, w2, w3]) == Paint(Paint(Paint(background, w1), w2), w3)
    {
      var p1 := Paint(background, w1);
      var p2 := Paint(p1, w2);
      var p3 := Paint(p2, w3);
      assert [w3][1..] == [] && [w2, w3][1..] == [w3] && [w1, w2, w3][1..] == [w2, w3];
      assert Overlay(p2, [w3]) == p3;
      assert Overlay(p1, [w2, w3]) == p3;
    }
    forall w1: Word, w2: Word
      ensures Overlay(background, [w1, w2]) == Paint(Paint(background, w1), w2)
      ensures Overlay(background, [w1]) == Paint(background, w1)
    {
      assert [w2][1..] == [] && [w1, w2][1..] == [w2] && [w1][1..] == [];
      assert Overlay(Paint(background, w1), [w2]) == Paint(Paint(background, w1), w2);
    }
  }

  /** Adding one more cell to a list adds its strip position. */
  lemma CellPositionsSnoc(cs: seq<Cell>, k: nat)
    requires k < |cs| && InGrid(cs[k])
    ensures CellPositions(cs[..k + 1]) == CellPositions(cs[..k]) + {LedMap(cs[k])}
  {
    var longer, shorter := cs[..k + 1], cs[..k];
    assert forall j :: 0 <= j < k ==> longer[j] == shorter[j];
    assert longer[k] == cs[k];
  }

  /** `setWCWord`: write white to the strip position of each of the word's cells. */
  method SetWord(leds: array<Color>, w: Word)
    requires leds.Length == NumLeds
    modifies leds
    ensures leds[..] == Paint(old(leds[..]), w)
  {
    var cells := Cells(w);
    CellsOnGrid(w);
    var k := 0;
    while k < |cells|
      invariant 0 <= k <= |cells|
      invariant forall i :: 0 <= i < leds.Length ==>
        leds[i] == if i in CellPositions(cells[..k]) then White else old(leds[i])
    {
      LedMapRoundTrip(cells[k]);
      CellPositionsSnoc(cells, k);
      leds[LedMap(cells[k])] := White;
      k := k + 1;
    }
    assert cells[..k] == cells;
    forall i | 0 <= i < leds.Length
      ensures leds[..][i] == Paint(old(leds[..]), w)[i]
    {
      assert i in Positions(w) <==> i in CellPositions(cells[..k]);
      assert leds[..][i] == leds[i];
      assert Paint(old(leds[..]), w)[i] == if i in Positions(w) then White else old(leds[..])[i];
    }
  }

  /** The minute switch of `updateWC`: one case per five-minute bucket, no case past 59. */
  method SetMinutePhrase(leds: array<Color>, m: nat)
    requires leds.Length == NumLeds
    modifies leds
    ensures leds[..] == Overlay(old(leds[..]), MinutePhrase(m))
  {
    ShortOverlays(leds[..]);
    if m <= 4 {
      SetWord(leds, OClock);
    } else if m <= 9 {
      SetWord(leds, Five);
      SetWord(leds, Past);
    } else if m <= 14 {
      SetWord(leds, Ten);
      SetWord(leds, Past);
    } else if m <= 19 {
      SetWord(leds, A);
      SetWord(leds, Quarter);
      SetWord(leds, Past);
    } else if m <= 24 {
      SetWord(leds, Twenty);
      SetWord(leds, Past);
    } else if m <= 29 {
      SetWord(leds, Twenty);
      SetWord(leds, Five);
      SetWord(leds, Past);
    } else if m <= 34 {
      SetWord(leds, Half);
      SetWord(leds, Past);
    } else if m <= 39 {
      SetWord(leds, Twenty);
      SetWord(leds, Five);
      SetWord(leds, To);
    } else if m <= 44 {
      SetWord(leds, Twenty);
      SetWord(leds, To);
    } else if m <= 49 {
      SetWord(leds, A);
      SetWord(leds, Quarter);
      SetWord(leds, To);
    } else if m <= 54 {
      SetWord(leds, Ten);
      SetWord(leds, To);
    } else if m <= 59 {
      SetWord(leds, Five);
      SetWord(leds, To);
    }
  }

  /**
   * `updateWC`: light IT and IS, the minute phrase and the hour word over the
   * background already in the buffer.
   */
  method UpdateWordClock(leds: array<Color>, t: Reading)
    requires leds.Length == NumLeds
    modifies leds
    ensures leds[..] == Overlay(old(leds[..]), DisplayedWords(t))
  {
    ghost var background := leds[..];
    SetWord(leds, It);
    SetWord(leds, Is);
    ghost var afterItIs := leds[..];
    ShortOverlays(background);

    SetMinutePhrase(leds, t.minutes);
    ghost var m := t.minutes;
    ghost var afterPhrase := leds[..];

    // The hour switch.
    SetWord(leds, HourWord(HourIndex(t)));
    ShortOverlays(afterPhrase);
    OverlayAppend(background, [It, Is], MinutePhrase(m));
    OverlayAppend(background, [It, Is] + MinutePhrase(m), [HourWord(HourIndex(t))]);
  }

  /** Two different words light no common LED, except A, whose LED is HALF's. */
  lemma PositionsDisjoint(w1: Word, w2: Word, i: nat)
    requires i in Positions(w1) && i in Positions(w2)
    ensures w1 == w2 || {w1, w2} == {A, Half}
  {
    var k1 :| 0 <= k1 < |Cells(w1)| && InGrid(Cells(w1)[k1]) && LedMap(Cells(w1)[k1]) == i;
    var k2 :| 0 <= k2 < |Cells(w2)| && InGrid(Cells(w2)[k2]) && LedMap(Cells(w2)[k2]) == i;
    LedMapInjective(Cells(w1)[k1], Cells(w2)[k2]);
    CellsDisjoint(w1, w2, k1, k2);
  }

  /** A word that is not in the list, and is neither A nor HALF, keeps the background on its LEDs. */
  lemma UnlistedWordKeepsBackground(background: seq<Color>, ws: seq<Word>, h: Word, i: nat)
    requires i < |background| && i in Positions(h)
    requires h != A && h != Half && h !in ws
    ensures Overlay(background, ws)[i] == background[i]
  {
    OverlayAt(background, ws, i);
    LitPositionsMembers(ws, i);
    forall w | w in ws && i in Positions(w)
      ensures false
    {
      PositionsDisjoint(w, h, i);
    }
  }

  /** In the frame `updateWC` leaves, every LED of a displayed word is white. */
  lemma DisplayedWordsLit(background: seq<Color>, t: Reading, w: Word, i: nat)
    requires i < |background|
    requires w in DisplayedWords(t) && i in Positions(w)
    ensures Overlay(background, DisplayedWords(t))[i] == White
  {
    OverlayAt(background, DisplayedWords(t), i);
    LitPositionsMembers(DisplayedWords(t), i);
  }

  /** In the frame `updateWC` leaves, the LEDs of the eleven hour words not shown keep the background. */
  lemma OtherHourWordsDark(background: seq<Color>, t: Reading, h: Word, i: nat)
    requires i < |background|
    requires IsHourWord(h) && h != HourWord(HourIndex(t)) && i in Positions(h)
    ensures Overlay(background, DisplayedWords(t))[i] == background[i]
  {
    OneHourWord(t);
    UnlistedWordKeepsBackground(background, DisplayedWords(t), h, i);
  }

  /**
   * The brightness expression of the main loop: a sensor reading scaled into
   * 10..254 and stored in a `uint8_t`, which keeps it modulo 256.
   */
  const MinBrightness: nat := 10

  function Brightness(reading: nat): (b: nat)
    ensures b < 256
    ensures reading < 1024 ==> MinBrightness <= b <= 254
  {
    ((reading * (255 - MinBrightness)) / 1024 + MinBrightness) % 256
  }

  /** Over the sensor's 10-bit range a brighter reading never dims the clock. */
  lemma BrightnessMonotonic(r1: nat, r2: nat)
    requires r1 <= r2 < 1024
    ensures Brightness(r1) <= Brightness(r2)
  {
    assert r1 * (255 - MinBrightness) <= r2 * (255 - MinBrightness);
  }
}
