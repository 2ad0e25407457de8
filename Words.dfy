/**
 * The words of the clock face.  Each word lights the fixed list of grid
 * cells that the firmware's `setWCWord` writes for it; `LayoutRow` is the
 * letter layout printed on the face, against which those lists are checked.
 */
module Words {
  import opened Grid

  /** The firmware's `word_t` enumeration, in declaration order. */
  datatype Word =
    | It | Is | A | Half | Quarter | Ten | Twenty | Five | Past | To
    | HourOne | HourTwo | HourThree | HourFour | HourFive | HourSix
    | HourNine | HourSeven | HourEight | HourTen | HourEleven | HourTwelve
    | OClock

  predicate IsHourWord(w: Word) {
    w.HourOne? || w.HourTwo? || w.HourThree? || w.HourFour? || w.HourFive? || w.HourSix? ||
    w.HourSeven? || w.HourEight? || w.HourNine? || w.HourTen? || w.HourEleven? || w.HourTwelve?
  }

  /** The letters printed on the face, one row of 12 at a time, top row first. */
  function LayoutRow(r: nat): (line: string)
    requires r < Rows
    ensures |line| == Cols
  {
    match r
    case 0 => "ITTISIMHALFE"
    case 1 => "AQUARTERNTEN"
    case 2 => "TWENTYDFIVED"
    case 3 => "PASTATOTEONE"
    case 4 => "TWELVETIMTWO"
    case 5 => "ATHREEENFOUR"
    case 6 => "FIVESIXDNINE"
    case 7 => "SEVENDAEIGHT"
    case 8 => "TENTELEVENET"
    case 9 => "IMO'CLOCKEAN"
  }

  /** The letter printed on a cell. */
  function LetterAt(c: Cell): char
    requires InGrid(c)
  {
    LayoutRow(c.row)[c.col]
  }

  /**
   * The cells each word lights, in the order the firmware writes them: one
   * cell per letter, in one run of adjacent cells on a single row.
   */
  function Cells(w: Word): (cs: seq<Cell>)
    ensures |cs| == |Spelling(w)|
    ensures forall k :: 0 <= k < |cs| ==> cs[k] == Cell(cs[0].row, cs[0].col + k)
  {
    match w
    case It => [Cell(0, 0), Cell(0, 1)]
    case Is => [Cell(0, 3), Cell(0, 4)]
    case A => [Cell(0, 8)]
    case Five => [Cell(2, 7), Cell(2, 8), Cell(2, 9), Cell(2, 10)]
    case Ten => [Cell(1, 9), Cell(1, 10), Cell(1, 11)]
    case Quarter => [Cell(1, 1), Cell(1, 2), Cell(1, 3), Cell(1, 4), Cell(1, 5), Cell(1, 6), Cell(1, 7)]
    case Twenty => [Cell(2, 0), Cell(2, 1), Cell(2, 2), Cell(2, 3), Cell(2, 4), Cell(2, 5)]
    case Half => [Cell(0, 7), Cell(0, 8), Cell(0, 9), Cell(0, 10)]
    case To => [Cell(3, 5), Cell(3, 6)]
    case Past => [Cell(3, 0), Cell(3, 1), Cell(3, 2), Cell(3, 3)]
    case HourOne => [Cell(3, 9), Cell(3, 10), Cell(3, 11)]
    case HourTwo => [Cell(4, 9), Cell(4, 10), Cell(4, 11)]
    case HourThree => [Cell(5, 1), Cell(5, 2), Cell(5, 3), Cell(5, 4), Cell(5, 5)]
    case HourFour => [Cell(5, 8), Cell(5, 9), Cell(5, 10), Cell(5, 11)]
    case HourFive => [Cell(6, 0), Cell(6, 1), Cell(6, 2), Cell(6, 3)]
    case HourSix => [Cell(6, 4), Cell(6, 5), Cell(6, 6)]
    case HourSeven => [Cell(7, 0), Cell(7, 1), Cell(7, 2), Cell(7, 3), Cell(7, 4)]
    case HourEight => [Cell(7, 7), Cell(7, 8), Cell(7, 9), Cell(7, 10), Cell(7, 11)]
    case HourNine => [Cell(6, 8), Cell(6, 9), Cell(6, 10), Cell(6, 11)]
    case HourTen => [Cell(8, 0), Cell(8, 1), Cell(8, 2)]
    case HourEleven => [Cell(8, 4), Cell(8, 5), Cell(8, 6), Cell(8, 7), Cell(8, 8), Cell(8, 9)]
    case HourTwelve => [Cell(4, 0), Cell(4, 1), Cell(4, 2), Cell(4, 3), Cell(4, 4), Cell(4, 5)]
    case OClock => [Cell(9, 2), Cell(9, 3), Cell(9, 4), Cell(9, 5), Cell(9, 6), Cell(9, 7), Cell(9, 8)]
  }

  /** The word as it is meant to be read on the face. */
  function Spelling(w: Word): string
  {
    match w
    case It => "IT"
    case Is => "IS"
    case A => "A"
    case Half => "HALF"
    case Quarter => "QUARTER"
    case Ten => "TEN"
    case Twenty => "TWENTY"
    case Five => "FIVE"
    case Past => "PAST"
    case To => "TO"
    case HourOne => "ONE"
    case HourTwo => "TWO"
    case HourThree => "THREE"
    case HourFour => "FOUR"
    case HourFive => "FIVE"
    case HourSix => "SIX"
    case HourNine => "NINE"
    case HourSeven => "SEVEN"
    case HourEight => "EIGHT"
    case HourTen => "TEN"
    case HourEleven => "ELEVEN"
    case HourTwelve => "TWELVE"
    case OClock => "O'CLOCK"
  }

  /** Every cell of every word lies on the 10 x 12 grid. */
  lemma CellsOnGrid(w: Word)
    ensures forall k :: 0 <= k < |Cells(w)| ==> InGrid(Cells(w)[k])
  {
  }

  /** The letters found on the face under a list of cells. */
  function LettersAt(cs: seq<Cell>): string
    requires forall k :: 0 <= k < |cs| ==> InGrid(cs[k])
  {
    seq(|cs|, k requires 0 <= k < |cs| => LetterAt(cs[k]))
  }

  /** The words on rows 0 and 1 spell themselves (checked in groups to keep each proof small). */
  lemma SpellsRowsZeroToOne(w: Word)
    requires w.It? || w.Is? || w.A? || w.Half? || w.Quarter? || w.Ten?
    ensures LettersAt(Cells(w)) == Spelling(w)
  {
  }

  /** The words on rows 2 and 3 spell themselves (checked in groups to keep each proof small). */
  lemma SpellsRowsTwoToThree(w: Word)
    requires w.Twenty? || w.Five? || w.Past? || w.To? || w.HourOne?
    ensures LettersAt(Cells(w)) == Spelling(w)
  {
  }

  /** The words on rows 4 to 6 spell themselves (checked in groups to keep each proof small). */
  lemma SpellsRowsFourToSix(w: Word)
    requires w.HourTwelve? || w.HourTwo? || w.HourThree? || w.HourFour? || w.HourFive? || w.HourSix? || w.HourNine?
    ensures LettersAt(Cells(w)) == Spelling(w)
  {
  }

  /** The words on rows 7 to 9 spell themselves (checked in groups to keep each proof small). */
  lemma SpellsRowsSevenToNine(w: Word)
    requires w.HourSeven? || w.HourEight? || w.HourTen? || w.HourEleven? || w.OClock?
    ensures LettersAt(Cells(w)) == Spelling(w)
  {
  }

  /** The letters under every word's cells spell the word. */
  lemma CellsSpellWord(w: Word)
    ensures forall k :: 0 <= k < |Cells(w)| ==> InGrid(Cells(w)[k])
    ensures LettersAt(Cells(w)) == Spelling(w)
  {
    CellsOnGrid(w);
    if w.It? || w.Is? || w.A? || w.Half? || w.Quarter? || w.Ten? {
      SpellsRowsZeroToOne(w);
    } else if w.Twenty? || w.Five? || w.Past? || w.To? || w.HourOne? {
      SpellsRowsTwoToThree(w);
    } else if w.HourTwelve? || w.HourTwo? || w.HourThree? || w.HourFour? || w.HourFive? || w.HourSix? || w.HourNine? {
      SpellsRowsFourToSix(w);
    } else {
      SpellsRowsSevenToNine(w);
    }
  }

  /**
   * The words `setWCWord` lights over a cell of the face, row by row.  Only
   * the A of HALF (row 0, column 8) carries two words: `WC_A` lights that A,
   * not the A printed before QUARTER (row 1, column 0), which no word lights.
   */
  function WordsOver(c: Cell): (ws: set<Word>)
    ensures |ws| <= 1 || c == Cell(0, 8)
  {
    var r, col := c.row, c.col;
    if r == 0 then
      if col <= 1 then {It} else if 3 <= col <= 4 then {Is}
      else if col == 8 then {A, Half} else if 7 <= col <= 10 then {Half} else {}
    else if r == 1 then
      if 1 <= col <= 7 then {Quarter} else if 9 <= col <= 11 then {Ten} else {}
    else if r == 2 then
      if col <= 5 then {Twenty} else if 7 <= col <= 10 then {Five} else {}
    else if r == 3 then
      if col <= 3 then {Past} else if 5 <= col <= 6 then {To}
      else if 9 <= col <= 11 then {HourOne} else {}
    else if r == 4 then
      if col <= 5 then {HourTwelve} else if 9 <= col <= 11 then {HourTwo} else {}
    else if r == 5 then
      if 1 <= col <= 5 then {HourThree} else if 8 <= col <= 11 then {HourFour} else {}
    else if r == 6 then
      if col <= 3 then {HourFive} else if 4 <= col <= 6 then {HourSix}
      else if 8 <= col <= 11 then {HourNine} else {}
    else if r == 7 then
      if col <= 4 then {HourSeven} else if 7 <= col <= 11 then {HourEight} else {}
    else if r == 8 then
      if col <= 2 then {HourTen} else if 4 <= col <= 9 then {HourEleven} else {}
    else if r == 9 then
      if 2 <= col <= 8 then {OClock} else {}
    else {}
  }

  /** Every cell a word lights lists that word in `WordsOver`. */
  lemma CellsUnderWord(w: Word)
    ensures forall k :: 0 <= k < |Cells(w)| ==> w in WordsOver(Cells(w)[k])
  {
  }

  /** `WordsOver` lists no extra words: a word listed over a cell lights that cell. */
  lemma WordsOverOnlyCells(c: Cell, w: Word)
    requires InGrid(c) && w in WordsOver(c)
    ensures c in Cells(w)
  {
    var cs := Cells(w);
    // `WordsOver` places `c` inside the word's run of cells; `Cells` says the run is contiguous.
    WordsOverInRun(c, w);
    assert cs[c.col - cs[0].col] == c;
  }

  /** `c` lies in the word's run of cells: on its row, between its first and last column. */
  predicate InRun(c: Cell, w: Word)
  {
    c.row == Cells(w)[0].row && Cells(w)[0].col <= c.col < Cells(w)[0].col + |Cells(w)|
  }

  /** `WordsOver` lists a word only over cells of its run; the rows are taken a few at a time. */
  lemma WordsOverInRun(c: Cell, w: Word)
    requires InGrid(c) && w in WordsOver(c)
    ensures InRun(c, w)
  {
    if c.row <= 1 {
      WordsOverInRunRowsZeroToOne(c, w);
    } else if c.row <= 3 {
      WordsOverInRunRowsTwoToThree(c, w);
    } else if c.row <= 5 {
      WordsOverInRunRowsFourToFive(c, w);
    } else if c.row == 6 {
      WordsOverInRunRowSix(c, w);
    } else {
      WordsOverInRunRowsSevenToNine(c, w);
    }
  }

  /** `WordsOverInRun` on rows 0..1. */
  lemma WordsOverInRunRowsZeroToOne(c: Cell, w: Word)
    requires InGrid(c) && c.row <= 1 && w in WordsOver(c)
    ensures InRun(c, w)
  {
    assert w.It? || w.Is? || w.A? || w.Half? || w.Quarter? || w.Ten?;
  }

  /** `WordsOverInRun` on rows 2..3. */
  lemma WordsOverInRunRowsTwoToThree(c: Cell, w: Word)
    requires InGrid(c) && 2 <= c.row <= 3 && w in WordsOver(c)
    ensures InRun(c, w)
  {
    assert w.Twenty? || w.Five? || w.Past? || w.To? || w.HourOne?;
  }

  /** `WordsOverInRun` on rows 4..5. */
  lemma WordsOverInRunRowsFourToFive(c: Cell, w: Word)
    requires InGrid(c) && 4 <= c.row <= 5 && w in WordsOver(c)
    ensures InRun(c, w)
  {
    assert w.HourTwelve? || w.HourTwo? || w.HourThree? || w.HourFour?;
  }

  /** `WordsOverInRun` on row 6. */
  lemma WordsOverInRunRowSix(c: Cell, w: Word)
    requires InGrid(c) && c.row == 6 && w in WordsOver(c)
    ensures InRun(c, w)
  {
    assert w.HourFive? || w.HourSix? || w.HourNine?;
  }

  /** `WordsOverInRun` on rows 7..9. */
  lemma WordsOverInRunRowsSevenToNine(c: Cell, w: Word)
    requires InGrid(c) && 7 <= c.row && w in WordsOver(c)
    ensures InRun(c, w)
  {
    assert w.HourSeven? || w.HourEight? || w.HourTen? || w.HourEleven? || w.OClock?;
  }

  /** A set with at most one element holds no two different values. */
  lemma AtMostOneMember(s: set<Word>, a: Word, b: Word)
    requires |s| <= 1 && a in s && b in s
    ensures a == b
  {
    assert |s - {a}| == |s| - 1 == 0;
    assert b !in s - {a};
  }

  /**
   * Two different words never share a cell, except that A is the A of HALF:
   * its one cell is also HALF's.
   */
  lemma CellsDisjoint(w1: Word, w2: Word, k1: nat, k2: nat)
    requires k1 < |Cells(w1)| && k2 < |Cells(w2)|
    requires Cells(w1)[k1] == Cells(w2)[k2]
    ensures w1 == w2 || {w1, w2} == {A, Half}
  {
    CellsUnderWord(w1);
    CellsUnderWord(w2);
    var c := Cells(w1)[k1];
    if c == Cell(0, 8) {
      assert WordsOver(c) == {A, Half};
    } else {
      AtMostOneMember(WordsOver(c), w1, w2);
    }
  }

  /** A's single cell is HALF's second. */
  lemma AInsideHalf()
    ensures Cells(A) == [Cells(Half)[1]]
  {
  }
}
