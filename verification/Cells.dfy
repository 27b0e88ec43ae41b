/** Screen cells, rows of cells, and the pairing of wide characters.

    A row is what one line of the screen shows. A wide character takes two cells: a lead of
    width 2 and, to its right, a continuation of width 0. */
module Cells {

  datatype Attribute = Bold | Underline | Blink | Reverse | Conceal

  datatype Cell = Cell(text: string, width: int, foreground: int, background: int, attributes: set<Attribute>)

  type Row = seq<Cell>

  const DEFAULT_COLOR := -1

  const DEFAULT_CELL := Cell(" ", 1, DEFAULT_COLOR, DEFAULT_COLOR, {})

  function Blank(style: Cell): Cell {
    style.(text := " ", width := 1)
  }

  function BlankRow(style: Cell, n: nat): (r: Row)
    ensures |r| == n
  {
    seq(n, i => Blank(style))
  }

  // ------------------------------------------------------------------ pairing

  predicate PairedAt(row: Row, c: nat)
    requires c < |row|
  {
    match row[c].width
    case 0 => c > 0 && row[c - 1].width == 2
    case 1 => true
    case 2 => c + 1 < |row| && row[c + 1].width == 0
    case _ => false
  }

  /** Every lead has its continuation and every continuation its lead, in the same row. */
  predicate Paired(row: Row) {
    forall c: nat | c < |row| :: PairedAt(row, c)
  }

  /** Does the boundary to the left of column c separate a lead from its continuation? */
  predicate SplitsPair(row: Row, c: int) {
    0 < c < |row| && row[c].width == 0
  }

  predicate CellWidths(row: Row) {
    forall c | 0 <= c < |row| :: 0 <= row[c].width <= 2
  }

  // ---------------------------------------------------------------- row edits

  /** Blanks the columns [from, to). */
  function EraseRow(row: Row, from: nat, to: nat, style: Cell): (r: Row)
    requires from <= to <= |row|
    ensures |r| == |row|
  {
    row[..from] + BlankRow(style, to - from) + row[to..]
  }

  /** A cell that is half of a wide character survives only next to its other half. */
  predicate KeepsCell(row: Row, c: nat)
    requires c < |row|
  {
    match row[c].width
    case 0 => c > 0 && row[c - 1].width == 2
    case 2 => c + 1 < |row| && row[c + 1].width == 0
    case _ => true
  }

  function Normalize(row: Row, style: Cell): (r: Row)
    ensures |r| == |row|
  {
    seq(|row|, c requires 0 <= c < |row| => if KeepsCell(row, c) then row[c] else Blank(style))
  }

  /** Removes the wide character, if any, that covers column c. */
  function ClearWide(row: Row, c: int, style: Cell): (r: Row)
    ensures |r| == |row|
  {
    if c < 0 || c >= |row| then row
    else if row[c].width == 0 then
      var cut := if c > 0 && row[c - 1].width == 2 then row[c - 1 := Blank(style)] else row;
      cut[c := Blank(style)]
    else if row[c].width == 2 then
      var cut := row[c := Blank(style)];
      if c + 1 < |row| && cut[c + 1].width == 0 then cut[c + 1 := Blank(style)] else cut
    else row
  }

  function Lead(style: Cell, text: string, width: int): Cell {
    style.(text := text, width := width)
  }

  function Continuation(style: Cell): Cell {
    style.(text := "", width := 0)
  }

  /** The cells one rune of the given width occupies. */
  function RuneCells(style: Cell, rune: char, width: int): Row {
    if width == 2 then [Lead(style, [rune], 2), Continuation(style)] else [Lead(style, [rune], width)]
  }

  /** Writes a rune of width 1 or 2 at column c, first removing what it would cut in half. */
  function PutRune(row: Row, c: nat, rune: char, width: int, style: Cell): (r: Row)
    requires 1 <= width <= 2 && c + width <= |row|
    ensures |r| == |row|
  {
    var once := ClearWide(row, c, style);
    var cleared := if width == 2 then ClearWide(once, c + 1, style) else once;
    cleared[..c] + RuneCells(style, rune, width) + cleared[c + width..]
  }

  function InsertCells(row: Row, c: nat, count: nat, style: Cell): (r: Row)
    requires c + count <= |row|
    ensures |r| == |row|
  {
    Normalize(row[..c] + BlankRow(style, count) + row[c..|row| - count], style)
  }

  function DeleteCells(row: Row, c: nat, count: nat, style: Cell): (r: Row)
    requires c + count <= |row|
    ensures |r| == |row|
  {
    Normalize(row[..c] + row[c + count..] + BlankRow(style, count), style)
  }

  /** The row of a resized screen that starts as a copy of `row`. */
  function ResizeRow(row: Row, width: nat, style: Cell): (r: Row)
    ensures |r| == width
  {
    Normalize(if width <= |row| then row[..width] else row + BlankRow(style, width - |row|), style)
  }

  // ------------------------------------------------------ what the edits keep

  /** Normalizing pairs any row of real cells, and changes nothing else. */
  lemma NormalizePairs(row: Row, style: Cell)
    requires CellWidths(row)
    ensures Paired(Normalize(row, style))
    ensures forall c: nat | c < |row| ::
      Normalize(row, style)[c] == if PairedAt(row, c) then row[c] else Blank(style)
    ensures Paired(row) <==> Normalize(row, style) == row
  {
    var r := Normalize(row, style);
    forall c: nat | c < |row| ensures PairedAt(r, c) {
      assert KeepsCell(row, c) <==> PairedAt(row, c);
      if row[c].width == 0 && c > 0 && row[c - 1].width == 2 {
        assert KeepsCell(row, c - 1);
      } else if row[c].width == 2 && c + 1 < |row| && row[c + 1].width == 0 {
        assert KeepsCell(row, c + 1);
      }
    }
    assert forall c: nat | c < |row| :: KeepsCell(row, c) <==> PairedAt(row, c);
  }

  lemma BlankRowPaired(style: Cell, n: nat)
    ensures Paired(BlankRow(style, n))
  {
  }

  lemma PairedWidths(row: Row)
    requires Paired(row)
    ensures CellWidths(row)
  {
    forall c | 0 <= c < |row| ensures 0 <= row[c].width <= 2 {
      assert PairedAt(row, c);
    }
  }

  /** Clearing the character over a column leaves a paired row with a plain cell there. */
  lemma ClearWidePairs(row: Row, c: nat, style: Cell)
    requires c < |row| && Paired(row)
    ensures Paired(ClearWide(row, c, style)) && ClearWide(row, c, style)[c].width == 1
    ensures forall k | 0 <= k < |row| :: row[k].width == 1 ==> ClearWide(row, c, style)[k] == row[k]
  {
    var r := ClearWide(row, c, style);
    assert PairedAt(row, c);
    if c > 0 { assert PairedAt(row, c - 1); }
    if c + 1 < |row| { assert PairedAt(row, c + 1); }
    forall k: nat | k < |row| ensures PairedAt(r, k) {
      assert PairedAt(row, k);
      if k > 0 { assert PairedAt(row, k - 1); }
      if k + 1 < |row| { assert PairedAt(row, k + 1); }
    }
  }

  /** Writing a rune over plain cells keeps a row paired. */
  lemma PutOverPlain(row: Row, c: nat, rune: char, width: int, style: Cell)
    requires 1 <= width <= 2 && c + width <= |row| && Paired(row)
    requires row[c].width == 1 && (width == 2 ==> row[c + 1].width == 1)
    ensures Paired(row[..c] + RuneCells(style, rune, width) + row[c + width..])
  {
    var r := row[..c] + RuneCells(style, rune, width) + row[c + width..];
    forall k: nat | k < |row| ensures PairedAt(r, k) {
      assert PairedAt(row, k);
      if k > 0 { assert PairedAt(row, k - 1); }
      if k + 1 < |row| { assert PairedAt(row, k + 1); }
    }
  }

  lemma PutRunePairs(row: Row, c: nat, rune: char, width: int, style: Cell)
    requires 1 <= width <= 2 && c + width <= |row| && Paired(row)
    ensures Paired(PutRune(row, c, rune, width, style))
  {
    var once := ClearWide(row, c, style);
    ClearWidePairs(row, c, style);
    if width == 2 {
      ClearWidePairs(once, c + 1, style);
      PutOverPlain(ClearWide(once, c + 1, style), c, rune, width, style);
    } else {
      PutOverPlain(once, c, rune, width, style);
    }
  }

  lemma EraseEnds(row: Row, style: Cell)
    ensures EraseRow(row, |row|, |row|, style) == row == EraseRow(row, 0, 0, style)
    ensures EraseRow(row, 0, |row|, style) == BlankRow(style, |row|)
  {
  }

  lemma ErasedAt(row: Row, from: nat, to: nat, style: Cell, c: nat)
    requires from <= to <= |row| && c < |row|
    ensures EraseRow(row, from, to, style)[c] == if from <= c < to then Blank(style) else row[c]
  {
  }

  /** Erasing a non-empty range of a paired row keeps the pairing exactly when neither edge of
      the range falls inside a wide character. */
  lemma EraseRowPairs(row: Row, from: nat, to: nat, style: Cell)
    requires from < to <= |row| && Paired(row)
    ensures Paired(EraseRow(row, from, to, style)) <==> !SplitsPair(row, from) && !SplitsPair(row, to)
  {
    var r := EraseRow(row, from, to, style);
    if SplitsPair(row, from) {
      assert PairedAt(row, from);
      assert !PairedAt(r, from - 1);
    } else if SplitsPair(row, to) {
      assert !PairedAt(r, to);
    } else {
      forall k: nat | k < |row| ensures PairedAt(r, k) {
        assert PairedAt(row, k);
      }
    }
  }

  lemma ShiftPairs(row: Row, c: nat, count: nat, style: Cell)
    requires c + count <= |row| && Paired(row)
    ensures Paired(InsertCells(row, c, count, style)) && Paired(DeleteCells(row, c, count, style))
  {
    PairedWidths(row);
    NormalizePairs(row[..c] + BlankRow(style, count) + row[c..|row| - count], style);
    NormalizePairs(row[..c] + row[c + count..] + BlankRow(style, count), style);
  }

  /** Resizing a paired row pairs it again and keeps every cell of the overlap, save a lead whose
      continuation lies beyond the new right edge. */
  lemma ResizeRowPairs(row: Row, width: nat, style: Cell)
    requires Paired(row)
    ensures Paired(ResizeRow(row, width, style))
    ensures forall c: nat | c < width ::
      ResizeRow(row, width, style)[c] ==
        if c >= |row| || (c == width - 1 && SplitsPair(row, width)) then Blank(style) else row[c]
  {
    PairedWidths(row);
    var copied := if width <= |row| then row[..width] else row + BlankRow(style, width - |row|);
    NormalizePairs(copied, style);
    forall c: nat | c < width
      ensures KeepsCell(copied, c) <==> !(c == width - 1 && SplitsPair(row, width))
    {
      if c < |row| { assert PairedAt(row, c); }
      if c == width - 1 && c + 1 < |row| { assert PairedAt(row, c + 1); }
    }
  }

  /** Widening a paired row and cutting it back restores it. */
  lemma ResizeRowRoundTrip(row: Row, width: nat, style: Cell, style': Cell)
    requires Paired(row) && |row| <= width
    ensures ResizeRow(ResizeRow(row, width, style), |row|, style') == row
  {
    ResizeRowPairs(row, width, style);
    ResizeRowPairs(ResizeRow(row, width, style), |row|, style');
  }

  /** A row with cells deleted, before it is normalized. */
  ghost function DeletedFrom(row: Row, c: nat, count: nat, style: Cell): Row
    requires c + count <= |row|
  {
    row[..c] + row[c + count..] + BlankRow(style, count)
  }

  /** Inserting inside a wide character destroys its lead for good. */
  lemma InsertedCut(row: Row, c: nat, count: nat, style: Cell)
    requires Paired(row) && 0 < count && c + count <= |row|
    requires SplitsPair(row, c) || SplitsPair(row, |row| - count)
    ensures DeleteCells(InsertCells(row, c, count, style), c, count, style) !=
            row[..|row| - count] + BlankRow(style, count)
  {
    var end := |row| - count;
    var shifted := row[..c] + BlankRow(style, count) + row[c..end];
    var inserted := InsertCells(row, c, count, style);
    var lead := if SplitsPair(row, c) then c - 1 else end - 1;
    assert PairedAt(row, lead + 1) && row[lead].width == 2;
    var moved := if lead < c then lead else |row| - 1;
    assert shifted[moved] == row[lead] && !KeepsCell(shifted, moved);
    assert inserted[moved].width == 1;
    assert DeletedFrom(inserted, c, count, style)[lead] == inserted[moved];
    assert DeleteCells(inserted, c, count, style)[lead].width == 1;
    assert (row[..end] + BlankRow(style, count))[lead] == row[lead];
  }

  /** Inserting cuts nothing when neither end of what moves is inside a wide character. */
  lemma InsertedUncut(row: Row, c: nat, count: nat, style: Cell)
    requires Paired(row) && 0 < count && c + count <= |row|
    requires !SplitsPair(row, c) && !SplitsPair(row, |row| - count)
    ensures InsertCells(row, c, count, style) == row[..c] + BlankRow(style, count) + row[c..|row| - count]
  {
    var shifted := row[..c] + BlankRow(style, count) + row[c..|row| - count];
    forall k: nat | k < |row| ensures KeepsCell(shifted, k) {
      if k < c {
        assert PairedAt(row, k);
        if k + 1 < |row| { assert PairedAt(row, k + 1); }
      } else if c + count <= k {
        assert shifted[k] == row[k - count] && PairedAt(row, k - count);
        if k - count + 1 < |row| { assert PairedAt(row, k - count + 1); }
      }
    }
  }

  lemma ClosedUncut(row: Row, end: nat, style: Cell)
    requires Paired(row) && end <= |row| && !SplitsPair(row, end)
    ensures var closed := row[..end] + BlankRow(style, |row| - end);
            Normalize(closed, style) == closed
  {
    var closed := row[..end] + BlankRow(style, |row| - end);
    forall k: nat | k < |row| ensures KeepsCell(closed, k) {
      if k < end {
        assert PairedAt(row, k);
        if k + 1 < |row| { assert PairedAt(row, k + 1); }
      }
    }
  }

  /** Inserting characters and deleting as many gives back the row but for its last cells, exactly
      when neither the cursor nor the point where cells fall off the row is inside a wide
      character. */
  lemma InsertThenDeleteIff(row: Row, c: nat, count: nat, style: Cell)
    requires Paired(row) && 0 < count && c + count <= |row|
    ensures DeleteCells(InsertCells(row, c, count, style), c, count, style) ==
            row[..|row| - count] + BlankRow(style, count)
            <==> !SplitsPair(row, c) && !SplitsPair(row, |row| - count)
  {
    if SplitsPair(row, c) || SplitsPair(row, |row| - count) {
      InsertedCut(row, c, count, style);
    } else {
      InsertedUncut(row, c, count, style);
      ClosedUncut(row, |row| - count, style);
      assert DeletedFrom(InsertCells(row, c, count, style), c, count, style)
          == row[..|row| - count] + BlankRow(style, count);
    }
  }
}
