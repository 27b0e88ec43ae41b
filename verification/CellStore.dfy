/** The loops that edit a screen buffer in place. A buffer stores its rows one after the other in
    one array; each method here is proved to make one of the row edits of modules Cells and Grids. */
module CellStore {
  import opened Cells
  import opened Grids

  /** The cells [from, to) all become blank. */
  method EraseCells(a: array<Cell>, from: nat, to: nat, style: Cell)
    requires from <= to <= a.Length
    modifies a
    ensures a[..] == Splice(old(a[..]), from, BlankRow(style, to - from))
  {
    var i := from;
    while i < to
      invariant from <= i <= to
      invariant a[..] == Splice(old(a[..]), from, BlankRow(style, i - from))
    {
      a[i] := Blank(style);
      i := i + 1;
    }
  }

  method BlankCells(count: nat, style: Cell) returns (a: array<Cell>)
    ensures fresh(a) && a.Length == count && a[..] == BlankRow(style, count)
  {
    a := new Cell[count](i => Blank(style));
    assert forall i | 0 <= i < count :: a[i] == Blank(style);
  }

  /** One turn of that scan: the cells before `column` are normalized, the rest as in `row`. */
  method NormalizeCell(a: array<Cell>, start: nat, count: nat, column: nat, ghost row: Row, style: Cell)
    requires start + count <= a.Length && |row| == count && column < count
    requires a[start + column] == row[column]
    requires column > 0 ==> a[start + column - 1] == Normalize(row, style)[column - 1]
    requires column + 1 < count ==> a[start + column + 1] == row[column + 1]
    modifies a
    ensures a[..] == old(a[..])[start + column := Normalize(row, style)[column]]
  {
    var width := a[start + column].width;
    if width == 0 {
      if column == 0 || a[start + column - 1].width != 2 {
        a[start + column] := Blank(style);
      }
    } else if width == 2 {
      if column + 1 >= count || a[start + column + 1].width != 0 {
        a[start + column] := Blank(style);
      }
    }
  }

  /** Left to right, blanks every half of a wide character that stands alone. */
  method NormalizeCells(a: array<Cell>, start: nat, count: nat, style: Cell)
    requires start + count <= a.Length
    modifies a
    ensures a[..] == Splice(old(a[..]), start, Normalize(old(a[start..start + count]), style))
  {
    ghost var was := a[..];
    ghost var row := a[start..start + count];
    ghost var normal := Normalize(row, style);
    var column := 0;
    while column < count
      invariant 0 <= column <= count
      invariant forall k | 0 <= k < a.Length ::
        a[k] == if start <= k < start + column then normal[k - start] else was[k]
    {
      NormalizeCell(a, start, count, column, row, style);
      column := column + 1;
    }
  }

  /** Moves the cells [from, from + count) to `to`, also when the two stretches overlap. */
  method MoveCells(a: array<Cell>, to: nat, from: nat, count: nat)
    requires to + count <= a.Length && from + count <= a.Length
    modifies a
    ensures a[..] == Splice(old(a[..]), to, old(a[..])[from..from + count])
  {
    forall i | 0 <= i < count {
      a[to + i] := a[from + i];
    }
  }

  method CopyCells(b: array<Cell>, to: nat, a: array<Cell>, from: nat, count: nat)
    requires a != b && to + count <= b.Length && from + count <= a.Length
    modifies b
    ensures b[..] == Splice(old(b[..]), to, a[..][from..from + count])
  {
    forall i | 0 <= i < count {
      b[to + i] := a[from + i];
    }
  }

  // ------------------------------------------------------------------ one row

  lemma SpliceInside(cells: seq<Cell>, start: nat, width: nat, c: nat, piece: seq<Cell>)
    requires start + width <= |cells| && c + |piece| <= width
    ensures var row := cells[start..start + width];
            Splice(cells, start + c, piece) == Splice(cells, start, row[..c] + piece + row[c + |piece|..])
  {
  }

  lemma SpliceInRow(cells: seq<Cell>, width: nat, height: nat, r: nat, c: nat, piece: seq<Cell>)
    requires |cells| == Offset(width, height) && r < height && c + |piece| <= width
    ensures 0 <= Offset(width, r) && Offset(width, r) + c + |piece| <= |cells|
    ensures var row := Rows(cells, width, height)[r];
            Rows(Splice(cells, Offset(width, r) + c, piece), width, height) ==
            Rows(cells, width, height)[r := row[..c] + piece + row[c + |piece|..]]
  {
    RowStart(width, height, r);
    var row := StoredRow(cells, width, height, r);
    SpliceRow(cells, width, height, r, row[..c] + piece + row[c + |piece|..]);
    SpliceInside(cells, Offset(width, r), width, c, piece);
  }

  lemma UpdateCell(cells: seq<Cell>, width: nat, height: nat, r: nat, c: nat, cell: Cell)
    requires |cells| == Offset(width, height) && r < height && c < width
    ensures 0 <= Offset(width, r) + c < |cells|
    ensures var g := Rows(cells, width, height);
            Rows(cells[Offset(width, r) + c := cell], width, height) == g[r := g[r][c := cell]]
  {
    SpliceInRow(cells, width, height, r, c, [cell]);
    assert cells[Offset(width, r) + c := cell] == Splice(cells, Offset(width, r) + c, [cell]);
    var row := Rows(cells, width, height)[r];
    assert row[..c] + [cell] + row[c + 1..] == row[c := cell];
  }

  method StoreCell(a: array<Cell>, width: nat, height: nat, r: nat, c: nat, cell: Cell)
    requires a.Length == Offset(width, height) && r < height && c < width
    modifies a
    ensures var g := Rows(old(a[..]), width, height);
            Rows(a[..], width, height) == g[r := g[r][c := cell]]
  {
    UpdateCell(a[..], width, height, r, c, cell);
    a[Offset(width, r) + c] := cell;
    assert a[..] == old(a[..])[Offset(width, r) + c := cell];
  }

  method LoadCell(a: array<Cell>, width: nat, height: nat, r: nat, c: nat) returns (cell: Cell)
    requires a.Length == Offset(width, height) && r < height && c < width
    ensures cell == Rows(a[..], width, height)[r][c]
  {
    CellOfRows(a[..], width, height, r, c);
    cell := a[Offset(width, r) + c];
  }

  /** Removes the wide character, if any, that covers a column. */
  method ClearWideCharacterAt(a: array<Cell>, width: nat, height: nat, r: nat, column: int, style: Cell)
    requires a.Length == Offset(width, height) && r < height
    modifies a
    ensures var g := Rows(old(a[..]), width, height);
            Rows(a[..], width, height) == g[r := ClearWide(g[r], column, style)]
  {
    if column < 0 || column >= width {
      return;
    }
    var cell := LoadCell(a, width, height, r, column);
    if cell.width == 0 {
      if column > 0 {
        var left := LoadCell(a, width, height, r, column - 1);
        if left.width == 2 {
          StoreCell(a, width, height, r, column - 1, Blank(style));
        }
      }
      StoreCell(a, width, height, r, column, Blank(style));
    } else if cell.width == 2 {
      StoreCell(a, width, height, r, column, Blank(style));
      if column + 1 < width {
        var right := LoadCell(a, width, height, r, column + 1);
        if right.width == 0 {
          StoreCell(a, width, height, r, column + 1, Blank(style));
        }
      }
    }
  }

  lemma PutRuneByCells(row: Row, c: nat, rune: char, size: int, style: Cell)
    requires 1 <= size <= 2 && c + size <= |row|
    ensures size == 1 ==>
      PutRune(row, c, rune, size, style) == ClearWide(row, c, style)[c := Lead(style, [rune], 1)]
    ensures size == 2 ==>
      PutRune(row, c, rune, size, style) ==
      ClearWide(ClearWide(row, c, style), c + 1, style)[c := Lead(style, [rune], 2)][c + 1 := Continuation(style)]
  {
  }

  /** Writes the cells of a rune over whatever they would cut in half. */
  method StoreRune(a: array<Cell>, width: nat, height: nat, r: nat, column: nat, rune: char, size: int, style: Cell)
    requires a.Length == Offset(width, height) && r < height && 1 <= size <= 2 && column + size <= width
    modifies a
    ensures var g := Rows(old(a[..]), width, height);
            Rows(a[..], width, height) == g[r := PutRune(g[r], column, rune, size, style)]
  {
    PutRuneByCells(Rows(a[..], width, height)[r], column, rune, size, style);
    ClearWideCharacterAt(a, width, height, r, column, style);
    if size == 2 {
      ClearWideCharacterAt(a, width, height, r, column + 1, style);
      StoreCell(a, width, height, r, column, Lead(style, [rune], size));
      StoreCell(a, width, height, r, column + 1, Continuation(style));
    } else {
      StoreCell(a, width, height, r, column, Lead(style, [rune], size));
    }
  }

  method EraseInRow(a: array<Cell>, width: nat, height: nat, r: nat, from: nat, to: nat, style: Cell)
    requires a.Length == Offset(width, height) && r < height && from <= to <= width
    modifies a
    ensures var g := Rows(old(a[..]), width, height);
            Rows(a[..], width, height) == g[r := EraseRow(g[r], from, to, style)]
  {
    SpliceInRow(a[..], width, height, r, from, BlankRow(style, to - from));
    EraseCells(a, Offset(width, r) + from, Offset(width, r) + to, style);
  }

  /** Normalizes one row of the store. */
  method NormalizeRow(a: array<Cell>, width: nat, height: nat, r: nat, style: Cell)
    requires a.Length == Offset(width, height) && r < height
    modifies a
    ensures var g := Rows(old(a[..]), width, height);
            Rows(a[..], width, height) == g[r := Normalize(g[r], style)]
  {
    RowStart(width, height, r);
    SpliceRow(a[..], width, height, r, Normalize(StoredRow(a[..], width, height, r), style));
    NormalizeCells(a, Offset(width, r), width, style);
  }

  lemma SliceOfSlice(cells: seq<Cell>, start: nat, width: nat, from: nat, count: nat)
    requires start + width <= |cells| && from + count <= width
    ensures cells[start..start + width][from..from + count] == cells[start + from..start + from + count]
  {
    var part, whole := cells[start..start + width][from..from + count], cells[start + from..start + from + count];
    forall i | 0 <= i < count ensures part[i] == whole[i] {
      assert part[i] == cells[start..start + width][from + i];
    }
  }

  lemma PartOfRow(cells: seq<Cell>, width: nat, height: nat, r: nat, from: nat, count: nat)
    requires |cells| == Offset(width, height) && r < height && from + count <= width
    ensures Offset(width, r) + width <= |cells|
    ensures Rows(cells, width, height)[r][from..from + count] ==
            cells[Offset(width, r) + from..Offset(width, r) + from + count]
  {
    RowStart(width, height, r);
    var start := Offset(width, r);
    SliceOfSlice(cells, start, width, from, count);
  }

  lemma SpliceMoved(cells: seq<Cell>, width: nat, height: nat, r: nat, to: nat, from: nat, count: nat)
    requires |cells| == Offset(width, height) && r < height && to + count <= width && from + count <= width
    ensures Offset(width, r) + width <= |cells|
    ensures var (g, start) := (Rows(cells, width, height), Offset(width, r));
            Rows(Splice(cells, start + to, cells[start + from..start + from + count]), width, height) ==
            g[r := g[r][..to] + g[r][from..from + count] + g[r][to + count..]]
  {
    RowStart(width, height, r);
    PartOfRow(cells, width, height, r, from, count);
    SpliceInRow(cells, width, height, r, to, Rows(cells, width, height)[r][from..from + count]);
  }

  method MoveInRow(a: array<Cell>, width: nat, height: nat, r: nat, to: nat, from: nat, count: nat)
    requires a.Length == Offset(width, height) && r < height && to + count <= width && from + count <= width
    modifies a
    ensures var g := Rows(old(a[..]), width, height);
            Rows(a[..], width, height) ==
            g[r := g[r][..to] + g[r][from..from + count] + g[r][to + count..]]
  {
    SpliceMoved(a[..], width, height, r, to, from, count);
    var start := Offset(width, r);
    MoveCells(a, start + to, start + from, count);
  }

  lemma InsertByParts(row: Row, column: nat, count: nat, style: Cell)
    requires column + count <= |row|
    ensures var moved := row[..column + count] + row[column..|row| - count] + row[|row|..];
            EraseRow(moved, column, column + count, style) ==
            row[..column] + BlankRow(style, count) + row[column..|row| - count]
  {
  }

  lemma DeleteByParts(row: Row, column: nat, count: nat, rest: nat, style: Cell)
    requires column + count + rest == |row|
    ensures var moved := row[..column] + row[column + count..column + count + rest] + row[column + rest..];
            EraseRow(moved, |row| - count, |row|, style) ==
            row[..column] + row[column + count..] + BlankRow(style, count)
  {
    var moved := row[..column] + row[column + count..column + count + rest] + row[column + rest..];
    assert moved[..|row| - count] == row[..column] + row[column + count..];
  }

  method InsertInRow(a: array<Cell>, width: nat, height: nat, r: nat, column: nat, count: nat, style: Cell)
    requires a.Length == Offset(width, height) && r < height && column + count <= width
    modifies a
    ensures var g := Rows(old(a[..]), width, height);
            Rows(a[..], width, height) == g[r := InsertCells(g[r], column, count, style)]
  {
    ghost var row := Rows(a[..], width, height)[r];
    MoveInRow(a, width, height, r, column + count, column, width - count - column);
    EraseInRow(a, width, height, r, column, column + count, style);
    InsertByParts(row, column, count, style);
    NormalizeRow(a, width, height, r, style);
  }

  method DeleteInRow(a: array<Cell>, width: nat, height: nat, r: nat, column: nat, count: nat, style: Cell)
    requires a.Length == Offset(width, height) && r < height && column + count <= width
    modifies a
    ensures var g := Rows(old(a[..]), width, height);
            Rows(a[..], width, height) == g[r := DeleteCells(g[r], column, count, style)]
  {
    ghost var row := Rows(a[..], width, height)[r];
    var rest := width - count - column;
    MoveInRow(a, width, height, r, column, column + count, rest);
    EraseInRow(a, width, height, r, width - count, width, style);
    DeleteByParts(row, column, count, rest, style);
    NormalizeRow(a, width, height, r, style);
  }

  // ------------------------------------------------------------------ whole rows

  method CopyRow(a: array<Cell>, width: nat, height: nat, to: nat, from: nat)
    requires a.Length == Offset(width, height) && to < height && from < height
    modifies a
    ensures var g := Rows(old(a[..]), width, height);
            Rows(a[..], width, height) == g[to := g[from]]
  {
    RowStart(width, height, to);
    RowStart(width, height, from);
    SpliceRow(a[..], width, height, to, StoredRow(a[..], width, height, from));
    MoveCells(a, Offset(width, to), Offset(width, from), width);
  }

  method ClearRow(a: array<Cell>, width: nat, height: nat, r: nat, style: Cell)
    requires a.Length == Offset(width, height) && r < height
    modifies a
    ensures Rows(a[..], width, height) == Rows(old(a[..]), width, height)[r := BlankRow(style, width)]
  {
    RowStart(width, height, r);
    SpliceRow(a[..], width, height, r, BlankRow(style, width));
    EraseCells(a, Offset(width, r), Offset(width, r) + width, style);
  }

  /** Clears the rows [from, from + count). */
  method ClearRows(a: array<Cell>, width: nat, height: nat, from: nat, count: nat, style: Cell)
    requires a.Length == Offset(width, height) && from + count <= height
    modifies a
    ensures var g := Rows(old(a[..]), width, height);
            Rows(a[..], width, height) ==
            g[..from] + Repeat(BlankRow(style, width), count) + g[from + count..]
  {
    ghost var g := Rows(a[..], width, height);
    var blank := from;
    while blank < from + count
      invariant from <= blank <= from + count
      invariant Rows(a[..], width, height) ==
                g[..from] + Repeat(BlankRow(style, width), blank - from) + g[blank..]
    {
      ClearRow(a, width, height, blank, style);
      blank := blank + 1;
    }
  }

  function RowAbove(g: Grid, bottom: nat, count: nat, d: int, k: nat): Row
    requires k < |g| && (d < k <= bottom ==> count <= k)
  {
    if d < k <= bottom then g[k - count] else g[k]
  }

  /** The grid once the rows of the region below `d` hold what stood `count` rows above them. */
  ghost function MovedDown(g: Grid, bottom: nat, count: nat, d: int): (r: Grid)
    requires bottom < |g| && count - 1 <= d <= bottom
    ensures |r| == |g|
  {
    seq(|g|, k requires 0 <= k < |g| => RowAbove(g, bottom, count, d, k))
  }

  lemma MovedDownStep(g: Grid, bottom: nat, count: nat, d: nat)
    requires bottom < |g| && count <= d <= bottom
    ensures var r := MovedDown(g, bottom, count, d);
            r[d := r[d - count]] == MovedDown(g, bottom, count, d - 1)
  {
  }

  lemma MovedDownEnd(g: Grid, top: nat, bottom: nat, count: nat, blank: Row)
    requires top <= bottom < |g| && count <= bottom + 1 - top
    ensures var r := MovedDown(g, bottom, count, top + count - 1);
            r[..top] + Repeat(blank, count) + r[top + count..] == InsertRows(g, top, bottom, count, blank)
  {
    var r := MovedDown(g, bottom, count, top + count - 1);
    assert r[..top] == g[..top];
    assert r[top + count..] == g[top..bottom + 1 - count] + g[bottom + 1..];
  }

  function RowBelow(g: Grid, top: nat, count: nat, d: nat, k: nat): Row
    requires k < |g| && d + count <= |g|
  {
    if top <= k < d then g[k + count] else g[k]
  }

  /** The grid once the rows of the region above `d` hold what stood `count` rows below them. */
  ghost function MovedUp(g: Grid, top: nat, count: nat, d: nat): (r: Grid)
    requires top <= d && d + count <= |g|
    ensures |r| == |g|
  {
    seq(|g|, k requires 0 <= k < |g| => RowBelow(g, top, count, d, k))
  }

  lemma MovedUpStep(g: Grid, top: nat, count: nat, d: nat)
    requires top <= d && d + count < |g|
    ensures var r := MovedUp(g, top, count, d);
            r[d := r[d + count]] == MovedUp(g, top, count, d + 1)
  {
  }

  lemma MovedUpEnd(g: Grid, top: nat, bottom: nat, count: nat, from: nat, blank: Row)
    requires top <= from && top <= bottom < |g| && from + count == bottom + 1
    ensures var r := MovedUp(g, top, count, from);
            r[..from] + Repeat(blank, count) + r[from + count..] == DeleteRows(g, top, bottom, count, blank)
  {
    var r := MovedUp(g, top, count, from);
    assert r[..from] == g[..top] + g[top + count..bottom + 1];
    assert r[bottom + 1..] == g[bottom + 1..];
  }

  lemma OneRow(g: Grid, r: nat, blank: Row)
    requires r < |g|
    ensures g[r := blank] == g[..r] + Repeat(blank, 1) + g[r + 1..]
  {
  }

  /** Moves each row of [top, bottom] `count` rows down, last row first. */
  method MoveRowsDown(a: array<Cell>, width: nat, height: nat, top: nat, bottom: nat, count: nat)
    requires a.Length == Offset(width, height) && top <= bottom < height && count <= bottom + 1 - top
    modifies a
    ensures Rows(a[..], width, height) == MovedDown(Rows(old(a[..]), width, height), bottom, count, top + count - 1)
  {
    ghost var g := Rows(a[..], width, height);
    var destination := bottom;
    assert g == MovedDown(g, bottom, count, bottom);
    while destination >= top + count
      invariant top + count - 1 <= destination <= bottom
      invariant Rows(a[..], width, height) == MovedDown(g, bottom, count, destination)
      decreases destination
    {
      MovedDownStep(g, bottom, count, destination);
      CopyRow(a, width, height, destination, destination - count);
      destination := destination - 1;
    }
  }

  /** Moves each row of [top, bottom] `count` rows up, first row first. */
  method MoveRowsUp(a: array<Cell>, width: nat, height: nat, top: nat, bottom: nat, count: nat)
    requires a.Length == Offset(width, height) && top <= bottom < height && count <= bottom + 1 - top
    modifies a
    ensures Rows(a[..], width, height) == MovedUp(Rows(old(a[..]), width, height), top, count, bottom + 1 - count)
  {
    ghost var g := Rows(a[..], width, height);
    var destination := top;
    assert g == MovedUp(g, top, count, top);
    while destination <= bottom - count
      invariant top <= destination <= bottom + 1 - count
      invariant Rows(a[..], width, height) == MovedUp(g, top, count, destination)
    {
      MovedUpStep(g, top, count, destination);
      CopyRow(a, width, height, destination, destination + count);
      destination := destination + 1;
    }
  }

  /** Insert line. */
  method InsertRowsInPlace(a: array<Cell>, width: nat, height: nat, top: nat, bottom: nat, count: nat, style: Cell)
    requires a.Length == Offset(width, height) && top <= bottom < height && count <= bottom + 1 - top
    modifies a
    ensures Rows(a[..], width, height) ==
            InsertRows(Rows(old(a[..]), width, height), top, bottom, count, BlankRow(style, width))
  {
    MovedDownEnd(Rows(a[..], width, height), top, bottom, count, BlankRow(style, width));
    MoveRowsDown(a, width, height, top, bottom, count);
    ClearRows(a, width, height, top, count, style);
  }

  /** Delete line. */
  method DeleteRowsInPlace(a: array<Cell>, width: nat, height: nat, top: nat, bottom: nat, count: nat, style: Cell)
    requires a.Length == Offset(width, height) && top <= bottom < height && count <= bottom + 1 - top
    modifies a
    ensures Rows(a[..], width, height) ==
            DeleteRows(Rows(old(a[..]), width, height), top, bottom, count, BlankRow(style, width))
  {
    var from := bottom + 1 - count;
    MovedUpEnd(Rows(a[..], width, height), top, bottom, count, from, BlankRow(style, width));
    MoveRowsUp(a, width, height, top, bottom, count);
    ClearRows(a, width, height, from, count, style);
  }

  /** The scroll of a line feed at the bottom margin: one row, cleared on its own. */
  method ScrollUpInPlace(a: array<Cell>, width: nat, height: nat, top: nat, bottom: nat, style: Cell)
    requires a.Length == Offset(width, height) && top <= bottom < height
    modifies a
    ensures Rows(a[..], width, height) ==
            DeleteRows(Rows(old(a[..]), width, height), top, bottom, 1, BlankRow(style, width))
  {
    MovedUpEnd(Rows(a[..], width, height), top, bottom, 1, bottom, BlankRow(style, width));
    MoveRowsUp(a, width, height, top, bottom, 1);
    OneRow(Rows(a[..], width, height), bottom, BlankRow(style, width));
    ClearRow(a, width, height, bottom, style);
  }

  /** The scroll of a reverse index at the top margin. */
  method ScrollDownInPlace(a: array<Cell>, width: nat, height: nat, top: nat, bottom: nat, style: Cell)
    requires a.Length == Offset(width, height) && top <= bottom < height
    modifies a
    ensures Rows(a[..], width, height) ==
            InsertRows(Rows(old(a[..]), width, height), top, bottom, 1, BlankRow(style, width))
  {
    MovedDownEnd(Rows(a[..], width, height), top, bottom, 1, BlankRow(style, width));
    MoveRowsDown(a, width, height, top, bottom, 1);
    OneRow(Rows(a[..], width, height), top, BlankRow(style, width));
    ClearRow(a, width, height, top, style);
  }

  // ------------------------------------------------------------------ whole screens

  method EraseBelowInPlace(a: array<Cell>, width: nat, height: nat, r: nat, column: nat, style: Cell)
    requires a.Length == Offset(width, height) && r < height && column < width
    modifies a
    ensures Rows(a[..], width, height) == EraseBelow(Rows(old(a[..]), width, height), width, r, column, style)
  {
    RowStart(width, height, r);
    SpliceBelow(a[..], width, height, r, column, style);
    EraseCells(a, Offset(width, r) + column, a.Length, style);
  }

  method EraseAboveInPlace(a: array<Cell>, width: nat, height: nat, r: nat, column: nat, style: Cell)
    requires a.Length == Offset(width, height) && r < height && column <= width
    modifies a
    ensures Rows(a[..], width, height) == EraseAbove(Rows(old(a[..]), width, height), width, r, column, style)
  {
    RowStart(width, height, r);
    SpliceAbove(a[..], width, height, r, column, style);
    EraseCells(a, 0, Offset(width, r) + column, style);
  }

  method EraseAllInPlace(a: array<Cell>, width: nat, height: nat, style: Cell)
    requires a.Length == Offset(width, height)
    modifies a
    ensures Rows(a[..], width, height) == BlankGrid(style, width, height)
  {
    EraseCells(a, 0, a.Length, style);
    assert a[..] == BlankRow(style, Offset(width, height));
    BlankStore(style, width, height);
  }

  method NewCells(width: nat, height: nat, style: Cell) returns (a: array<Cell>)
    ensures fresh(a) && a.Length == Offset(width, height)
    ensures Rows(a[..], width, height) == BlankGrid(style, width, height)
  {
    RowsBefore(width, 0, height);
    a := BlankCells(Offset(width, height), style);
    BlankStore(style, width, height);
  }

  ghost predicate PartlyResized(r: Grid, g: Grid, width: nat, rows: nat, style: Cell) {
    && rows <= |g| && rows <= |r|
    && (forall k | 0 <= k < rows :: r[k] == ResizeRow(g[k], width, style))
    && (forall k | rows <= k < |r| :: r[k] == BlankRow(style, width))
  }

  lemma AllResized(r: Grid, g: Grid, width: nat, height: nat, style: Cell)
    requires |r| == height && PartlyResized(r, g, width, if height < |g| then height else |g|, style)
    ensures r == ResizeGrid(g, width, height, style)
  {
  }

  /** Copies the start of a row to the start of the same row of another store. */
  method CopyInto(a: array<Cell>, b: array<Cell>, width: nat, height: nat, width': nat, height': nat,
                  row: nat, count: nat)
    requires a != b && a.Length == Offset(width, height) && b.Length == Offset(width', height')
    requires row < height && row < height' && count <= width && count <= width'
    modifies b
    ensures var g := Rows(old(b[..]), width', height');
            Rows(b[..], width', height') ==
            g[row := Rows(a[..], width, height)[row][..count] + g[row][count..]]
  {
    PartOfRow(a[..], width, height, row, 0, count);
    ghost var piece := Rows(a[..], width, height)[row][..count];
    ghost var covered := Rows(b[..], width', height')[row];
    assert covered[..0] + piece + covered[|piece|..] == piece + covered[count..];
    SpliceInRow(b[..], width', height', row, 0, piece);
    CopyCells(b, Offset(width', row), a, Offset(width, row), count);
  }

  method CopyResizedRow(a: array<Cell>, b: array<Cell>, width: nat, height: nat, width': nat, height': nat,
                        row: nat, style: Cell)
    requires a != b && a.Length == Offset(width, height) && b.Length == Offset(width', height')
    requires row < height && row < height' && Rows(b[..], width', height')[row] == BlankRow(style, width')
    modifies b
    ensures Rows(b[..], width', height') ==
            Rows(old(b[..]), width', height')[row := ResizeRow(Rows(a[..], width, height)[row], width', style)]
  {
    ghost var source := Rows(a[..], width, height)[row];
    CopyInto(a, b, width, height, width', height', row, if width' < width then width' else width);
    assert Rows(b[..], width', height')[row] ==
           if width' <= width then source[..width'] else source + BlankRow(style, width' - width);
    NormalizeRow(b, width', height', row, style);
  }

  /** A new store of other dimensions with the upper-left part of the old one. */
  method ResizedCells(a: array<Cell>, width: nat, height: nat, width': nat, height': nat, style: Cell)
    returns (b: array<Cell>)
    requires a.Length == Offset(width, height)
    ensures fresh(b) && b.Length == Offset(width', height')
    ensures Rows(b[..], width', height') == ResizeGrid(Rows(a[..], width, height), width', height', style)
  {
    b := NewCells(width', height', style);
    var copyHeight := if height' < height then height' else height;
    ghost var g := Rows(a[..], width, height);
    var row := 0;
    while row < copyHeight
      invariant 0 <= row <= copyHeight
      invariant PartlyResized(Rows(b[..], width', height'), g, width', row, style)
    {
      CopyResizedRow(a, b, width, height, width', height', row, style);
      row := row + 1;
    }
    AllResized(Rows(b[..], width', height'), g, width', height', style);
  }
}
