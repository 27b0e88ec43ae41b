/** Grids of cells as sequences of rows, the edits the screen makes on them, and the flat
    row-major layout in which a screen buffer stores them. */
module Grids {
  import opened Cells

  type Grid = seq<Row>

  predicate Fits(g: Grid, width: nat, height: nat) {
    && |g| == height
    && forall r | 0 <= r < height :: |g[r]| == width
  }

  predicate PairedGrid(g: Grid) {
    forall r | 0 <= r < |g| :: Paired(g[r])
  }

  function BlankGrid(style: Cell, width: nat, height: nat): (g: Grid)
    ensures Fits(g, width, height)
  {
    seq(height, r => BlankRow(style, width))
  }

  function Repeat(row: Row, count: nat): (g: Grid)
    ensures |g| == count && forall i | 0 <= i < count :: g[i] == row
  {
    seq(count, i => row)
  }

  /** Insert line: `count` blank rows enter at `top`, and the last `count` rows of the region
      [top, bottom] fall out of it. */
  function InsertRows(g: Grid, top: nat, bottom: nat, count: nat, blank: Row): (r: Grid)
    requires top <= bottom < |g| && count <= bottom + 1 - top
    ensures |r| == |g|
  {
    g[..top] + Repeat(blank, count) + g[top..bottom + 1 - count] + g[bottom + 1..]
  }

  /** Delete line: the first `count` rows of the region [top, bottom] go, and blank rows fill it
      up from below. */
  function DeleteRows(g: Grid, top: nat, bottom: nat, count: nat, blank: Row): (r: Grid)
    requires top <= bottom < |g| && count <= bottom + 1 - top
    ensures |r| == |g|
  {
    g[..top] + g[top + count..bottom + 1] + Repeat(blank, count) + g[bottom + 1..]
  }

  /** How much of row r comes before (row, column) in reading order. */
  function Before(width: nat, row: nat, column: nat, r: nat): (n: nat)
    requires column <= width
    ensures n <= width
  {
    if r < row then width else if r == row then column else 0
  }

  function RowFrom(was: Row, row: nat, column: nat, style: Cell, r: nat): (after: Row)
    requires column <= |was|
    ensures |after| == |was|
  {
    EraseRow(was, Before(|was|, row, column, r), |was|, style)
  }

  function RowUpTo(was: Row, row: nat, column: nat, style: Cell, r: nat): (after: Row)
    requires column <= |was|
    ensures |after| == |was|
  {
    EraseRow(was, 0, Before(|was|, row, column, r), style)
  }

  /** Blanks every cell from (row, column) to the end of the screen. */
  function EraseBelow(g: Grid, width: nat, row: nat, column: nat, style: Cell): (r: Grid)
    requires Fits(g, width, |g|) && column <= width
    ensures Fits(r, width, |g|)
  {
    seq(|g|, r requires 0 <= r < |g| => RowFrom(g[r], row, column, style, r))
  }

  /** Blanks every cell from the start of the screen up to (row, column), which it leaves. */
  function EraseAbove(g: Grid, width: nat, row: nat, column: nat, style: Cell): (r: Grid)
    requires Fits(g, width, |g|) && column <= width
    ensures Fits(r, width, |g|)
  {
    seq(|g|, r requires 0 <= r < |g| => RowUpTo(g[r], row, column, style, r))
  }

  /** The upper-left part of a grid, on a grid of other dimensions. */
  function ResizeGrid(g: Grid, width: nat, height: nat, style: Cell): (r: Grid)
    ensures Fits(r, width, height)
  {
    seq(height, r requires 0 <= r < height =>
      if r < |g| then ResizeRow(g[r], width, style) else BlankRow(style, width))
  }

  // ------------------------------------------------------------ laws of row edits

  /** Inserting lines and then deleting as many gives back the region without its last rows. */
  lemma InsertThenDeleteRows(g: Grid, top: nat, bottom: nat, count: nat, blank: Row)
    requires top <= bottom < |g| && count <= bottom + 1 - top
    ensures DeleteRows(InsertRows(g, top, bottom, count, blank), top, bottom, count, blank) ==
            g[..bottom + 1 - count] + Repeat(blank, count) + g[bottom + 1..]
  {
    var inserted := InsertRows(g, top, bottom, count, blank);
    assert inserted[..top] == g[..top];
    assert inserted[top + count..bottom + 1] == g[top..bottom + 1 - count];
    assert inserted[bottom + 1..] == g[bottom + 1..];
    assert g[..top] + g[top..bottom + 1 - count] == g[..bottom + 1 - count];
  }

  /** Deleting lines and then inserting as many gives back the region without its first rows. */
  lemma DeleteThenInsertRows(g: Grid, top: nat, bottom: nat, count: nat, blank: Row)
    requires top <= bottom < |g| && count <= bottom + 1 - top
    ensures InsertRows(DeleteRows(g, top, bottom, count, blank), top, bottom, count, blank) ==
            g[..top] + Repeat(blank, count) + g[top + count..]
  {
    var deleted := DeleteRows(g, top, bottom, count, blank);
    assert deleted[..top] == g[..top];
    assert deleted[top..bottom + 1 - count] == g[top + count..bottom + 1];
    assert deleted[bottom + 1..] == g[bottom + 1..];
    assert g[top + count..] == g[top + count..bottom + 1] + g[bottom + 1..];
  }

  /** How many rows of a region of `height` rows m and then n more are. */
  function Together(m: nat, n: nat, height: nat): nat {
    if m + n <= height then m + n else height
  }

  lemma InsertedAt(g: Grid, top: nat, bottom: nat, count: nat, blank: Row, k: nat)
    requires top <= bottom < |g| && count <= bottom + 1 - top && k < |g|
    ensures InsertRows(g, top, bottom, count, blank)[k] ==
            if k < top || k > bottom then g[k] else if k < top + count then blank else g[k - count]
  {
  }

  lemma DeletedAt(g: Grid, top: nat, bottom: nat, count: nat, blank: Row, k: nat)
    requires top <= bottom < |g| && count <= bottom + 1 - top && k < |g|
    ensures DeleteRows(g, top, bottom, count, blank)[k] ==
            if k < top || k > bottom then g[k] else if k + count <= bottom then g[k + count] else blank
  {
  }

  /** Inserting m rows and then n more is inserting m + n, or as many as the region has. */
  lemma RowInsertsAdd(g: Grid, top: nat, bottom: nat, m: nat, n: nat, blank: Row)
    requires top <= bottom < |g| && m <= bottom + 1 - top && n <= bottom + 1 - top
    ensures InsertRows(InsertRows(g, top, bottom, m, blank), top, bottom, n, blank) ==
            InsertRows(g, top, bottom, Together(m, n, bottom + 1 - top), blank)
  {
    var (once, both) := (InsertRows(g, top, bottom, m, blank), Together(m, n, bottom + 1 - top));
    forall k: nat | k < |g|
      ensures InsertRows(once, top, bottom, n, blank)[k] == InsertRows(g, top, bottom, both, blank)[k]
    {
      InsertedAt(once, top, bottom, n, blank, k);
      InsertedAt(g, top, bottom, both, blank, k);
      InsertedAt(g, top, bottom, m, blank, if top + n <= k <= bottom then k - n else k);
    }
  }

  /** The same for deleting. */
  lemma RowDeletesAdd(g: Grid, top: nat, bottom: nat, m: nat, n: nat, blank: Row)
    requires top <= bottom < |g| && m <= bottom + 1 - top && n <= bottom + 1 - top
    ensures DeleteRows(DeleteRows(g, top, bottom, m, blank), top, bottom, n, blank) ==
            DeleteRows(g, top, bottom, Together(m, n, bottom + 1 - top), blank)
  {
    var (once, both) := (DeleteRows(g, top, bottom, m, blank), Together(m, n, bottom + 1 - top));
    forall k: nat | k < |g|
      ensures DeleteRows(once, top, bottom, n, blank)[k] == DeleteRows(g, top, bottom, both, blank)[k]
    {
      DeletedAt(once, top, bottom, n, blank, k);
      DeletedAt(g, top, bottom, both, blank, k);
      DeletedAt(g, top, bottom, m, blank, if top <= k && k + n <= bottom then k + n else k);
    }
  }

  /** Widening and heightening a grid of paired rows and cutting it back restores it. */
  lemma ResizeGridRoundTrip(g: Grid, width: nat, height: nat, width': nat, height': nat, style: Cell, style': Cell)
    requires Fits(g, width, height) && PairedGrid(g)
    requires width <= width' && height <= height'
    ensures ResizeGrid(ResizeGrid(g, width', height', style), width, height, style') == g
  {
    forall r | 0 <= r < height
      ensures ResizeGrid(ResizeGrid(g, width', height', style), width, height, style')[r] == g[r]
    {
      ResizeRowRoundTrip(g[r], width', style, style');
    }
  }

  // ----------------------------------------------------------------- flat layout

  /** Where row r starts in a store of rows of this width: at r * width. */
  function Offset(width: nat, r: nat): nat {
    if r == 0 then 0 else Offset(width, r - 1) + width
  }

  lemma {:induction false} OffsetIsProduct(width: nat, r: nat)
    ensures Offset(width, r) == r * width
  {
    if r > 0 {
      OffsetIsProduct(width, r - 1);
      assert r * width == (r - 1) * width + width;
    }
  }

  lemma {:induction false} RowsBefore(width: nat, r: nat, r': nat)
    requires r <= r'
    ensures Offset(width, r) <= Offset(width, r')
    decreases r'
  {
    if r < r' {
      RowsBefore(width, r, r' - 1);
    }
  }

  lemma RowOrder(width: nat, r: nat, r': nat)
    requires r < r'
    ensures Offset(width, r) + width == Offset(width, r + 1) <= Offset(width, r')
  {
    RowsBefore(width, r + 1, r');
  }

  lemma RowStart(width: nat, height: nat, r: nat)
    requires r < height
    ensures Offset(width, r) + width <= Offset(width, height)
  {
    RowOrder(width, r, height);
  }

  ghost function StoredRow(cells: seq<Cell>, width: nat, height: nat, r: nat): (row: Row)
    requires |cells| == Offset(width, height) && r < height
    ensures |row| == width
  {
    RowStart(width, height, r);
    cells[Offset(width, r)..Offset(width, r) + width]
  }

  /** The rows stored one after the other in `cells`. */
  ghost function Rows(cells: seq<Cell>, width: nat, height: nat): (g: Grid)
    requires |cells| == Offset(width, height)
    ensures Fits(g, width, height)
  {
    seq(height, r requires 0 <= r < height => StoredRow(cells, width, height, r))
  }

  /** Overwrites the stretch of `cells` that starts at `at`. */
  ghost function Splice(cells: seq<Cell>, at: nat, piece: seq<Cell>): (r: seq<Cell>)
    requires at + |piece| <= |cells|
    ensures |r| == |cells|
  {
    cells[..at] + piece + cells[at + |piece|..]
  }

  lemma CellOfRows(cells: seq<Cell>, width: nat, height: nat, r: nat, c: nat)
    requires |cells| == Offset(width, height) && r < height && c < width
    ensures 0 <= Offset(width, r) + c < |cells|
    ensures Rows(cells, width, height)[r][c] == cells[Offset(width, r) + c]
  {
    RowStart(width, height, r);
  }

  lemma SplicedCell(cells: seq<Cell>, at: nat, piece: seq<Cell>, i: nat)
    requires at + |piece| <= |cells| && i < |cells|
    ensures Splice(cells, at, piece)[i] == if at <= i < at + |piece| then piece[i - at] else cells[i]
  {
  }

  lemma SpliceElsewhere(cells: seq<Cell>, width: nat, height: nat, r: nat, row: Row, k: nat)
    requires |cells| == Offset(width, height) && r < height && |row| == width && k < height
    requires Offset(width, r) + width <= |cells|
    ensures StoredRow(Splice(cells, Offset(width, r), row), width, height, k) ==
            if k == r then row else StoredRow(cells, width, height, k)
  {
    RowStart(width, height, k);
    if k < r { RowOrder(width, k, r); }
    if r < k { RowOrder(width, r, k); }
    var (start, was) := (Offset(width, k), StoredRow(cells, width, height, k));
    var after := StoredRow(Splice(cells, Offset(width, r), row), width, height, k);
    forall c: nat | c < width ensures after[c] == if k == r then row[c] else was[c] {
      SplicedCell(cells, Offset(width, r), row, start + c);
    }
  }

  /** Splicing a whole row into the store replaces that row of the grid. */
  lemma SpliceRow(cells: seq<Cell>, width: nat, height: nat, r: nat, row: Row)
    requires |cells| == Offset(width, height) && r < height && |row| == width
    ensures Offset(width, r) + width <= |cells|
    ensures Rows(Splice(cells, Offset(width, r), row), width, height) == Rows(cells, width, height)[r := row]
  {
    RowStart(width, height, r);
    var after := Splice(cells, Offset(width, r), row);
    forall k | 0 <= k < height
      ensures StoredRow(after, width, height, k) == if k == r then row else StoredRow(cells, width, height, k)
    {
      SpliceElsewhere(cells, width, height, r, row, k);
    }
  }

  /** A distance from the start of a row, kept on the row. */
  function Clip(x: int, width: nat): (c: nat)
    ensures c <= width
  {
    if x < 0 then 0 else if x > width then width else x
  }

  /** Blanking `count` cells of the store blanks each row where they lie on it. */
  lemma BlankedRow(cells: seq<Cell>, width: nat, height: nat, from: nat, count: nat, style: Cell, k: nat)
    requires |cells| == Offset(width, height) && k < height && from + count <= |cells|
    ensures var start := Offset(width, k);
            StoredRow(Splice(cells, from, BlankRow(style, count)), width, height, k) ==
            EraseRow(StoredRow(cells, width, height, k),
                     Clip(from - start, width), Clip(from + count - start, width), style)
  {
    RowStart(width, height, k);
    var (start, was) := (Offset(width, k), StoredRow(cells, width, height, k));
    var after := StoredRow(Splice(cells, from, BlankRow(style, count)), width, height, k);
    var erased := EraseRow(was, Clip(from - start, width), Clip(from + count - start, width), style);
    forall c: nat | c < width ensures after[c] == erased[c] {
      SplicedCell(cells, from, BlankRow(style, count), start + c);
      ErasedAt(was, Clip(from - start, width), Clip(from + count - start, width), style, c);
    }
  }

  /** Where a stretch that starts or ends at (row, column) does so on row k. */
  lemma ClipRow(width: nat, height: nat, row: nat, column: nat, k: nat)
    requires row < height && k < height && column <= width
    ensures Clip(Offset(width, row) + column - Offset(width, k), width) == Before(width, row, column, k)
    ensures Clip(Offset(width, height) - Offset(width, k), width) == width && Clip(0 - Offset(width, k), width) == 0
  {
    RowStart(width, height, k);
    if k < row { RowOrder(width, k, row); }
    if row < k { RowOrder(width, row, k); }
  }

  lemma BlankedBelow(cells: seq<Cell>, width: nat, height: nat, row: nat, column: nat, style: Cell, k: nat)
    requires |cells| == Offset(width, height) && row < height && column <= width && k < height
    requires Offset(width, row) + column <= |cells|
    ensures var at := Offset(width, row) + column;
            StoredRow(Splice(cells, at, BlankRow(style, |cells| - at)), width, height, k) ==
            RowFrom(StoredRow(cells, width, height, k), row, column, style, k)
  {
    var at := Offset(width, row) + column;
    BlankedRow(cells, width, height, at, |cells| - at, style, k);
    ClipRow(width, height, row, column, k);
  }

  /** Blanking the store from a cell on blanks the grid from there on. */
  lemma SpliceBelow(cells: seq<Cell>, width: nat, height: nat, row: nat, column: nat, style: Cell)
    requires |cells| == Offset(width, height) && row < height && column <= width
    ensures Offset(width, row) + column <= |cells|
    ensures var at := Offset(width, row) + column;
            Rows(Splice(cells, at, BlankRow(style, |cells| - at)), width, height) ==
            EraseBelow(Rows(cells, width, height), width, row, column, style)
  {
    RowStart(width, height, row);
    forall k | 0 <= k < height {
      BlankedBelow(cells, width, height, row, column, style, k);
    }
  }

  lemma BlankedAbove(cells: seq<Cell>, width: nat, height: nat, row: nat, column: nat, style: Cell, k: nat)
    requires |cells| == Offset(width, height) && row < height && column <= width && k < height
    requires Offset(width, row) + column <= |cells|
    ensures var to := Offset(width, row) + column;
            StoredRow(Splice(cells, 0, BlankRow(style, to)), width, height, k) ==
            RowUpTo(StoredRow(cells, width, height, k), row, column, style, k)
  {
    var to := Offset(width, row) + column;
    ClipRow(width, height, row, column, k);
    assert Clip(0 + to - Offset(width, k), width) == Before(width, row, column, k);
    BlankedRow(cells, width, height, 0, to, style, k);
  }

  /** Blanking the store up to a cell blanks the grid up to there. */
  lemma SpliceAbove(cells: seq<Cell>, width: nat, height: nat, row: nat, column: nat, style: Cell)
    requires |cells| == Offset(width, height) && row < height && column <= width
    ensures Offset(width, row) + column <= |cells|
    ensures var to := Offset(width, row) + column;
            Rows(Splice(cells, 0, BlankRow(style, to)), width, height) ==
            EraseAbove(Rows(cells, width, height), width, row, column, style)
  {
    RowStart(width, height, row);
    forall k | 0 <= k < height {
      BlankedAbove(cells, width, height, row, column, style, k);
    }
  }

  lemma BlankStore(style: Cell, width: nat, height: nat)
    ensures Rows(BlankRow(style, Offset(width, height)), width, height) == BlankGrid(style, width, height)
  {
    var cells := BlankRow(style, Offset(width, height));
    forall r | 0 <= r < height
      ensures Rows(cells, width, height)[r] == BlankGrid(style, width, height)[r]
    {
      RowStart(width, height, r);
    }
  }
}
