/** What the erasing and character-editing functions leave in every cell of the screen. */
module ScreenEdits {
  import opened Cells
  import opened Grids
  import opened ScreenModel

  function Plain(final: char, parameters: seq<Parameter>): Input {
    Csi(Command('\0', '\0', final), parameters)
  }

  /** Parameter `index` asks for `value`: it says so, or it is missing, left out or 0 and `value` is
      what counts then. */
  predicate Asks(parameters: seq<Parameter>, index: nat, value: nat, otherwise: nat) {
    if index < |parameters| && parameters[index].present && parameters[index].value > 0
    then value == parameters[index].value
    else value == otherwise
  }

  // --------------------------------------------------------------------- erasing

  /** Is (r, c) among the cells that ED with this mode erases? */
  predicate InDisplay(mode: nat, xterm: bool, cursor: Cursor, r: int, c: int) {
    if mode == 0 then r > cursor.row || (r == cursor.row && c >= cursor.column)
    else if mode == 1 then r < cursor.row || (r == cursor.row && c <= cursor.column)
    else mode == 2 || (mode == 3 && xterm)
  }

  /** The same for EL. */
  predicate InLine(mode: nat, cursor: Cursor, r: int, c: int) {
    r == cursor.row && ((mode == 0 && c >= cursor.column) || (mode == 1 && c <= cursor.column) || mode == 2)
  }

  /** The same for ECH; at least one cell, and no further than the right edge. */
  predicate InCharacters(count: nat, cursor: Cursor, r: int, c: int) {
    r == cursor.row && cursor.column <= c < cursor.column + count
  }

  /** A blank in the colours and attributes of a style. */
  function Space(style: Cell): Cell {
    Cell(" ", 1, style.foreground, style.background, style.attributes)
  }

  /** In `t` exactly the cells that satisfy `erased` are blank in the current style; every other
      cell, both cursors, the hidden buffer and everything else but the revision are as in `s`. */
  ghost predicate ErasedExactly(s: State, t: State, erased: (int, int) -> bool)
    requires Geometry(s) && Geometry(t)
  {
    var (b, b') := (ActiveBuffer(s), ActiveBuffer(t));
    && t == s.(screens := WithActive(s.screens, b'), log := t.log)
    && b'.cursor == b.cursor && b'.saved == b.saved
    && (forall r, c | 0 <= r < s.area.height && 0 <= c < s.area.width ::
          b'.grid[r][c] == if erased(r, c) then Space(s.pen.style) else b.grid[r][c])
  }

  lemma RowFromAt(was: Row, row: nat, column: nat, style: Cell, r: nat, c: nat)
    requires column <= |was| && c < |was|
    ensures RowFrom(was, row, column, style, r)[c] ==
            if r > row || (r == row && c >= column) then Blank(style) else was[c]
    ensures RowUpTo(was, row, column, style, r)[c] ==
            if r < row || (r == row && c < column) then Blank(style) else was[c]
  {
    ErasedAt(was, Before(|was|, row, column, r), |was|, style, c);
    ErasedAt(was, 0, Before(|was|, row, column, r), style, c);
  }

  lemma EraseDisplayAt(b: Buffer, a: Area, style: Cell, mode: nat, r: nat, c: nat)
    requires BufferFits(b, a) && mode <= 3 && r < a.height && c < a.width
    ensures EraseDisplay(b, a, style, mode).grid[r][c] ==
            if InDisplay(mode, true, b.cursor, r, c) then Blank(style) else b.grid[r][c]
  {
    if mode == 0 {
      RowFromAt(b.grid[r], b.cursor.row, b.cursor.column, style, r, c);
    } else if mode == 1 {
      RowFromAt(b.grid[r], b.cursor.row, b.cursor.column + 1, style, r, c);
    }
  }

  lemma DisplayStep(s: State, parameters: seq<Parameter>)
    requires Geometry(s)
    ensures var mode := Param(parameters, 0, 0);
            Step(s, Plain('J', parameters)) ==
            if mode <= 2 || (mode == 3 && s.profile.xterm)
            then Edited(s, EraseDisplay(ActiveBuffer(s), s.area, s.pen.style, mode)) else s
  {
  }

  /** ED blanks exactly the cells from the cursor on, up to and including the cursor, or all of them;
      3 is for XTerm only, and other modes do nothing. */
  lemma EraseDisplayCells(s: State, parameters: seq<Parameter>, mode: nat)
    requires Geometry(s) && Asks(parameters, 0, mode, 0)
    ensures var (cursor, xterm) := (ActiveBuffer(s).cursor, s.profile.xterm);
            ErasedExactly(s, Step(s, Plain('J', parameters)), (r, c) => InDisplay(mode, xterm, cursor, r, c))
  {
    DisplayStep(s, parameters);
    var b := ActiveBuffer(s);
    if mode <= 2 || (mode == 3 && s.profile.xterm) {
      forall r, c | 0 <= r < s.area.height && 0 <= c < s.area.width {
        EraseDisplayAt(b, s.area, s.pen.style, mode, r, c);
      }
    }
  }

  lemma EraseLineAt(b: Buffer, a: Area, style: Cell, mode: nat, r: nat, c: nat)
    requires BufferFits(b, a) && mode <= 2 && r < a.height && c < a.width
    ensures EraseLine(b, a, style, mode).grid[r][c] ==
            if InLine(mode, b.cursor, r, c) then Blank(style) else b.grid[r][c]
  {
    var (row, column) := (b.grid[b.cursor.row], b.cursor.column);
    ErasedAt(row, if mode == 0 then column else 0, if mode == 1 then column + 1 else a.width, style, c);
  }

  lemma LineStep(s: State, parameters: seq<Parameter>)
    requires Geometry(s)
    ensures var mode := Param(parameters, 0, 0);
            Step(s, Plain('K', parameters)) ==
            if mode <= 2 then Edited(s, EraseLine(ActiveBuffer(s), s.area, s.pen.style, mode)) else s
  {
  }

  /** EL does so on the cursor's line. */
  lemma EraseLineCells(s: State, parameters: seq<Parameter>, mode: nat)
    requires Geometry(s) && Asks(parameters, 0, mode, 0)
    ensures var cursor := ActiveBuffer(s).cursor;
            ErasedExactly(s, Step(s, Plain('K', parameters)), (r, c) => InLine(mode, cursor, r, c))
  {
    LineStep(s, parameters);
    var b := ActiveBuffer(s);
    if mode <= 2 {
      forall r, c | 0 <= r < s.area.height && 0 <= c < s.area.width {
        EraseLineAt(b, s.area, s.pen.style, mode, r, c);
      }
    }
  }

  lemma EraseCharactersAt(b: Buffer, a: Area, style: Cell, count: nat, r: nat, c: nat)
    requires BufferFits(b, a) && count > 0 && r < a.height && c < a.width
    ensures EraseCharacters(b, a, style, count).grid[r][c] ==
            if InCharacters(count, b.cursor, r, c) then Blank(style) else b.grid[r][c]
  {
    var column := b.cursor.column;
    ErasedAt(b.grid[b.cursor.row], column, column + CellCount(b, a, count), style, c);
  }

  lemma CharactersStep(s: State, parameters: seq<Parameter>, n: nat)
    requires Geometry(s) && Asks(parameters, 0, n, 1)
    ensures n > 0
    ensures Step(s, Plain('X', parameters)) ==
            Edited(s, EraseCharacters(ActiveBuffer(s), s.area, s.pen.style, n))
  {
  }

  /** ECH blanks as many cells from the cursor on, as far as the line goes; none counts as one. */
  lemma EraseCharactersCells(s: State, parameters: seq<Parameter>, n: nat)
    requires Geometry(s) && Asks(parameters, 0, n, 1)
    ensures var cursor := ActiveBuffer(s).cursor;
            ErasedExactly(s, Step(s, Plain('X', parameters)), (r, c) => InCharacters(n, cursor, r, c))
  {
    CharactersStep(s, parameters, n);
    forall r, c | 0 <= r < s.area.height && 0 <= c < s.area.width {
      EraseCharactersAt(ActiveBuffer(s), s.area, s.pen.style, n, r, c);
    }
  }

  // ---------------------------------------------------------- moving characters

  /** The cell that ICH brings to column c of a line, before halves that stand alone are blanked;
      beside the line a narrow one. */
  function CellAfterInsert(row: Row, column: nat, count: nat, style: Cell, c: int): Cell
    requires column + count <= |row|
  {
    if c < 0 || c >= |row| then DEFAULT_CELL
    else if c < column then row[c]
    else if c < column + count then Space(style)
    else row[c - count]
  }

  /** The same for DCH. */
  function CellAfterDelete(row: Row, column: nat, count: nat, style: Cell, c: int): Cell
    requires column + count <= |row|
  {
    if c < 0 || c >= |row| then DEFAULT_CELL
    else if c < column then row[c]
    else if c + count < |row| then row[c + count]
    else Space(style)
  }

  /** What becomes of a cell between its neighbours: a half of a wide character that stands alone is
      blanked. */
  function WholeOrBlank(left: Cell, cell: Cell, right: Cell, style: Cell): Cell {
    if (cell.width == 0 && left.width != 2) || (cell.width == 2 && right.width != 0) then Space(style) else cell
  }

  ghost predicate InsertedExactly(row: Row, after: Row, column: nat, count: nat, style: Cell)
    requires column + count <= |row| == |after|
  {
    forall c | 0 <= c < |row| ::
      after[c] == WholeOrBlank(CellAfterInsert(row, column, count, style, c - 1),
                               CellAfterInsert(row, column, count, style, c),
                               CellAfterInsert(row, column, count, style, c + 1), style)
  }

  ghost predicate DeletedExactly(row: Row, after: Row, column: nat, count: nat, style: Cell)
    requires column + count <= |row| == |after|
  {
    forall c | 0 <= c < |row| ::
      after[c] == WholeOrBlank(CellAfterDelete(row, column, count, style, c - 1),
                               CellAfterDelete(row, column, count, style, c),
                               CellAfterDelete(row, column, count, style, c + 1), style)
  }

  /** Only the cursor's line changes. */
  predicate OnlyLine(s: State, t: State)
    requires Geometry(s) && Geometry(t)
  {
    var (b, b') := (ActiveBuffer(s), ActiveBuffer(t));
    && t == s.(screens := WithActive(s.screens, b'), log := t.log) && |b'.grid| == |b.grid|
    && b' == b.(grid := b.grid[b.cursor.row := b'.grid[b.cursor.row]])
  }

  lemma NormalizedAt(row: Row, style: Cell, c: nat, left: Cell, right: Cell)
    requires c < |row|
    requires left == if c > 0 then row[c - 1] else DEFAULT_CELL
    requires right == if c + 1 < |row| then row[c + 1] else DEFAULT_CELL
    ensures Normalize(row, style)[c] == WholeOrBlank(left, row[c], right, style)
  {
  }

  lemma ShiftedAt(row: Row, column: nat, count: nat, style: Cell, c: nat)
    requires column + count <= |row| && c < |row|
    ensures (row[..column] + BlankRow(style, count) + row[column..|row| - count])[c] ==
            CellAfterInsert(row, column, count, style, c)
    ensures (row[..column] + row[column + count..] + BlankRow(style, count))[c] ==
            CellAfterDelete(row, column, count, style, c)
  {
  }

  /** A row is normalized cell by cell: `wanted` gives what stands where before. */
  lemma NormalizedCells(row: Row, style: Cell, wanted: int -> Cell, c: nat)
    requires c < |row| && wanted(-1) == wanted(|row|) == DEFAULT_CELL
    requires forall k: nat | k < |row| :: row[k] == wanted(k)
    ensures Normalize(row, style)[c] == WholeOrBlank(wanted(c - 1), wanted(c), wanted(c + 1), style)
  {
    NormalizedAt(row, style, c, wanted(c - 1), wanted(c + 1));
  }

  lemma InsertedRow(row: Row, column: nat, count: nat, style: Cell)
    requires column + count <= |row|
    ensures InsertedExactly(row, InsertCells(row, column, count, style), column, count, style)
  {
    forall c: nat | c < |row| {
      ShiftedAt(row, column, count, style, c);
    }
    forall c | 0 <= c < |row|
      ensures InsertCells(row, column, count, style)[c] ==
              WholeOrBlank(CellAfterInsert(row, column, count, style, c - 1),
                           CellAfterInsert(row, column, count, style, c),
                           CellAfterInsert(row, column, count, style, c + 1), style)
    {
      NormalizedCells(row[..column] + BlankRow(style, count) + row[column..|row| - count], style,
                      k => CellAfterInsert(row, column, count, style, k), c);
    }
  }

  lemma DeletedRow(row: Row, column: nat, count: nat, style: Cell)
    requires column + count <= |row|
    ensures DeletedExactly(row, DeleteCells(row, column, count, style), column, count, style)
  {
    forall c: nat | c < |row| {
      ShiftedAt(row, column, count, style, c);
    }
    forall c | 0 <= c < |row|
      ensures DeleteCells(row, column, count, style)[c] ==
              WholeOrBlank(CellAfterDelete(row, column, count, style, c - 1),
                           CellAfterDelete(row, column, count, style, c),
                           CellAfterDelete(row, column, count, style, c + 1), style)
    {
      NormalizedCells(row[..column] + row[column + count..] + BlankRow(style, count), style,
                      k => CellAfterDelete(row, column, count, style, k), c);
    }
  }

  lemma RowEdited(s: State, row: Row)
    requires Geometry(s) && |row| == s.area.width
    ensures var t := Edited(s, WithRow(ActiveBuffer(s), s.area, row));
            OnlyLine(s, t) && ActiveBuffer(t).grid[ActiveBuffer(s).cursor.row] == row
  {
  }

  /** How far `count` columns from the cursor on go. */
  function OnLine(s: State, count: nat): (n: nat)
    requires Geometry(s)
    ensures ActiveBuffer(s).cursor.column + n <= s.area.width
  {
    if count <= s.area.width - ActiveBuffer(s).cursor.column then count
    else s.area.width - ActiveBuffer(s).cursor.column
  }

  lemma InsertStep(s: State, parameters: seq<Parameter>, count: nat)
    requires Geometry(s) && Asks(parameters, 0, count, 1)
    ensures var b := ActiveBuffer(s);
            Step(s, Plain('@', parameters)) ==
            Edited(s, WithRow(b, s.area, InsertCells(b.grid[b.cursor.row], b.cursor.column, OnLine(s, count),
                                                     s.pen.style)))
  {
  }

  lemma DeleteStep(s: State, parameters: seq<Parameter>, count: nat)
    requires Geometry(s) && Asks(parameters, 0, count, 1)
    ensures var b := ActiveBuffer(s);
            Step(s, Plain('P', parameters)) ==
            Edited(s, WithRow(b, s.area, DeleteCells(b.grid[b.cursor.row], b.cursor.column, OnLine(s, count),
                                                     s.pen.style)))
  {
  }

  /** ICH moves the cells from the cursor on to the right by as many columns, as far as the line
      goes, and blanks those it leaves; none counts as one. */
  lemma InsertCharactersCells(s: State, parameters: seq<Parameter>, count: nat)
    requires Geometry(s) && Asks(parameters, 0, count, 1)
    ensures var (b, t) := (ActiveBuffer(s), Step(s, Plain('@', parameters)));
            && OnlyLine(s, t)
            && InsertedExactly(b.grid[b.cursor.row], ActiveBuffer(t).grid[b.cursor.row],
                               b.cursor.column, OnLine(s, count), s.pen.style)
  {
    InsertStep(s, parameters, count);
    var (b, n) := (ActiveBuffer(s), OnLine(s, count));
    InsertedRow(b.grid[b.cursor.row], b.cursor.column, n, s.pen.style);
    RowEdited(s, InsertCells(b.grid[b.cursor.row], b.cursor.column, n, s.pen.style));
  }

  /** DCH moves the cells behind those deleted to the left and blanks the end of the line. */
  lemma DeleteCharactersCells(s: State, parameters: seq<Parameter>, count: nat)
    requires Geometry(s) && Asks(parameters, 0, count, 1)
    ensures var (b, t) := (ActiveBuffer(s), Step(s, Plain('P', parameters)));
            && OnlyLine(s, t)
            && DeletedExactly(b.grid[b.cursor.row], ActiveBuffer(t).grid[b.cursor.row],
                              b.cursor.column, OnLine(s, count), s.pen.style)
  {
    DeleteStep(s, parameters, count);
    var (b, n) := (ActiveBuffer(s), OnLine(s, count));
    DeletedRow(b.grid[b.cursor.row], b.cursor.column, n, s.pen.style);
    RowEdited(s, DeleteCells(b.grid[b.cursor.row], b.cursor.column, n, s.pen.style));
  }
}
