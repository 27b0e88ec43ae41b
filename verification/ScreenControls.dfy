/** Where every control function takes the cursor, and what those that move lines leave in every row. */
module ScreenControls {
  import opened Cells
  import opened Grids
  import opened Options
  import opened ScreenModel
  import opened ScreenEdits

  function Control(code: nat): Input {
    Execute(code)
  }

  function Simple(final: char): Input {
    Escape(Command('\0', '\0', final))
  }

  // ------------------------------------------------------------------ the cursor

  /** In `t` the cursor is at (row, column) and there is one more revision; everything else but the
      pending wrap is as in `s`. */
  predicate CursorMoved(s: State, t: State, row: int, column: int, pending: bool)
    requires Geometry(s) && Geometry(t)
  {
    var b := ActiveBuffer(s);
    && t == s.(screens := t.screens, wrap := s.wrap.(pending := pending),
               log := s.log.(revision := s.log.revision + 1))
    && t.screens == WithActive(s.screens, b.(cursor := Cursor(column, row, b.cursor.visible)))
  }

  predicate CursorAt(s: State, t: State, row: int, column: int)
    requires Geometry(s) && Geometry(t)
  {
    CursorMoved(s, t, row, column, false)
  }

  lemma MovementStep(s: State, final: char, parameters: seq<Parameter>, row: int, column: int)
    requires Geometry(s) && IsMovement(final)
    requires Destination(ActiveBuffer(s), s.area, final, parameters) == Some((row, column))
    ensures CursorAt(s, Step(s, Plain(final, parameters)), row, column)
  {
  }

  /** CUU, CUD, CUF and CUB stop at the edges of the screen. */
  lemma RelativeMoves(s: State, parameters: seq<Parameter>, n: nat)
    requires Geometry(s) && Asks(parameters, 0, n, 1)
    ensures var (row, column) := (ActiveBuffer(s).cursor.row, ActiveBuffer(s).cursor.column);
            var (height, width) := (s.area.height, s.area.width);
            && CursorAt(s, Step(s, Plain('A', parameters)), if n <= row then row - n else 0, column)
            && CursorAt(s, Step(s, Plain('B', parameters)), if row + n < height then row + n else height - 1, column)
            && CursorAt(s, Step(s, Plain('C', parameters)), row, if column + n < width then column + n else width - 1)
            && CursorAt(s, Step(s, Plain('D', parameters)), row, if n <= column then column - n else 0)
  {
    var (row, column) := (ActiveBuffer(s).cursor.row, ActiveBuffer(s).cursor.column);
    var (height, width) := (s.area.height, s.area.width);
    MovementStep(s, 'A', parameters, if n <= row then row - n else 0, column);
    MovementStep(s, 'B', parameters, if row + n < height then row + n else height - 1, column);
    MovementStep(s, 'C', parameters, row, if column + n < width then column + n else width - 1);
    MovementStep(s, 'D', parameters, row, if n <= column then column - n else 0);
  }

  /** CHA, CUP and HVP take positions that start at 1; one beyond the screen is its edge. */
  lemma AbsoluteMoves(s: State, parameters: seq<Parameter>, first: nat, second: nat)
    requires Geometry(s) && Asks(parameters, 0, first, 1) && Asks(parameters, 1, second, 1)
    ensures var (height, width) := (s.area.height, s.area.width);
            var row := if first <= height then first - 1 else height - 1;
            var column := if second <= width then second - 1 else width - 1;
            && CursorAt(s, Step(s, Plain('G', parameters)), ActiveBuffer(s).cursor.row,
                        if first <= width then first - 1 else width - 1)
            && CursorAt(s, Step(s, Plain('H', parameters)), row, column)
            && CursorAt(s, Step(s, Plain('f', parameters)), row, column)
  {
    var (height, width) := (s.area.height, s.area.width);
    var row := if first <= height then first - 1 else height - 1;
    var column := if second <= width then second - 1 else width - 1;
    MovementStep(s, 'G', parameters, ActiveBuffer(s).cursor.row, if first <= width then first - 1 else width - 1);
    MovementStep(s, 'H', parameters, row, column);
    MovementStep(s, 'f', parameters, row, column);
  }

  /** BS goes back one column, CR to the first one, and HT to the next that is a multiple of 8; none
      of them leaves the row. */
  lemma ControlMoves(s: State, tab: int)
    requires Geometry(s) && tab % 8 == 0 && ActiveBuffer(s).cursor.column < tab <= ActiveBuffer(s).cursor.column + 8
    ensures var (row, column) := (ActiveBuffer(s).cursor.row, ActiveBuffer(s).cursor.column);
            && CursorAt(s, Step(s, Control(0x08)), row, if column > 0 then column - 1 else 0)
            && CursorAt(s, Step(s, Control(0x09)), row, if tab < s.area.width then tab else s.area.width - 1)
            && CursorAt(s, Step(s, Control(0x0D)), row, 0)
  {
    assert (ActiveBuffer(s).cursor.column / 8 + 1) * 8 == tab;
  }

  /** DECSC saves position and visibility, and DECRC brings them back and ends a pending wrap. */
  lemma SavedCursor(s: State)
    requires Geometry(s)
    ensures var b := ActiveBuffer(s);
            && Step(s, Simple('7')) == s.(screens := WithActive(s.screens, Buffer(b.grid, b.cursor, b.cursor)))
            && Step(s, Simple('8')) ==
               s.(screens := WithActive(s.screens, Buffer(b.grid, b.saved, b.saved)),
                  wrap := s.wrap.(pending := false), log := s.log.(revision := s.log.revision + 1))
  {
  }

  /** DECSTBM sets the region from one row to another below it, and takes the cursor home; any other
      pair changes nothing. */
  lemma ScrollRegion(s: State, parameters: seq<Parameter>, first: nat, last: nat)
    requires Geometry(s) && Asks(parameters, 0, first, 1) && Asks(parameters, 1, last, s.area.height)
    ensures var t := Step(s, Plain('r', parameters));
            if first < last <= s.area.height
            then CursorAt(s.(area := Area(s.area.width, s.area.height, first - 1, last - 1)), t, 0, 0)
            else t == s
  {
  }

  // ----------------------------------------------------------------- moving lines

  /** Row r when those from `top` to `bottom` move up by n, with blank ones behind them. */
  function RowUp(g: Grid, style: Cell, top: nat, bottom: nat, n: nat, r: nat): Row
    requires r < |g| && bottom < |g|
  {
    if r < top || r > bottom then g[r]
    else if r + n <= bottom then g[r + n]
    else seq(|g[r]|, i => Space(style))
  }

  /** The same down. */
  function RowDown(g: Grid, style: Cell, top: nat, bottom: nat, n: nat, r: nat): Row
    requires r < |g| && bottom < |g|
  {
    if r < top || r > bottom then g[r]
    else if r >= top + n then g[r - n]
    else seq(|g[r]|, i => Space(style))
  }

  /** In `t` the screen has other rows, the cursor is in this column and there is one more revision;
      everything else but the pending wrap is as in `s`. */
  predicate OnlyRows(s: State, t: State, column: int, pending: bool)
    requires Geometry(s) && Geometry(t)
  {
    var (b, b') := (ActiveBuffer(s), ActiveBuffer(t));
    && t == s.(screens := t.screens, wrap := s.wrap.(pending := pending),
               log := s.log.(revision := s.log.revision + 1))
    && t.screens == WithActive(s.screens, b.(grid := b'.grid, cursor := b.cursor.(column := column)))
  }

  ghost predicate RowsUp(s: State, t: State, top: nat, n: nat, column: int, pending: bool)
    requires Geometry(s) && Geometry(t)
  {
    var (g, g') := (ActiveBuffer(s).grid, ActiveBuffer(t).grid);
    && OnlyRows(s, t, column, pending) && |g'| == |g|
    && forall r: nat | r < |g| :: g'[r] == RowUp(g, s.pen.style, top, s.area.bottom, n, r)
  }

  ghost predicate RowsDown(s: State, t: State, top: nat, n: nat, column: int, pending: bool)
    requires Geometry(s) && Geometry(t)
  {
    var (g, g') := (ActiveBuffer(s).grid, ActiveBuffer(t).grid);
    && OnlyRows(s, t, column, pending) && |g'| == |g|
    && forall r: nat | r < |g| :: g'[r] == RowDown(g, s.pen.style, top, s.area.bottom, n, r)
  }

  lemma RowUpIs(g: Grid, width: nat, style: Cell, top: nat, bottom: nat, n: nat, count: nat, r: nat)
    requires Fits(g, width, |g|) && top <= bottom < |g| && r < |g|
    requires count == if n <= bottom + 1 - top then n else bottom + 1 - top
    ensures DeleteRows(g, top, bottom, count, BlankRow(style, width))[r] == RowUp(g, style, top, bottom, n, r)
  {
    DeletedAt(g, top, bottom, count, BlankRow(style, width), r);
  }

  lemma RowDownIs(g: Grid, width: nat, style: Cell, top: nat, bottom: nat, n: nat, count: nat, r: nat)
    requires Fits(g, width, |g|) && top <= bottom < |g| && r < |g|
    requires count == if n <= bottom + 1 - top then n else bottom + 1 - top
    ensures InsertRows(g, top, bottom, count, BlankRow(style, width))[r] == RowDown(g, style, top, bottom, n, r)
  {
    InsertedAt(g, top, bottom, count, BlankRow(style, width), r);
  }

  lemma UpMoves(s: State, t: State, top: nat, n: nat, count: nat, column: int, pending: bool)
    requires Geometry(s) && Geometry(t) && OnlyRows(s, t, column, pending)
    requires top <= s.area.bottom
    requires count == if n <= s.area.bottom + 1 - top then n else s.area.bottom + 1 - top
    requires ActiveBuffer(t).grid == DeleteRows(ActiveBuffer(s).grid, top, s.area.bottom, count,
                                                BlankRow(s.pen.style, s.area.width))
    ensures RowsUp(s, t, top, n, column, pending)
  {
    forall r: nat | r < s.area.height {
      RowUpIs(ActiveBuffer(s).grid, s.area.width, s.pen.style, top, s.area.bottom, n, count, r);
    }
  }

  lemma DownMoves(s: State, t: State, top: nat, n: nat, count: nat, column: int, pending: bool)
    requires Geometry(s) && Geometry(t) && OnlyRows(s, t, column, pending)
    requires top <= s.area.bottom
    requires count == if n <= s.area.bottom + 1 - top then n else s.area.bottom + 1 - top
    requires ActiveBuffer(t).grid == InsertRows(ActiveBuffer(s).grid, top, s.area.bottom, count,
                                                BlankRow(s.pen.style, s.area.width))
    ensures RowsDown(s, t, top, n, column, pending)
  {
    forall r: nat | r < s.area.height {
      RowDownIs(ActiveBuffer(s).grid, s.area.width, s.pen.style, top, s.area.bottom, n, count, r);
    }
  }

  /** LF, VT and FF move down a row, unless the cursor is on the bottom margin, where the region
      moves up instead, or in the last row. They end a pending wrap. */
  lemma LineFeeds(s: State, control: nat)
    requires Geometry(s) && 0x0A <= control <= 0x0C
    ensures var (row, column) := (ActiveBuffer(s).cursor.row, ActiveBuffer(s).cursor.column);
            var t := Step(s, Control(control));
            if row == s.area.bottom then RowsUp(s, t, s.area.top, 1, column, false)
            else CursorAt(s, t, if row + 1 < s.area.height then row + 1 else row, column)
  {
    if ActiveBuffer(s).cursor.row == s.area.bottom {
      UpMoves(s, Step(s, Control(control)), s.area.top, 1, 1, ActiveBuffer(s).cursor.column, false);
    }
  }

  /** IND does the same, and NEL also goes to the first column; they leave a wrap pending. */
  lemma NextLines(s: State)
    requires Geometry(s)
    ensures var (row, column) := (ActiveBuffer(s).cursor.row, ActiveBuffer(s).cursor.column);
            var (index, next) := (Step(s, Simple('D')), Step(s, Simple('E')));
            if row == s.area.bottom then
              && RowsUp(s, index, s.area.top, 1, column, s.wrap.pending)
              && RowsUp(s, next, s.area.top, 1, 0, s.wrap.pending)
            else
              var below := if row + 1 < s.area.height then row + 1 else row;
              && CursorMoved(s, index, below, column, s.wrap.pending)
              && CursorMoved(s, next, below, 0, s.wrap.pending)
  {
    if ActiveBuffer(s).cursor.row == s.area.bottom {
      UpMoves(s, Step(s, Simple('D')), s.area.top, 1, 1, ActiveBuffer(s).cursor.column, s.wrap.pending);
      UpMoves(s, Step(s, Simple('E')), s.area.top, 1, 1, 0, s.wrap.pending);
    }
  }

  /** RI moves up a row, unless the cursor is on the top margin, where the region moves down
      instead, or in the first row. */
  lemma ReverseLineFeed(s: State)
    requires Geometry(s)
    ensures var (row, column) := (ActiveBuffer(s).cursor.row, ActiveBuffer(s).cursor.column);
            if row == s.area.top then RowsDown(s, Step(s, Simple('M')), s.area.top, 1, column, s.wrap.pending)
            else CursorMoved(s, Step(s, Simple('M')), if row > 0 then row - 1 else 0, column, s.wrap.pending)
  {
    if ActiveBuffer(s).cursor.row == s.area.top {
      DownMoves(s, Step(s, Simple('M')), s.area.top, 1, 1, ActiveBuffer(s).cursor.column, s.wrap.pending);
    }
  }

  /** How many of n lines lie between the cursor and the bottom margin. */
  function ToMargin(s: State, n: nat): nat
    requires Geometry(s) && InRegion(ActiveBuffer(s), s.area)
  {
    var left := s.area.bottom + 1 - ActiveBuffer(s).cursor.row;
    if n <= left then n else left
  }

  lemma LinesStep(s: State, parameters: seq<Parameter>, n: nat)
    requires Geometry(s) && Asks(parameters, 0, n, 1)
    ensures var b := ActiveBuffer(s);
            if InRegion(b, s.area) then
              var blank := BlankRow(s.pen.style, s.area.width);
              && Step(s, Plain('L', parameters)) ==
                 Edited(s, b.(grid := InsertRows(b.grid, b.cursor.row, s.area.bottom, ToMargin(s, n), blank)))
              && Step(s, Plain('M', parameters)) ==
                 Edited(s, b.(grid := DeleteRows(b.grid, b.cursor.row, s.area.bottom, ToMargin(s, n), blank)))
            else Step(s, Plain('L', parameters)) == s && Step(s, Plain('M', parameters)) == s
  {
  }

  lemma GridEdited(s: State, g: Grid)
    requires Geometry(s) && Fits(g, s.area.width, s.area.height)
    ensures var t := Edited(s, ActiveBuffer(s).(grid := g));
            OnlyRows(s, t, ActiveBuffer(s).cursor.column, s.wrap.pending) && ActiveBuffer(t).grid == g
  {
  }

  /** IL moves the lines from the cursor to the bottom margin down; outside the region it does
      nothing. */
  lemma InsertLinesRows(s: State, parameters: seq<Parameter>, n: nat)
    requires Geometry(s) && Asks(parameters, 0, n, 1)
    ensures var (row, column) := (ActiveBuffer(s).cursor.row, ActiveBuffer(s).cursor.column);
            var t := Step(s, Plain('L', parameters));
            if s.area.top <= row <= s.area.bottom then RowsDown(s, t, row, n, column, s.wrap.pending) else t == s
  {
    LinesStep(s, parameters, n);
    var (b, t) := (ActiveBuffer(s), Step(s, Plain('L', parameters)));
    if InRegion(b, s.area) {
      GridEdited(s, InsertRows(b.grid, b.cursor.row, s.area.bottom, ToMargin(s, n),
                               BlankRow(s.pen.style, s.area.width)));
      DownMoves(s, t, b.cursor.row, n, ToMargin(s, n), b.cursor.column, s.wrap.pending);
    }
  }

  /** DL moves those behind the lines it deletes up. */
  lemma DeleteLinesRows(s: State, parameters: seq<Parameter>, n: nat)
    requires Geometry(s) && Asks(parameters, 0, n, 1)
    ensures var (row, column) := (ActiveBuffer(s).cursor.row, ActiveBuffer(s).cursor.column);
            var t := Step(s, Plain('M', parameters));
            if s.area.top <= row <= s.area.bottom then RowsUp(s, t, row, n, column, s.wrap.pending) else t == s
  {
    LinesStep(s, parameters, n);
    var (b, t) := (ActiveBuffer(s), Step(s, Plain('M', parameters)));
    if InRegion(b, s.area) {
      GridEdited(s, DeleteRows(b.grid, b.cursor.row, s.area.bottom, ToMargin(s, n),
                               BlankRow(s.pen.style, s.area.width)));
      UpMoves(s, t, b.cursor.row, n, ToMargin(s, n), b.cursor.column, s.wrap.pending);
    }
  }
}
