/** What printing one rune does on any screen: the cells it takes, the cursor, and when it starts a
    new line. */
module ScreenAddressing {
  import opened Cells
  import opened Grids
  import opened Options
  import opened ScreenModel
  import opened ScreenEdits
  import opened ScreenControls
  import opened ScreenRevision

  // ------------------------------------------------------------- the cells of a rune

  /** Is column c the other half of a wide character that covers `at`? On a row with halves that
      stand alone, there may be none. */
  predicate OtherHalf(row: Row, at: int, c: int)
    requires 0 <= at < |row| && 0 <= c < |row|
  {
    || (c == at - 1 && row[at].width == 0 && row[c].width == 2)
    || (c == at + 1 && row[at].width == 2 && row[c].width == 0)
  }

  /** What is in column c when a rune of one or two columns is put at `at`: the halves of wide
      characters that it leaves alone are blanked, and every other cell is as it was. */
  function CellWithRune(row: Row, at: nat, rune: char, size: int, style: Cell, c: nat): Cell
    requires 1 <= size <= 2 && at + size <= |row| && c < |row|
  {
    if c == at then Cell([rune], size, style.foreground, style.background, style.attributes)
    else if c == at + 1 && size == 2 then Cell("", 0, style.foreground, style.background, style.attributes)
    else if OtherHalf(row, at, c) || (size == 2 && OtherHalf(row, at + 1, c)) then Space(style)
    else row[c]
  }

  lemma ClearedAt(row: Row, at: nat, style: Cell, c: nat)
    requires at < |row| && c < |row| && c != at
    ensures ClearWide(row, at, style)[c] == if OtherHalf(row, at, c) then Space(style) else row[c]
  {
  }

  lemma ClearedTwiceAt(row: Row, at: nat, style: Cell, c: nat)
    requires at + 1 < |row| && c < |row| && c != at && c != at + 1
    ensures ClearWide(ClearWide(row, at, style), at + 1, style)[c] ==
            if OtherHalf(row, at, c) || OtherHalf(row, at + 1, c) then Space(style) else row[c]
  {
    var once := ClearWide(row, at, style);
    ClearedAt(row, at, style, c);
    ClearedAt(row, at, style, at + 1);
    ClearedAt(once, at + 1, style, c);
  }

  lemma PutAt(row: Row, at: nat, rune: char, size: int, style: Cell, c: nat)
    requires 1 <= size <= 2 && at + size <= |row| && c < |row|
    ensures PutRune(row, at, rune, size, style)[c] == CellWithRune(row, at, rune, size, style, c)
  {
    var once := ClearWide(row, at, style);
    if c != at && size == 1 {
      ClearedAt(row, at, style, c);
    } else if c != at && c != at + 1 {
      ClearedTwiceAt(row, at, style, c);
    }
  }

  /** The row the rune goes to, with room made for it in insert mode. */
  function RoomFor(s: State, size: nat): (r: Row)
    requires Geometry(s) && ActiveBuffer(s).cursor.column + size <= s.area.width
    ensures |r| == s.area.width
  {
    var b := ActiveBuffer(s);
    var row := b.grid[b.cursor.row];
    if s.pen.insertMode then InsertCells(row, b.cursor.column, size, s.pen.style) else row
  }

  /** In `t` the rune shows where the cursor of `s` is, and the cursor has moved past it, or stays in
      the last column with a wrap pending if there is wrapping. Nothing else changes. */
  ghost predicate PrintsHere(s: State, t: State, rune: char, size: int)
    requires Geometry(s) && Geometry(t) && 1 <= size <= 2 && ActiveBuffer(s).cursor.column + size <= s.area.width
  {
    var (b, b') := (ActiveBuffer(s), ActiveBuffer(t));
    var (row, column, width) := (b.cursor.row, b.cursor.column, s.area.width);
    && t == s.(screens := WithActive(s.screens, b'), wrap := t.wrap, log := s.log.(revision := t.log.revision))
    && |b'.grid| == |b.grid| && b' == Buffer(b.grid[row := b'.grid[row]], b'.cursor, b.saved)
    && (forall c: nat | c < width ::
          b'.grid[row][c] == CellWithRune(RoomFor(s, size), column, rune, size, s.pen.style, c))
    && b'.cursor == b.cursor.(column := if column + size < width then column + size else width - 1)
    && t.wrap == Wrap(s.wrap.auto && column + size == width, s.wrap.auto)
  }

  lemma PlacedRow(s: State, rune: char, size: int)
    requires Geometry(s) && !s.wrap.pending
    requires 1 <= size <= 2 && ActiveBuffer(s).cursor.column + size <= s.area.width
    ensures var (b, t) := (ActiveBuffer(s), Place(s, rune, size));
            var (row, column, width) := (b.cursor.row, b.cursor.column, s.area.width);
            && t == s.(screens := WithActive(s.screens, ActiveBuffer(t)), wrap := t.wrap, log := Bump(s.log))
            && ActiveBuffer(t) ==
               Buffer(b.grid[row := PutRune(b.grid[row], column, rune, size, s.pen.style)],
                      b.cursor.(column := if column + size < width then column + size else width - 1),
                      b.saved)
            && t.wrap == Wrap(s.wrap.auto && column + size == width, s.wrap.auto)
  {
  }

  // ------------------------------------------------------------------ where it prints

  /** On XTerm a rune has the width measured, if that is 0, 1 or 2; any other has width 1. */
  predicate Measures(s: State, measured: int, size: int) {
    size == if s.profile.xterm && 0 <= measured <= 2 then measured else 1
  }

  lemma PrintStep(s: State, rune: char, measured: int, size: int)
    requires Geometry(s) && !s.wrap.pending && Measures(s, measured, size)
    requires 1 <= size && ActiveBuffer(s).cursor.column + size <= s.area.width
    ensures Step(s, Print(rune, measured)) == Place(Opened(s, size), Translate(s.pen, rune), size)
  {
    assert WrapFor(s, size) == s && FinalSize(s, size) == size;
  }

  lemma OpenedRow(s: State, size: nat)
    requires Geometry(s) && 1 <= size && ActiveBuffer(s).cursor.column + size <= s.area.width
    ensures var (b, room) := (ActiveBuffer(s), Opened(s, size));
            && room == s.(screens := WithActive(s.screens, ActiveBuffer(room)), log := room.log)
            && room.log == s.log.(revision := room.log.revision)
            && ActiveBuffer(room) == b.(grid := b.grid[b.cursor.row := RoomFor(s, size)])
  {
  }

  /** With no wrap pending and enough columns left, a rune shows at the cursor. */
  lemma PrintsAtCursor(s: State, rune: char, measured: int, size: int)
    requires Geometry(s) && !s.wrap.pending && Measures(s, measured, size)
    requires 1 <= size && ActiveBuffer(s).cursor.column + size <= s.area.width
    ensures PrintsHere(s, Step(s, Print(rune, measured)), Translate(s.pen, rune), size)
  {
    PrintStep(s, rune, measured, size);
    OpenedRow(s, size);
    PlacedRow(Opened(s, size), Translate(s.pen, rune), size);
    var (b, shown) := (ActiveBuffer(s), Translate(s.pen, rune));
    forall c: nat | c < s.area.width {
      PutAt(RoomFor(s, size), b.cursor.column, shown, size, s.pen.style, c);
    }
  }

  function Addressing(row: nat, column: nat): Input {
    Plain('H', [Parameter(row, true, false), Parameter(column, true, false)])
  }

  /** CUP and a rune: the rune shows at the one-based position given, whatever the screen shows and
      whatever was pending before. */
  lemma AddressedPrint(s: State, row: nat, column: nat, rune: char, measured: int, size: int)
    requires Geometry(s) && Measures(s, measured, size) && size >= 1
    requires 1 <= row <= s.area.height && 1 <= column && column - 1 + size <= s.area.width
    ensures var there := Step(s, Addressing(row, column));
            && CursorAt(s, there, row - 1, column - 1)
            && PrintsHere(there, Step(there, Print(rune, measured)), Translate(s.pen, rune), size)
  {
    AbsoluteMoves(s, [Parameter(row, true, false), Parameter(column, true, false)], row, column);
    PrintsAtCursor(Step(s, Addressing(row, column)), rune, measured, size);
  }

  lemma NewLine(s: State, width: int)
    requires Geometry(s)
    requires s.wrap.pending ||
             (width == 2 && ActiveBuffer(s).cursor.column == s.area.width - 1 && s.wrap.auto)
    ensures Step(Step(s, Execute(0x0D)), Execute(0x0A)) == Shift(WrapFor(s, width), 1)
  {
  }

  lemma WrapsOnce(s: State, width: int)
    requires Geometry(s) && 1 <= width <= s.area.width && width <= 2
    requires s.wrap.pending ||
             (width == 2 && ActiveBuffer(s).cursor.column == s.area.width - 1 && s.wrap.auto)
    ensures WrapFor(WrapFor(s, width), width) == WrapFor(s, width)
    ensures WrapFor(s, width).pen == s.pen && WrapFor(s, width).profile == s.profile
  {
  }

  lemma PrintAfterWrap(s: State, once: State, rune: char, measured: int, fitting: int)
    requires Geometry(s) && Geometry(once) && once == WrapFor(s, fitting) == WrapFor(once, fitting)
    requires once.pen == s.pen && once.profile == s.profile && once.area == s.area && fitting >= 1
    requires var size := MeasuredWidth(s, measured); size > 0 && fitting == if size > s.area.width then 1 else size
    ensures Step(once, Print(rune, measured)) == Step(s, Print(rune, measured))
  {
    assert PrintSpacing(once, Translate(s.pen, rune), fitting) == PrintSpacing(s, Translate(s.pen, rune), fitting);
  }

  /** A rune starts a new line, as CR and LF do, if a wrap is pending, or if it is wide and only the
      last column is left. */
  lemma WrapIsNewLine(s: State, rune: char, measured: int, size: int)
    requires Geometry(s) && Measures(s, measured, size) && size >= 1
    requires s.wrap.pending ||
             (size == 2 <= s.area.width && ActiveBuffer(s).cursor.column == s.area.width - 1 && s.wrap.auto)
    ensures Step(Step(Step(s, Execute(0x0D)), Execute(0x0A)), Print(rune, measured)) ==
            Shift(Step(s, Print(rune, measured)), 1)
  {
    var fitting := if size > s.area.width then 1 else size;
    NewLine(s, fitting);
    WrapsOnce(s, fitting);
    PrintAfterWrap(s, WrapFor(s, fitting), rune, measured, fitting);
    StepShift(WrapFor(s, fitting), Print(rune, measured), 1);
  }

  /** A wide rune for which there is no room at all takes one column. */
  lemma WideTakesOne(s: State, rune: char)
    requires Geometry(s)
    requires s.area.width == 1 || (!s.wrap.auto && ActiveBuffer(s).cursor.column == s.area.width - 1)
    ensures Step(s, Print(rune, 2)) == Step(s, Print(rune, 1))
  {
  }

  // ------------------------------------------------------------------ combining runes

  lemma JoinedCell(g: Grid, width: nat, row: nat, column: nat)
    requires Fits(g, width, |g|) && PairedGrid(g) && row < |g| && column < width
    ensures var at := if g[row][column].width == 0 then column - 1 else column;
            at >= 0 && CombiningTarget(g, width, row, column) == Some((row, at))
  {
    assert PairedAt(g[row], column);
  }

  /** A combining rune is added to the character before the cursor, or under it when a wrap is
      pending; to its first half if it is wide. At the start of a line it is dropped. */
  lemma CombiningJoins(s: State, rune: char)
    requires Geometry(s) && s.profile.xterm && PairedGrid(ActiveBuffer(s).grid)
    ensures var (b, t) := (ActiveBuffer(s), Step(s, Print(rune, 0)));
            var (row, before) := (b.cursor.row, b.cursor.column - (if s.wrap.pending then 0 else 1));
            if before < 0 then t == s
            else
              var at := if b.grid[row][before].width == 0 then before - 1 else before;
              && at >= 0
              && t == Edited(s, b.(grid := b.grid[row := b.grid[row][at :=
                   b.grid[row][at].(text := b.grid[row][at].text + [Translate(s.pen, rune)])]]))
  {
    var b := ActiveBuffer(s);
    var (row, before) := (b.cursor.row, b.cursor.column - (if s.wrap.pending then 0 else 1));
    if before >= 0 {
      JoinedCell(b.grid, s.area.width, row, before);
    }
  }
}
