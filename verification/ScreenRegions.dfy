/** Line feeds, reverse indexes and the line-editing functions agree about the scroll region. */
module ScreenRegions {
  import opened Cells
  import opened Grids
  import opened ScreenModel
  import opened ScreenAddressing
  import opened ScreenWrap

  function LineEdit(final: char, count: nat): Input {
    Csi(Command('\0', '\0', final), [Parameter(count, true, false)])
  }

  /** LF, VT, FF and IND. */
  predicate IsLineFeed(input: Input) {
    || (input.Execute? && 0x0a <= input.control <= 0x0c)
    || (input.Escape? && input.command.intermediate == '\0' && input.command.final == 'D')
  }

  /** RI. */
  predicate IsReverseIndex(input: Input) {
    input.Escape? && input.command.intermediate == '\0' && input.command.final == 'M'
  }

  /** `t` shows the same screen as `s` with `b` in place of the active buffer. */
  predicate Shows(s: State, t: State, b: Buffer)
    requires Geometry(s) && Geometry(t)
  {
    ActiveBuffer(t) == b && t.area == s.area && t.pen == s.pen
  }

  lemma ScrollStep(s: State, input: Input)
    requires Geometry(s)
    ensures IsLineFeed(input) ==> Shows(s, Step(s, input), LineFeed(ActiveBuffer(s), s.area, s.pen.style))
    ensures IsReverseIndex(input) ==> Shows(s, Step(s, input), ReverseIndex(ActiveBuffer(s), s.area, s.pen.style))
  {
  }

  function LineFeeds(b: Buffer, a: Area, style: Cell, count: nat): (r: Buffer)
    requires AreaOk(a) && BufferFits(b, a)
    ensures BufferFits(r, a)
    decreases count
  {
    if count == 0 then b else LineFeeds(LineFeed(b, a, style), a, style, count - 1)
  }

  function ReverseIndexes(b: Buffer, a: Area, style: Cell, count: nat): (r: Buffer)
    requires AreaOk(a) && BufferFits(b, a)
    ensures BufferFits(r, a)
    decreases count
  {
    if count == 0 then b else ReverseIndexes(ReverseIndex(b, a, style), a, style, count - 1)
  }

  lemma {:induction false} FeedLineFeeds(s: State, inputs: seq<Input>)
    requires Geometry(s) && forall i | 0 <= i < |inputs| :: IsLineFeed(inputs[i])
    ensures Shows(s, Feed(s, inputs), LineFeeds(ActiveBuffer(s), s.area, s.pen.style, |inputs|))
    decreases |inputs|
  {
    if inputs != [] {
      ScrollStep(s, inputs[0]);
      FeedLineFeeds(Step(s, inputs[0]), inputs[1..]);
    }
  }

  lemma {:induction false} FeedReverseIndexes(s: State, inputs: seq<Input>)
    requires Geometry(s) && forall i | 0 <= i < |inputs| :: IsReverseIndex(inputs[i])
    ensures Shows(s, Feed(s, inputs), ReverseIndexes(ActiveBuffer(s), s.area, s.pen.style, |inputs|))
    decreases |inputs|
  {
    if inputs != [] {
      ScrollStep(s, inputs[0]);
      FeedReverseIndexes(Step(s, inputs[0]), inputs[1..]);
    }
  }

  function RegionHeight(a: Area): nat
    requires AreaOk(a)
  {
    a.bottom + 1 - a.top
  }

  /** The scroll region moved up by `count` rows, or emptied. */
  function ScrolledUp(b: Buffer, a: Area, style: Cell, count: nat): (r: Buffer)
    requires AreaOk(a) && BufferFits(b, a)
    ensures BufferFits(r, a)
  {
    b.(grid := DeleteRows(b.grid, a.top, a.bottom, Together(0, count, RegionHeight(a)), BlankRow(style, a.width)))
  }

  function ScrolledDown(b: Buffer, a: Area, style: Cell, count: nat): (r: Buffer)
    requires AreaOk(a) && BufferFits(b, a)
    ensures BufferFits(r, a)
  {
    b.(grid := InsertRows(b.grid, a.top, a.bottom, Together(0, count, RegionHeight(a)), BlankRow(style, a.width)))
  }

  lemma NoScroll(b: Buffer, a: Area, style: Cell)
    requires AreaOk(a) && BufferFits(b, a)
    ensures ScrolledUp(b, a, style, 0) == b && ScrolledDown(b, a, style, 0) == b
  {
    var blank := BlankRow(style, a.width);
    assert DeleteRows(b.grid, a.top, a.bottom, 0, blank) == b.grid == InsertRows(b.grid, a.top, a.bottom, 0, blank);
  }

  lemma OneMoreUp(b: Buffer, a: Area, style: Cell, count: nat) returns (next: Buffer)
    requires AreaOk(a) && BufferFits(b, a) && b.cursor.row == a.bottom
    ensures BufferFits(next, a) && next.cursor == b.cursor && next == LineFeed(b, a, style)
    ensures ScrolledUp(next, a, style, count) == ScrolledUp(b, a, style, count + 1)
  {
    next := LineFeed(b, a, style);
    RowDeletesAdd(b.grid, a.top, a.bottom, 1, Together(0, count, RegionHeight(a)), BlankRow(style, a.width));
  }

  lemma OneMoreDown(b: Buffer, a: Area, style: Cell, count: nat) returns (next: Buffer)
    requires AreaOk(a) && BufferFits(b, a) && b.cursor.row == a.top
    ensures BufferFits(next, a) && next.cursor == b.cursor && next == ReverseIndex(b, a, style)
    ensures ScrolledDown(next, a, style, count) == ScrolledDown(b, a, style, count + 1)
  {
    next := ReverseIndex(b, a, style);
    RowInsertsAdd(b.grid, a.top, a.bottom, 1, Together(0, count, RegionHeight(a)), BlankRow(style, a.width));
  }

  /** Line feeds at the bottom margin scroll the region up by one row each. */
  lemma {:induction false} ScrollsUp(b: Buffer, a: Area, style: Cell, count: nat)
    requires AreaOk(a) && BufferFits(b, a) && b.cursor.row == a.bottom
    ensures LineFeeds(b, a, style, count) == ScrolledUp(b, a, style, count)
    decreases count
  {
    if count == 0 {
      NoScroll(b, a, style);
    } else {
      var next := OneMoreUp(b, a, style, count - 1);
      ScrollsUp(next, a, style, count - 1);
    }
  }

  /** Reverse indexes at the top margin scroll it down. */
  lemma {:induction false} ScrollsDown(b: Buffer, a: Area, style: Cell, count: nat)
    requires AreaOk(a) && BufferFits(b, a) && b.cursor.row == a.top
    ensures ReverseIndexes(b, a, style, count) == ScrolledDown(b, a, style, count)
    decreases count
  {
    if count == 0 {
      NoScroll(b, a, style);
    } else {
      var next := OneMoreDown(b, a, style, count - 1);
      ScrollsDown(next, a, style, count - 1);
    }
  }

  lemma LineEditStep(s: State, count: nat)
    requires Geometry(s) && InRegion(ActiveBuffer(s), s.area) && count > 0
    ensures Step(s, LineEdit('L', count)) ==
            Edited(s, InsertLines(ActiveBuffer(s), s.area, s.pen.style, count))
    ensures Step(s, LineEdit('M', count)) ==
            Edited(s, DeleteLines(ActiveBuffer(s), s.area, s.pen.style, count))
  {
  }

  lemma AddressingStep(s: State, row: nat)
    requires Geometry(s) && 1 <= row <= s.area.height
    ensures Step(s, Addressing(row, 1)) == Moved(s, MoveTo(ActiveBuffer(s), s.area, row - 1, 0))
  {
  }

  lemma DeleteAtTop(s: State, count: nat)
    requires Geometry(s) && count > 0
    ensures ActiveBuffer(Step(Step(s, Addressing(s.area.top + 1, 1)), LineEdit('M', count))).grid ==
            ScrolledUp(ActiveBuffer(s), s.area, s.pen.style, count).grid
  {
    AddressingStep(s, s.area.top + 1);
    LineEditStep(Step(s, Addressing(s.area.top + 1, 1)), count);
  }

  /** Any number of line feeds at the bottom margin, of any kind, do to the screen what one DL of
      as many lines does at the top margin, and leave the cursor. */
  lemma LineFeedsAreDeleteLines(s: State, inputs: seq<Input>)
    requires Geometry(s) && inputs != [] && ActiveBuffer(s).cursor.row == s.area.bottom
    requires forall i | 0 <= i < |inputs| :: IsLineFeed(inputs[i])
    ensures var edited := Step(Step(s, Addressing(s.area.top + 1, 1)), LineEdit('M', |inputs|));
            Shows(s, Feed(s, inputs), ActiveBuffer(s).(grid := ActiveBuffer(edited).grid))
  {
    FeedLineFeeds(s, inputs);
    ScrollsUp(ActiveBuffer(s), s.area, s.pen.style, |inputs|);
    DeleteAtTop(s, |inputs|);
  }

  /** Any number of reverse indexes at the top margin do what one IL of as many lines does there. */
  lemma ReverseIndexesAreInsertLines(s: State, inputs: seq<Input>)
    requires Geometry(s) && inputs != [] && ActiveBuffer(s).cursor.row == s.area.top
    requires forall i | 0 <= i < |inputs| :: IsReverseIndex(inputs[i])
    ensures Shows(s, Feed(s, inputs), ActiveBuffer(Step(s, LineEdit('L', |inputs|))))
  {
    FeedReverseIndexes(s, inputs);
    ScrollsDown(ActiveBuffer(s), s.area, s.pen.style, |inputs|);
    LineEditStep(s, |inputs|);
  }

  /** `b` with the rows from `row` on replaced by as many blank ones. */
  function Blanked(b: Buffer, a: Area, style: Cell, row: nat, count: nat): (r: Buffer)
    requires row + count <= |b.grid|
  {
    b.(grid := b.grid[..row] + Repeat(BlankRow(style, a.width), count) + b.grid[row + count..])
  }

  lemma DeleteAfterInsert(b: Buffer, a: Area, style: Cell, count: nat)
    requires AreaOk(a) && BufferFits(b, a) && InRegion(b, a)
    ensures var n := LineCount(b, a, count);
            DeleteLines(InsertLines(b, a, style, count), a, style, count) == Blanked(b, a, style, a.bottom + 1 - n, n)
  {
    InsertThenDeleteRows(b.grid, b.cursor.row, a.bottom, LineCount(b, a, count), BlankRow(style, a.width));
  }

  lemma InsertAfterDelete(b: Buffer, a: Area, style: Cell, count: nat)
    requires AreaOk(a) && BufferFits(b, a) && InRegion(b, a)
    ensures InsertLines(DeleteLines(b, a, style, count), a, style, count) ==
            Blanked(b, a, style, b.cursor.row, LineCount(b, a, count))
  {
    DeleteThenInsertRows(b.grid, b.cursor.row, a.bottom, LineCount(b, a, count), BlankRow(style, a.width));
  }

  /** IL followed by DL of as many lines restores the screen but for the last lines of the region,
      which are blank. */
  lemma DeleteUndoesInsert(s: State, count: nat)
    requires Geometry(s) && InRegion(ActiveBuffer(s), s.area) && count > 0
    ensures var (b, a) := (ActiveBuffer(s), s.area);
            var n := LineCount(b, a, count);
            ActiveBuffer(Step(Step(s, LineEdit('L', count)), LineEdit('M', count))) ==
            Blanked(b, a, s.pen.style, a.bottom + 1 - n, n)
  {
    LineEditStep(s, count);
    LineEditStep(Step(s, LineEdit('L', count)), count);
    DeleteAfterInsert(ActiveBuffer(s), s.area, s.pen.style, count);
  }

  /** DL followed by IL restores it but for the first lines from the cursor. */
  lemma InsertUndoesDelete(s: State, count: nat)
    requires Geometry(s) && InRegion(ActiveBuffer(s), s.area) && count > 0
    ensures var (b, a) := (ActiveBuffer(s), s.area);
            ActiveBuffer(Step(Step(s, LineEdit('M', count)), LineEdit('L', count))) ==
            Blanked(b, a, s.pen.style, b.cursor.row, LineCount(b, a, count))
  {
    LineEditStep(s, count);
    LineEditStep(Step(s, LineEdit('M', count)), count);
    InsertAfterDelete(ActiveBuffer(s), s.area, s.pen.style, count);
  }

  // ------------------------------------------------------------ outside the region

  /** LF, VT, FF, IND, NEL, RI, IL and DL. */
  predicate MovesLines(input: Input) {
    || IsLineFeed(input) || IsReverseIndex(input) || IsNextLine(input)
    || (input.Csi? && input.command.prefix == '\0' && input.command.intermediate == '\0'
        && (input.command.final == 'L' || input.command.final == 'M'))
  }

  predicate SameOutside(b: Buffer, b': Buffer, a: Area) {
    && |b'.grid| == |b.grid|
    && forall r | 0 <= r < |b.grid| && (r < a.top || r > a.bottom) :: b'.grid[r] == b.grid[r]
  }

  lemma LineFeedOutside(b: Buffer, a: Area, style: Cell)
    requires AreaOk(a) && BufferFits(b, a)
    ensures SameOutside(b, LineFeed(b, a, style), a) && SameOutside(b, ReverseIndex(b, a, style), a)
  {
  }

  lemma LineEditOutside(b: Buffer, a: Area, style: Cell, count: int)
    requires AreaOk(a) && BufferFits(b, a) && InRegion(b, a)
    ensures SameOutside(b, InsertLines(b, a, style, count), a) && SameOutside(b, DeleteLines(b, a, style, count), a)
  {
  }

  predicate KeepsOutside(s: State, t: State)
    requires Geometry(s) && Geometry(t)
  {
    && t.area == s.area && SameOutside(ActiveBuffer(s), ActiveBuffer(t), s.area)
    && t.screens.onAlternate == s.screens.onAlternate
    && (if s.screens.onAlternate then t.screens.main == s.screens.main
        else t.screens.alternate == s.screens.alternate)
  }

  lemma ControlOutside(s: State, input: Input)
    requires Geometry(s) && MovesLines(input) && !input.Csi?
    ensures KeepsOutside(s, Step(s, input))
  {
    var (b, a, style) := (ActiveBuffer(s), s.area, s.pen.style);
    LineFeedOutside(b, a, style);
    LineFeedOutside(MoveTo(b, a, b.cursor.row, 0), a, style);
  }

  lemma CsiOutside(s: State, command: Command, parameters: seq<Parameter>)
    requires Geometry(s) && MovesLines(Csi(command, parameters))
    ensures KeepsOutside(s, HandleCsi(s, command, parameters))
  {
    assert HandleCsi(s, command, parameters) == ApplyEdit(s, command.final, parameters);
    if InRegion(ActiveBuffer(s), s.area) {
      LineEditOutside(ActiveBuffer(s), s.area, s.pen.style, Param(parameters, 0, 1));
    }
  }

  /** Whatever moves lines leaves the rows outside the scroll region, and the buffer that is not
      shown, as they are. */
  lemma OutsideRegionUntouched(s: State, input: Input)
    requires Geometry(s) && MovesLines(input)
    ensures KeepsOutside(s, Step(s, input))
  {
    if input.Csi? {
      CsiOutside(s, input.command, input.parameters);
    } else {
      ControlOutside(s, input);
    }
  }
}
