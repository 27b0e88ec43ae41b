/** Wide characters stay whole: which operations keep every lead beside its continuation. */
module ScreenPairing {
  import opened Cells
  import opened Grids
  import opened ScreenModel

  predicate PairedScreens(s: Screens) {
    PairedGrid(s.main.grid) && (s.alternate.Some? ==> PairedGrid(s.alternate.value.grid))
  }

  /** ED, EL or ECH. */
  predicate IsErase(input: Input) {
    && input.Csi? && input.command.prefix == '\0' && input.command.intermediate == '\0'
    && (input.command.final == 'J' || input.command.final == 'K' || input.command.final == 'X')
  }

  /** Does an edge of the range this ED, EL or ECH erases fall inside a wide character? */
  predicate CutsPair(s: State, input: Input)
    requires Geometry(s) && IsErase(input)
  {
    var b := ActiveBuffer(s);
    var row := b.grid[b.cursor.row];
    var column := b.cursor.column;
    var mode := Param(input.parameters, 0, 0);
    if input.command.final == 'X' then
      SplitsPair(row, column) || SplitsPair(row, column + CellCount(b, s.area, Param(input.parameters, 0, 1)))
    else (mode == 0 && SplitsPair(row, column)) || (mode == 1 && SplitsPair(row, column + 1))
  }

  // ------------------------------------------------------------------ buffer edits

  lemma BlankGridPaired(style: Cell, width: nat, height: nat)
    ensures PairedGrid(BlankGrid(style, width, height))
  {
    BlankRowPaired(style, width);
  }

  lemma RowEditPairs(b: Buffer, a: Area, row: Row)
    requires BufferFits(b, a) && PairedGrid(b.grid) && |row| == a.width
    ensures PairedGrid(WithRow(b, a, row).grid) <==> Paired(row)
  {
    assert WithRow(b, a, row).grid[b.cursor.row] == row;
  }

  lemma LineFeedPairs(b: Buffer, a: Area, style: Cell)
    requires AreaOk(a) && BufferFits(b, a) && PairedGrid(b.grid)
    ensures PairedGrid(LineFeed(b, a, style).grid) && PairedGrid(ReverseIndex(b, a, style).grid)
  {
    BlankRowPaired(style, a.width);
  }

  lemma LineEditPairs(b: Buffer, a: Area, style: Cell, count: int)
    requires AreaOk(a) && BufferFits(b, a) && InRegion(b, a) && PairedGrid(b.grid)
    ensures PairedGrid(InsertLines(b, a, style, count).grid) && PairedGrid(DeleteLines(b, a, style, count).grid)
  {
    BlankRowPaired(style, a.width);
  }

  lemma CharacterEditPairs(b: Buffer, a: Area, style: Cell, count: int)
    requires BufferFits(b, a) && PairedGrid(b.grid)
    ensures PairedGrid(InsertCharacters(b, a, style, count).grid)
    ensures PairedGrid(DeleteCharacters(b, a, style, count).grid)
  {
    ShiftPairs(b.grid[b.cursor.row], b.cursor.column, CellCount(b, a, count), style);
  }

  lemma AddTextPairs(g: Grid, width: nat, row: nat, column: nat, rune: char)
    requires Fits(g, width, |g|) && row < |g| && column < width && PairedGrid(g)
    ensures PairedGrid(AddText(g, width, row, column, rune))
  {
    var r := AddText(g, width, row, column, rune);
    forall c: nat | c < width ensures PairedAt(r[row], c) {
      assert PairedAt(g[row], c);
    }
  }

  lemma ResizePairs(b: Buffer, a: Area, width: nat, height: nat, style: Cell)
    requires BufferFits(b, a) && PairedGrid(b.grid)
    ensures PairedGrid(ResizeBuffer(b, width, height, style).grid)
  {
    BlankRowPaired(style, width);
    forall r | 0 <= r < height ensures Paired(ResizeBuffer(b, width, height, style).grid[r]) {
      if r < |b.grid| { ResizeRowPairs(b.grid[r], width, style); }
    }
  }

  // ---------------------------------------------------------------- parser events

  lemma CombiningKeepsPairing(s: State, rune: char)
    requires Geometry(s) && PairedScreens(s.screens)
    ensures PairedScreens(AppendCombining(s, rune).screens)
  {
    var b := ActiveBuffer(s);
    var column := if s.wrap.pending then b.cursor.column else b.cursor.column - 1;
    if column >= 0 {
      var target := CombiningTarget(b.grid, s.area.width, b.cursor.row, column);
      if target.Some? {
        AddTextPairs(b.grid, s.area.width, target.value.0, target.value.1, rune);
      }
    }
  }

  lemma PlaceKeepsPairing(s: State, rune: char, width: int)
    requires Geometry(s) && 1 <= width <= 2 && ActiveBuffer(s).cursor.column + width <= s.area.width
    requires PairedScreens(s.screens)
    ensures PairedScreens(Place(s, rune, width).screens)
  {
    var b := ActiveBuffer(s);
    PutRunePairs(b.grid[b.cursor.row], b.cursor.column, rune, width, s.pen.style);
    RowEditPairs(b, s.area, PutRune(b.grid[b.cursor.row], b.cursor.column, rune, width, s.pen.style));
  }

  lemma SpacingKeepsPairing(s: State, rune: char, fitting: int)
    requires Geometry(s) && 1 <= fitting <= 2 && PairedScreens(s.screens)
    ensures PairedScreens(PrintSpacing(s, rune, fitting).screens)
  {
    var before := ActiveBuffer(s);
    LineFeedPairs(MoveTo(before, s.area, before.cursor.row, 0), s.area, s.pen.style);
    var wrapped := WrapFor(s, fitting);
    var size := FinalSize(wrapped, fitting);
    CharacterEditPairs(ActiveBuffer(wrapped), s.area, s.pen.style, size);
    PlaceKeepsPairing(Opened(wrapped, size), rune, size);
  }

  lemma PrintKeepsPairing(s: State, rune: char, measured: int)
    requires Geometry(s) && PairedScreens(s.screens)
    ensures PairedScreens(PrintRune(s, rune, measured).screens)
  {
    var natural := MeasuredWidth(s, measured);
    if natural == 0 {
      CombiningKeepsPairing(s, Translate(s.pen, rune));
    } else {
      SpacingKeepsPairing(s, Translate(s.pen, rune), if natural > s.area.width then 1 else natural);
    }
  }

  lemma EscapeKeepsPairing(s: State, command: Command)
    requires Geometry(s) && PairedScreens(s.screens)
    ensures PairedScreens(HandleEscape(s, command).screens)
  {
    var b := ActiveBuffer(s);
    LineFeedPairs(b, s.area, s.pen.style);
    LineFeedPairs(MoveTo(b, s.area, b.cursor.row, 0), s.area, s.pen.style);
    BlankGridPaired(DEFAULT_CELL, s.area.width, s.area.height);
  }

  lemma PrivateModeKeepsPairing(s: State, command: Command, p: Parameter)
    requires Geometry(s) && PairedScreens(s.screens)
    ensures PairedScreens(SetPrivateMode(s, command, p).screens)
  {
    BlankGridPaired(s.pen.style, s.area.width, s.area.height);
  }

  lemma {:induction false} PrivateModesKeepPairing(s: State, command: Command, parameters: seq<Parameter>)
    requires Geometry(s) && PairedScreens(s.screens)
    ensures PairedScreens(SetPrivateModes(s, command, parameters).screens)
    decreases |parameters|
  {
    if parameters != [] {
      PrivateModeKeepsPairing(s, command, parameters[0]);
      PrivateModesKeepPairing(SetPrivateMode(s, command, parameters[0]), command, parameters[1..]);
    }
  }

  lemma {:induction false} ModesKeepScreens(s: State, command: Command, parameters: seq<Parameter>)
    requires Geometry(s)
    ensures SetModes(s, command, parameters).screens == s.screens
    decreases |parameters|
  {
    if parameters != [] {
      ModesKeepScreens(SetMode(s, command, parameters[0]), command, parameters[1..]);
    }
  }

  lemma {:induction false} RenditionKeepsScreens(s: State, parameters: seq<Parameter>, i: nat)
    requires Geometry(s)
    ensures RenditionFrom(s, parameters, i).screens == s.screens
    decreases |parameters| - i
  {
    if i < |parameters| {
      var (next, last) := RenditionAt(s, parameters, i);
      RenditionKeepsScreens(next, parameters, last + 1);
    }
  }

  lemma EditKeepsPairing(s: State, final: char, parameters: seq<Parameter>)
    requires Geometry(s) && PairedScreens(s.screens)
    requires final != 'J' && final != 'K' && final != 'X'
    ensures PairedScreens(ApplyEdit(s, final, parameters).screens)
  {
    var b := ActiveBuffer(s);
    var n := Param(parameters, 0, 1);
    CharacterEditPairs(b, s.area, s.pen.style, n);
    if InRegion(b, s.area) {
      LineEditPairs(b, s.area, s.pen.style, n);
    }
  }

  lemma MovementKeepsPairing(s: State, final: char, parameters: seq<Parameter>)
    requires Geometry(s) && PairedScreens(s.screens)
    ensures PairedScreens(ApplyMovement(s, final, parameters).screens)
    ensures PairedScreens(SetScrollRegion(s, parameters).screens)
  {
  }

  lemma CsiKeepsPairing(s: State, command: Command, parameters: seq<Parameter>)
    requires Geometry(s) && PairedScreens(s.screens) && !IsErase(Csi(command, parameters))
    ensures PairedScreens(HandleCsi(s, command, parameters).screens)
  {
    if command.prefix == '?' {
      PrivateModesKeepPairing(s, command, parameters);
    } else if command.prefix == '\0' && command.intermediate == '\0' {
      if IsEdit(command.final) {
        EditKeepsPairing(s, command.final, parameters);
      } else {
        MovementKeepsPairing(s, command.final, parameters);
        ModesKeepScreens(s, command, parameters);
        RenditionKeepsScreens(s, if parameters == [] then [Parameter(0, true, false)] else parameters, 0);
      }
    }
  }

  /** Every parser event but ED, EL and ECH keeps wide characters whole in both buffers. */
  lemma StepKeepsPairing(s: State, input: Input)
    requires Geometry(s) && PairedScreens(s.screens) && !IsErase(input)
    ensures PairedScreens(Step(s, input).screens)
  {
    match input
    case Print(rune, measured) => PrintKeepsPairing(s, rune, measured);
    case Execute(control) => LineFeedPairs(ActiveBuffer(s), s.area, s.pen.style);
    case Csi(command, parameters) => CsiKeepsPairing(s, command, parameters);
    case Escape(command) => EscapeKeepsPairing(s, command);
    case _ =>
  }

  lemma EraseRowInBuffer(b: Buffer, a: Area, from: nat, to: nat, style: Cell)
    requires BufferFits(b, a) && PairedGrid(b.grid) && from < to <= a.width
    ensures var row := b.grid[b.cursor.row];
            PairedGrid(WithRow(b, a, EraseRow(row, from, to, style)).grid) <==>
            !SplitsPair(row, from) && !SplitsPair(row, to)
  {
    EraseRowPairs(b.grid[b.cursor.row], from, to, style);
    RowEditPairs(b, a, EraseRow(b.grid[b.cursor.row], from, to, style));
  }

  /** Rows other than the cursor's are erased whole or not at all. */
  lemma OtherRowPaired(was: Row, row: nat, column: nat, style: Cell, r: nat)
    requires Paired(was) && column <= |was| && r != row
    ensures Paired(RowFrom(was, row, column, style, r)) && Paired(RowUpTo(was, row, column, style, r))
  {
    EraseEnds(was, style);
    BlankRowPaired(style, |was|);
  }

  lemma EraseScreenInBuffer(b: Buffer, a: Area, style: Cell, mode: nat)
    requires BufferFits(b, a) && PairedGrid(b.grid) && mode <= 1
    ensures PairedGrid(EraseDisplay(b, a, style, mode).grid) <==>
            !SplitsPair(b.grid[b.cursor.row], b.cursor.column + mode)
  {
    var (row, column, after) := (b.cursor.row, b.cursor.column + mode, EraseDisplay(b, a, style, mode).grid);
    var (from, to) := if mode == 0 then (column, a.width) else (0, column);
    EraseRowPairs(b.grid[row], from, to, style);
    assert after[row] == EraseRow(b.grid[row], from, to, style);
    forall r: nat | r < a.height && r != row ensures Paired(after[r]) {
      OtherRowPaired(b.grid[r], row, column, style, r);
    }
  }

  /** What ED, EL or ECH leaves of the active buffer. */
  function Erased(s: State, final: char, parameters: seq<Parameter>): (b: Buffer)
    requires Geometry(s)
    ensures BufferFits(b, s.area)
  {
    var b := EditOf(s, final, parameters);
    if b.Some? then b.value else ActiveBuffer(s)
  }

  lemma ErasedLine(s: State, parameters: seq<Parameter>)
    requires Geometry(s)
    ensures var (b, mode) := (ActiveBuffer(s), Param(parameters, 0, 0));
            Erased(s, 'K', parameters) == if mode <= 2 then EraseLine(b, s.area, s.pen.style, mode) else b
  {
  }

  lemma EraseLineInBuffer(b: Buffer, a: Area, style: Cell, mode: nat)
    requires BufferFits(b, a) && PairedGrid(b.grid) && mode <= 2
    ensures PairedGrid(EraseLine(b, a, style, mode).grid) <==>
            (mode == 2 || !SplitsPair(b.grid[b.cursor.row], b.cursor.column + mode))
  {
    var (row, column) := (b.grid[b.cursor.row], b.cursor.column);
    var from := if mode == 0 then column else 0;
    var to := if mode == 1 then column + 1 else a.width;
    assert EraseLine(b, a, style, mode) == WithRow(b, a, EraseRow(row, from, to, style));
    EraseRowInBuffer(b, a, from, to, style);
  }

  lemma EraseLinePairs(s: State, parameters: seq<Parameter>)
    requires Geometry(s) && PairedScreens(s.screens)
    ensures PairedGrid(Erased(s, 'K', parameters).grid) <==> !CutsPair(s, Csi(Command('\0', '\0', 'K'), parameters))
  {
    ErasedLine(s, parameters);
    if Param(parameters, 0, 0) <= 2 {
      EraseLineInBuffer(ActiveBuffer(s), s.area, s.pen.style, Param(parameters, 0, 0));
    }
  }

  lemma EraseCharactersPairs(s: State, parameters: seq<Parameter>)
    requires Geometry(s) && PairedScreens(s.screens)
    ensures PairedGrid(Erased(s, 'X', parameters).grid) <==> !CutsPair(s, Csi(Command('\0', '\0', 'X'), parameters))
  {
    var b := ActiveBuffer(s);
    var column := b.cursor.column;
    EraseRowInBuffer(b, s.area, column, column + CellCount(b, s.area, Param(parameters, 0, 1)), s.pen.style);
  }

  lemma EraseDisplayPairs(s: State, parameters: seq<Parameter>)
    requires Geometry(s) && PairedScreens(s.screens)
    ensures PairedGrid(Erased(s, 'J', parameters).grid) <==> !CutsPair(s, Csi(Command('\0', '\0', 'J'), parameters))
  {
    var mode := Param(parameters, 0, 0);
    if mode <= 1 {
      EraseScreenInBuffer(ActiveBuffer(s), s.area, s.pen.style, mode);
    } else {
      BlankGridPaired(s.pen.style, s.area.width, s.area.height);
    }
  }

  /** ED, EL and ECH keep wide characters whole exactly when no edge of the erased range falls
      inside one. */
  lemma EraseKeepsPairingIff(s: State, input: Input)
    requires Geometry(s) && PairedScreens(s.screens) && IsErase(input)
    ensures PairedScreens(Step(s, input).screens) <==> !CutsPair(s, input)
  {
    assert input == Csi(Command('\0', '\0', input.command.final), input.parameters);
    assert Step(s, input) == ApplyEdit(s, input.command.final, input.parameters);
    match input.command.final
    case 'J' => EraseDisplayPairs(s, input.parameters);
    case 'K' => EraseLinePairs(s, input.parameters);
    case _ => EraseCharactersPairs(s, input.parameters);
  }

  // ------------------------------------------------------------------------ runs

  /** No erase of the run cuts a wide character in half. */
  predicate CleanFeed(s: State, inputs: seq<Input>)
    requires Geometry(s)
    decreases |inputs|
  {
    inputs == [] ||
    ((IsErase(inputs[0]) ==> !CutsPair(s, inputs[0])) && CleanFeed(Step(s, inputs[0]), inputs[1..]))
  }

  predicate CleanRun(s: State, actions: seq<Action>)
    requires Geometry(s)
    decreases |actions|
  {
    actions == [] ||
    ((actions[0].Output? ==> CleanFeed(s, actions[0].inputs)) && CleanRun(Act(s, actions[0]), actions[1..]))
  }

  lemma {:induction false} FeedKeepsPairing(s: State, inputs: seq<Input>)
    requires Geometry(s) && PairedScreens(s.screens) && CleanFeed(s, inputs)
    ensures PairedScreens(Feed(s, inputs).screens)
    decreases |inputs|
  {
    if inputs != [] {
      if IsErase(inputs[0]) {
        EraseKeepsPairingIff(s, inputs[0]);
      } else {
        StepKeepsPairing(s, inputs[0]);
      }
      FeedKeepsPairing(Step(s, inputs[0]), inputs[1..]);
    }
  }

  lemma ResizeKeepsPairing(s: State, width: int, height: int)
    requires Geometry(s) && PairedScreens(s.screens)
    ensures PairedScreens(Resize(s, width, height).screens)
  {
    if width > 0 && height > 0 {
      ResizePairs(s.screens.main, s.area, width, height, s.pen.style);
      if s.screens.alternate.Some? {
        ResizePairs(s.screens.alternate.value, s.area, width, height, s.pen.style);
      }
    }
  }

  lemma {:induction false} RunKeepsPairingFrom(s: State, actions: seq<Action>)
    requires Geometry(s) && PairedScreens(s.screens) && CleanRun(s, actions)
    ensures PairedScreens(Run(s, actions).screens)
    decreases |actions|
  {
    if actions != [] {
      match actions[0] {
        case Output(inputs) => FeedKeepsPairing(s, inputs);
        case ResizeTo(width, height) => ResizeKeepsPairing(s, width, height);
      }
      RunKeepsPairingFrom(Act(s, actions[0]), actions[1..]);
    }
  }

  /** From a new terminal, any run whose erases cut no wide character in half shows only whole
      wide characters. */
  lemma RunKeepsPairing(profile: Profile, width: nat, height: nat, actions: seq<Action>)
    requires width > 0 && height > 0 && CleanRun(Fresh(profile, width, height), actions)
    ensures PairedScreens(Run(Fresh(profile, width, height), actions).screens)
  {
    BlankGridPaired(DEFAULT_CELL, width, height);
    RunKeepsPairingFrom(Fresh(profile, width, height), actions);
  }

  /** A wide character at the start of a line of four cells. */
  const WIDE_ROW: Row := [Lead(DEFAULT_CELL, "\U{754C}", 2), Continuation(DEFAULT_CELL), DEFAULT_CELL, DEFAULT_CELL]

  lemma WidePrinted()
    ensures var t := Step(Fresh(Profile(true, ""), 4, 1), Print('\U{754C}', 2));
            && PairedScreens(t.screens) && t.area == Area(4, 1, 0, 0) && !t.screens.onAlternate
            && ActiveBuffer(t).grid == [WIDE_ROW] && ActiveBuffer(t).cursor == Cursor(2, 0, true)
  {
    var s := Fresh(Profile(true, ""), 4, 1);
    BlankGridPaired(DEFAULT_CELL, 4, 1);
    StepKeepsPairing(s, Print('\U{754C}', 2));
    assert BlankRow(DEFAULT_CELL, 4) == [DEFAULT_CELL, DEFAULT_CELL, DEFAULT_CELL, DEFAULT_CELL];
    assert PutRune(BlankRow(DEFAULT_CELL, 4), 0, '\U{754C}', 2, DEFAULT_CELL) == WIDE_ROW;
    assert Step(s, Print('\U{754C}', 2)) == Place(s, '\U{754C}', 2);
  }

  const TO_COLUMN_2 := Csi(Command('\0', '\0', 'G'), [Parameter(2, true, false)])

  const ERASE_LINE := Csi(Command('\0', '\0', 'K'), [])

  lemma EraseAtColumn2(s: State)
    requires Geometry(s) && s.area == Area(4, 1, 0, 0) && PairedScreens(s.screens) && ActiveBuffer(s).grid == [WIDE_ROW]
    ensures PairedScreens(Step(s, TO_COLUMN_2).screens)
    ensures !PairedScreens(Step(Step(s, TO_COLUMN_2), ERASE_LINE).screens)
  {
    StepKeepsPairing(s, TO_COLUMN_2);
    var moved := Step(s, TO_COLUMN_2);
    assert moved == ApplyMovement(s, 'G', TO_COLUMN_2.parameters);
    assert ActiveBuffer(moved).cursor.column == 1 && ActiveBuffer(moved).cursor.row == 0;
    assert CutsPair(moved, ERASE_LINE);
    EraseKeepsPairingIff(moved, ERASE_LINE);
  }

  /** Documentation and code differ here: a wide character whose right half alone is erased leaves
      a lead without a continuation on the screen. */
  lemma EraseCanCutPair()
    ensures var s := Step(Fresh(Profile(true, ""), 4, 1), Print('\U{754C}', 2));
            && PairedScreens(s.screens) && PairedScreens(Step(s, TO_COLUMN_2).screens)
            && !PairedScreens(Step(Step(s, TO_COLUMN_2), ERASE_LINE).screens)
  {
    WidePrinted();
    EraseAtColumn2(Step(Fresh(Profile(true, ""), 4, 1), Print('\U{754C}', 2)));
  }
}
