/** The ANSI/DEC screen engine as it runs: two screen buffers that are overwritten in place, one of
    them active. Every method is proved to have exactly the effect module ScreenModel gives it. */
module TerminalEngine {
  import opened Cells
  import opened Grids
  import opened Options
  import opened ScreenModel
  import CellStore

  class ScreenBuffer {
    var cells: array?<Cell>
    var cursor: Cursor
    var savedCursor: Cursor

    constructor ()
      ensures cells == null && cursor == ORIGIN && savedCursor == ORIGIN
    {
      cells, cursor, savedCursor := null, ORIGIN, ORIGIN;
    }
  }

  lemma FirstCell(width: nat, r: nat, c: nat)
    requires Offset(width, r) + c == 0 && c < width
    ensures r == 0 && c == 0
  {
    RowsBefore(width, 0, r);
  }

  /** The cell before (r, c) in reading order. */
  lemma PreviousCell(cells: seq<Cell>, width: nat, height: nat, r: nat, c: nat) returns (r': nat, c': nat)
    requires |cells| == Offset(width, height) && r < height && c < width && Offset(width, r) + c > 0
    ensures r' < height && c' < width && Offset(width, r') + c' == Offset(width, r) + c - 1
    ensures 0 <= Offset(width, r') + c' < |cells|
    ensures var g := Rows(cells, width, height);
            && cells[Offset(width, r') + c'] == g[r'][c']
            && (g[r][c].width == 0 ==> CombiningTarget(g, width, r, c) == CombiningTarget(g, width, r', c'))
  {
    if c > 0 {
      r', c' := r, c - 1;
    } else {
      r', c' := r - 1, width - 1;
      assert Offset(width, r) == Offset(width, r') + width;
    }
    CellOfRows(cells, width, height, r', c');
  }

  /** Walks back over continuations to the cell that a combining rune extends; -1 if there is none. */
  method FindCell(a: array<Cell>, width: nat, height: nat, row: nat, column: nat)
    returns (index: int, ghost r: nat, ghost c: nat)
    requires a.Length == Offset(width, height) && row < height && column < width
    ensures -1 <= index < a.Length
    ensures CombiningTarget(Rows(a[..], width, height), width, row, column) ==
            if index >= 0 then Some((r, c)) else None
    ensures index >= 0 ==> r < height && c < width && index == Offset(width, r) + c
  {
    ghost var g := Rows(a[..], width, height);
    CellOfRows(a[..], width, height, row, column);
    index := Offset(width, row) + column;
    r, c := row, column;
    while index >= 0 && a[index].width == 0
      invariant -1 <= index < a.Length
      invariant index >= 0 ==> r < height && c < width && index == Offset(width, r) + c && a[index] == g[r][c]
      invariant CombiningTarget(g, width, row, column) ==
                if index >= 0 then CombiningTarget(g, width, r, c) else None
    {
      index := index - 1;
      if index >= 0 {
        r, c := PreviousCell(a[..], width, height, r, c);
      } else {
        FirstCell(width, r, c);
      }
    }
  }

  method ExtendCell(a: array<Cell>, width: nat, height: nat, row: nat, column: nat, rune: char) returns (found: bool)
    requires a.Length == Offset(width, height) && row < height && column < width
    modifies a
    ensures var g := Rows(old(a[..]), width, height);
            var target := CombiningTarget(g, width, row, column);
            found == target.Some?
            && Rows(a[..], width, height) ==
               if found then AddText(g, width, target.value.0, target.value.1, rune) else g
  {
    ghost var r, c;
    var index;
    index, r, c := FindCell(a, width, height, row, column);
    found := index >= 0;
    if found {
      var cell := a[index].(text := a[index].text + [rune]);
      CellOfRows(a[..], width, height, r, c);
      CellStore.UpdateCell(a[..], width, height, r, c, cell);
      a[index] := cell;
      assert a[..] == old(a[..])[index := cell];
    }
  }

  /** Applying the renditions from `i` on to `s` gives what applying all of them to `was` does. */
  ghost predicate Leads(was: State, s: State, parameters: seq<Parameter>, i: nat) {
    Geometry(was) && Geometry(s) && RenditionFrom(was, parameters, 0) == RenditionFrom(s, parameters, i)
  }

  lemma LeadsStep(was: State, s: State, parameters: seq<Parameter>, i: nat, next: State, last: nat)
    requires Leads(was, s, parameters, i) && i < |parameters| && (next, last) == RenditionAt(s, parameters, i)
    ensures Leads(was, next, parameters, last + 1)
  {
  }

  class Terminal {
    const profile: Profile
    const main: ScreenBuffer
    const alternate: ScreenBuffer
    var active: ScreenBuffer
    var width: nat
    var height: nat
    var style: Cell
    var revision: nat
    var wrapPending: bool
    var autoWrap: bool
    var applicationCursor: bool
    var insertMode: bool
    var scrollTop: nat
    var scrollBottom: nat
    var charset0: bool
    var charset1: bool
    var charset: nat
    var events: seq<TerminalEvent>
    var title: string

    // ------------------------------------------------------------ representation

    ghost function Repr(): set<object>
      reads this, main, alternate
    {
      {this, main, alternate}
      + (if main.cells == null then {} else {main.cells})
      + (if alternate.cells == null then {} else {alternate.cells})
    }

    ghost predicate Shaped()
      reads this, main, alternate
    {
      && main != alternate && (active == main || active == alternate)
      && main.cells != null && main.cells.Length == Offset(width, height)
      && (alternate.cells != null ==> alternate.cells != main.cells && alternate.cells.Length == Offset(width, height))
      && (active == alternate ==> alternate.cells != null)
    }

    static ghost function Stored(cells: seq<Cell>, cursor: Cursor, saved: Cursor, width: nat, height: nat): Buffer
      requires |cells| == Offset(width, height)
    {
      Buffer(Rows(cells, width, height), cursor, saved)
    }

    /** The state this object stands for. */
    ghost function Model(): State
      requires Shaped()
      reads this, main, alternate, main.cells, alternate.cells
    {
      State(profile,
            Area(width, height, scrollTop, scrollBottom),
            Screens(Stored(main.cells[..], main.cursor, main.savedCursor, width, height),
                    if alternate.cells == null then None
                    else Some(Stored(alternate.cells[..], alternate.cursor, alternate.savedCursor, width, height)),
                    active == alternate),
            Wrap(wrapPending, autoWrap),
            Pen(style, insertMode, applicationCursor, charset0, charset1, charset),
            Log(revision, events, title))
    }

    ghost predicate Valid()
      reads this, main, alternate, main.cells, alternate.cells
    {
      Shaped() && Geometry(Model())
    }

    constructor (profile: Profile, width: nat, height: nat)
      requires width > 0 && height > 0
      ensures Valid() && fresh(Repr())
      ensures Model() == Fresh(profile, width, height)
    {
      var m := new ScreenBuffer();
      var cells := CellStore.NewCells(width, height, DEFAULT_CELL);
      m.cells, m.cursor := cells, ORIGIN.(visible := true);
      var a := new ScreenBuffer();
      this.profile, this.main, this.alternate, active := profile, m, a, m;
      this.width, this.height, scrollTop, scrollBottom := width, height, 0, height - 1;
      style, revision, events, title := DEFAULT_CELL, 0, [], "";
      wrapPending, autoWrap, applicationCursor, insertMode := false, true, false, false;
      charset0, charset1, charset := false, false, 0;
    }

    /** The state `was` with `b` for its active buffer. */
    static ghost function With(was: State, b: Buffer): State {
      was.(screens := WithActive(was.screens, b))
    }

    // ---------------------------------------------------------------- single edits

    method SetCursor(row: int, column: int)
      requires Valid() && 0 <= row < height && 0 <= column < width
      modifies active
      ensures Valid() && Repr() == old(Repr())
      ensures Model() == var m := old(Model()); With(m, MoveTo(ActiveBuffer(m), m.area, row, column))
    {
      active.cursor := active.cursor.(row := row, column := column);
    }

    method Changed()
      requires Valid()
      modifies this`revision
      ensures Valid() && Repr() == old(Repr())
      ensures Model() == var m := old(Model()); m.(log := Bump(m.log))
    {
      revision := revision + 1;
    }

    method Move(row: int, column: int)
      requires Valid() && 0 <= row < height && 0 <= column < width
      modifies this, active
      ensures Valid() && Repr() == old(Repr())
      ensures Model() == Moved(old(Model()), MoveTo(ActiveBuffer(old(Model())), old(Model()).area, row, column))
    {
      SetCursor(row, column);
      wrapPending := false;
      Changed();
    }

    method LineFeed()
      requires Valid()
      modifies Repr()
      ensures Valid() && Repr() == old(Repr())
      ensures Model() == var m := old(Model());
                         Edited(m, ScreenModel.LineFeed(ActiveBuffer(m), m.area, m.pen.style))
    {
      if active.cursor.row == scrollBottom {
        CellStore.ScrollUpInPlace(active.cells, width, height, scrollTop, scrollBottom, style);
      } else if active.cursor.row < height - 1 {
        active.cursor := active.cursor.(row := active.cursor.row + 1);
      }
      Changed();
    }

    method ReverseIndex()
      requires Valid()
      modifies Repr()
      ensures Valid() && Repr() == old(Repr())
      ensures Model() == var m := old(Model());
                         Edited(m, ScreenModel.ReverseIndex(ActiveBuffer(m), m.area, m.pen.style))
    {
      if active.cursor.row == scrollTop {
        CellStore.ScrollDownInPlace(active.cells, width, height, scrollTop, scrollBottom, style);
      } else if active.cursor.row > 0 {
        active.cursor := active.cursor.(row := active.cursor.row - 1);
      }
      Changed();
    }

    // In every method below, `was` is the state before the call.

    method EraseColumns(from: nat, to: nat)
      requires Valid() && from <= to <= width
      modifies active.cells
      ensures Valid() && Repr() == old(Repr())
      ensures Model() == var was := old(Model());
                         var b := ActiveBuffer(was);
                         With(was, WithRow(b, was.area, EraseRow(b.grid[b.cursor.row], from, to, was.pen.style)))
    {
      CellStore.EraseInRow(active.cells, width, height, active.cursor.row, from, to, style);
    }

    method InsertLinesInRegion(count: int)
      requires Valid() && scrollTop <= active.cursor.row <= scrollBottom
      modifies active.cells
      ensures Valid() && Repr() == old(Repr())
      ensures Model() == var was := old(Model());
                         With(was, ScreenModel.InsertLines(ActiveBuffer(was), was.area, was.pen.style, count))
    {
      var row := active.cursor.row;
      var n := Min(Max(1, count), scrollBottom - row + 1);
      CellStore.InsertRowsInPlace(active.cells, width, height, row, scrollBottom, n, style);
    }

    method DeleteLinesInRegion(count: int)
      requires Valid() && scrollTop <= active.cursor.row <= scrollBottom
      modifies active.cells
      ensures Valid() && Repr() == old(Repr())
      ensures Model() == var was := old(Model());
                         With(was, ScreenModel.DeleteLines(ActiveBuffer(was), was.area, was.pen.style, count))
    {
      var row := active.cursor.row;
      var n := Min(Max(1, count), scrollBottom - row + 1);
      CellStore.DeleteRowsInPlace(active.cells, width, height, row, scrollBottom, n, style);
    }

    method InsertCharacters(count: int)
      requires Valid()
      modifies Repr()
      ensures Valid() && Repr() == old(Repr())
      ensures Model() == var was := old(Model());
                         Edited(was, ScreenModel.InsertCharacters(ActiveBuffer(was), was.area, was.pen.style, count))
    {
      var n := Min(Max(1, count), width - active.cursor.column);
      CellStore.InsertInRow(active.cells, width, height, active.cursor.row, active.cursor.column, n, style);
      Changed();
    }

    method DeleteCharacters(count: int)
      requires Valid()
      modifies Repr()
      ensures Valid() && Repr() == old(Repr())
      ensures Model() == var was := old(Model());
                         Edited(was, ScreenModel.DeleteCharacters(ActiveBuffer(was), was.area, was.pen.style, count))
    {
      var n := Min(Max(1, count), width - active.cursor.column);
      CellStore.DeleteInRow(active.cells, width, height, active.cursor.row, active.cursor.column, n, style);
      Changed();
    }

    method EraseCharacters(count: int)
      requires Valid()
      modifies Repr()
      ensures Valid() && Repr() == old(Repr())
      ensures Model() == var was := old(Model());
                         Edited(was, ScreenModel.EraseCharacters(ActiveBuffer(was), was.area, was.pen.style, count))
    {
      var n := Min(Max(1, count), width - active.cursor.column);
      EraseColumns(active.cursor.column, active.cursor.column + n);
      Changed();
    }

    method EraseLine(mode: nat)
      requires Valid()
      modifies Repr()
      ensures Valid() && Repr() == old(Repr())
      ensures Model() == var was := old(Model());
                         if mode <= 2
                         then Edited(was, ScreenModel.EraseLine(ActiveBuffer(was), was.area, was.pen.style, mode))
                         else was
    {
      var start, end := 0, width;
      if mode == 0 {
        start := active.cursor.column;
      } else if mode == 1 {
        end := active.cursor.column + 1;
      } else if mode != 2 {
        return;
      }
      ghost var was := Model();
      EraseColumns(start, end);
      assert Model() == With(was, ScreenModel.EraseLine(ActiveBuffer(was), was.area, was.pen.style, mode));
      Changed();
    }

    method EraseDisplay(mode: nat)
      requires Valid()
      modifies Repr()
      ensures Valid() && Repr() == old(Repr())
      ensures Model() == var was := old(Model());
                         if mode <= 2 || (mode == 3 && profile.xterm)
                         then Edited(was, ScreenModel.EraseDisplay(ActiveBuffer(was), was.area, was.pen.style, mode))
                         else was
    {
      if mode == 0 {
        CellStore.EraseBelowInPlace(active.cells, width, height, active.cursor.row, active.cursor.column, style);
      } else if mode == 1 {
        CellStore.EraseAboveInPlace(active.cells, width, height, active.cursor.row, active.cursor.column + 1, style);
      } else if mode == 2 || (mode == 3 && profile.xterm) {
        CellStore.EraseAllInPlace(active.cells, width, height, style);
      } else {
        return;
      }
      Changed();
    }

    method InsertLines(count: int)
      requires Valid()
      modifies Repr()
      ensures Valid() && Repr() == old(Repr())
      ensures Model() == var was := old(Model());
                         if InRegion(ActiveBuffer(was), was.area)
                         then Edited(was, ScreenModel.InsertLines(ActiveBuffer(was), was.area, was.pen.style, count))
                         else was
    {
      var row := active.cursor.row;
      if row < scrollTop || row > scrollBottom {
        return;
      }
      InsertLinesInRegion(count);
      Changed();
    }

    method DeleteLines(count: int)
      requires Valid()
      modifies Repr()
      ensures Valid() && Repr() == old(Repr())
      ensures Model() == var was := old(Model());
                         if InRegion(ActiveBuffer(was), was.area)
                         then Edited(was, ScreenModel.DeleteLines(ActiveBuffer(was), was.area, was.pen.style, count))
                         else was
    {
      var row := active.cursor.row;
      if row < scrollTop || row > scrollBottom {
        return;
      }
      DeleteLinesInRegion(count);
      Changed();
    }

    // -------------------------------------------------------------------- printing

    method AppendCombining(rune: char)
      requires Valid()
      modifies Repr()
      ensures Valid() && Repr() == old(Repr())
      ensures Model() == ScreenModel.AppendCombining(old(Model()), rune)
    {
      var column := if wrapPending then active.cursor.column else active.cursor.column - 1;
      if column >= 0 {
        CombineAt(column, rune);
      }
    }

    method CombineAt(column: nat, rune: char)
      requires Valid() && column < width
      modifies Repr()
      ensures Valid() && Repr() == old(Repr())
      ensures Model() == var was := old(Model());
                         var b := ActiveBuffer(was);
                         var target := CombiningTarget(b.grid, was.area.width, b.cursor.row, column);
                         if target.None? then was
                         else
                           var g := AddText(b.grid, was.area.width, target.value.0, target.value.1, rune);
                           Edited(was, b.(grid := g))
    {
      var found := ExtendBefore(column, rune);
      if found {
        Changed();
      }
    }

    method ExtendBefore(column: nat, rune: char) returns (found: bool)
      requires Valid() && column < width
      modifies active.cells
      ensures Valid() && Repr() == old(Repr())
      ensures var was := old(Model());
              var b := ActiveBuffer(was);
              var target := CombiningTarget(b.grid, width, b.cursor.row, column);
              && found == target.Some?
              && Model() ==
                 if found then
                   var g := AddText(b.grid, width, target.value.0, target.value.1, rune);
                   With(was, b.(grid := g))
                 else was
    {
      found := ExtendCell(active.cells, width, height, active.cursor.row, column, rune);
    }

    /** The start of print: ends a pending wrap, and moves a wide rune off the last column. */
    method WrapFor(size: int)
      requires Valid()
      modifies Repr()
      ensures Valid() && Repr() == old(Repr())
      ensures Model() == ScreenModel.WrapFor(old(Model()), size)
    {
      if wrapPending || (size == 2 && active.cursor.column == width - 1 && autoWrap) {
        if autoWrap {
          SetCursor(active.cursor.row, 0);
          LineFeed();
        }
        wrapPending := false;
      }
    }

    method StoreAtCursor(rune: char, size: int)
      requires Valid() && 1 <= size <= 2 && active.cursor.column + size <= width
      modifies active.cells
      ensures Valid() && Repr() == old(Repr())
      ensures Model() == Written(old(Model()), rune, size)
    {
      CellStore.StoreRune(active.cells, width, height, active.cursor.row, active.cursor.column, rune, size, style);
    }

    method Advance(size: int)
      requires Valid() && 1 <= size <= 2
      modifies this, active
      ensures Valid() && Repr() == old(Repr())
      ensures Model() == Advanced(old(Model()), size)
    {
      var end := active.cursor.column + size;
      if end >= width {
        active.cursor := active.cursor.(column := width - 1);
        wrapPending := autoWrap;
      } else {
        active.cursor := active.cursor.(column := end);
      }
      Changed();
    }

    /** The end of print: stores the rune and advances the cursor. */
    method Place(rune: char, size: int)
      requires Valid() && 1 <= size <= 2 && active.cursor.column + size <= width
      modifies Repr()
      ensures Valid() && Repr() == old(Repr())
      ensures Model() == ScreenModel.Place(old(Model()), rune, size)
    {
      StoreAtCursor(rune, size);
      Advance(size);
    }

    method Print(r: char, measured: int)
      requires Valid()
      modifies Repr()
      ensures Valid() && Repr() == old(Repr())
      ensures Model() == PrintRune(old(Model()), r, measured)
    {
      var rune := r;
      if (if charset == 0 then charset0 else charset1) {
        rune := DecSpecialGraphics(r);
      }
      var size := 1;
      if profile.xterm {
        size := measured;
        if size < 0 || size > 2 {
          size := 1;
        }
      }
      if size == 0 {
        AppendCombining(rune);
      } else {
        if size > width {
          size := 1;
        }
        PrintSpacing(rune, size);
      }
    }

    method PrintSpacing(rune: char, fitting: int)
      requires Valid() && 1 <= fitting <= 2
      modifies Repr()
      ensures Valid() && Repr() == old(Repr())
      ensures Model() == ScreenModel.PrintSpacing(old(Model()), rune, fitting)
    {
      var size := fitting;
      WrapFor(size);
      if size == 2 && active.cursor.column == width - 1 {
        size := 1;
      }
      if insertMode {
        InsertCharacters(size);
      }
      Place(rune, size);
    }

    // -------------------------------------------------------------------- controls

    method Report(e: TerminalEvent)
      requires Valid()
      modifies this`events
      ensures Valid() && Repr() == old(Repr())
      ensures Model() == ScreenModel.Report(old(Model()), e)
    {
      events := events + [e];
    }

    method Execute(control: nat)
      requires Valid()
      modifies Repr()
      ensures Valid() && Repr() == old(Repr())
      ensures Model() == ExecuteControl(old(Model()), control)
    {
      if control == 0x05 {
        Report(Enquiry(profile.answerback));
      } else if control == 0x07 {
        Report(Bell);
      } else if control == 0x08 {
        Move(active.cursor.row, Max(0, active.cursor.column - 1));
      } else if control == 0x09 {
        Move(active.cursor.row, Min((active.cursor.column / 8 + 1) * 8, width - 1));
      } else if 0x0a <= control <= 0x0c {
        LineFeedKey();
      } else if control == 0x0d {
        Move(active.cursor.row, 0);
      } else if control == 0x0e {
        charset := 1;
      } else if control == 0x0f {
        charset := 0;
      } else if control >= 0x80 {
        Report(Unsupported(IgnoredC1(control)));
      }
    }

    /** A line feed that also drops a pending wrap. */
    method LineFeedKey()
      requires Valid()
      modifies Repr()
      ensures Valid() && Repr() == old(Repr())
      ensures Model() == var m := old(Model());
                         Moved(m, ScreenModel.LineFeed(ActiveBuffer(m), m.area, m.pen.style))
    {
      LineFeed();
      wrapPending := false;
    }

    method HandleEscape(command: Command)
      requires Valid()
      modifies Repr()
      ensures Valid() && fresh(Repr() - old(Repr()))
      ensures Model() == ScreenModel.HandleEscape(old(Model()), command)
    {
      var designation := command.final == '0' || command.final == 'B';
      if command.intermediate == '(' && designation {
        charset0 := command.final == '0';
      } else if command.intermediate == ')' && designation {
        charset1 := command.final == '0';
      } else if command.intermediate != '\0' {
        Report(Unsupported(IgnoredEscape(command)));
      } else {
        SimpleEscape(command);
      }
    }

    method SimpleEscape(command: Command)
      requires Valid()
      modifies Repr()
      ensures Valid() && fresh(Repr() - old(Repr()))
      ensures Model() == ScreenModel.SimpleEscape(old(Model()), command)
    {
      match command.final
      case '7' => active.savedCursor := active.cursor;
      case '8' =>
        active.cursor := active.savedCursor;
        wrapPending := false;
        Changed();
      case 'D' => LineFeed();
      case 'E' =>
        SetCursor(active.cursor.row, 0);
        LineFeed();
      case 'M' => ReverseIndex();
      case 'c' => Reset();
      case '=' =>
      case '>' =>
      case '\\' =>
      case _ => Report(Unsupported(IgnoredEscape(command)));
    }

    method Reset()
      requires Valid()
      modifies Repr()
      ensures Valid() && fresh(Repr() - old(Repr()))
      ensures Model() == ScreenModel.Reset(old(Model()))
    {
      ResetModes();
      SetRegion(0, height - 1);
      ResetBuffers();
      Changed();
    }

    method ResetModes()
      requires Valid()
      modifies this
      ensures Valid() && Repr() == old(Repr())
      ensures Model() == old(Model()).(wrap := Wrap(false, true), pen := PLAIN_PEN)
    {
      wrapPending, autoWrap := false, true;
      ResetPen();
    }

    method ResetPen()
      requires Valid()
      modifies this`style, this`insertMode, this`applicationCursor, this`charset0, this`charset1, this`charset
      ensures Valid() && Repr() == old(Repr())
      ensures Model() == old(Model()).(pen := PLAIN_PEN)
    {
      style, insertMode, applicationCursor := DEFAULT_CELL, false, false;
      ResetCharsets();
    }

    method ResetCharsets()
      requires Valid()
      modifies this`charset0, this`charset1, this`charset
      ensures Valid() && Repr() == old(Repr())
      ensures Model() == var was := old(Model());
                         was.(pen := was.pen.(charset0 := false, charset1 := false, charset := 0))
    {
      charset0, charset1, charset := false, false, 0;
    }

    method SetRegion(top: nat, bottom: nat)
      requires Valid() && top <= bottom < height
      modifies this`scrollTop, this`scrollBottom
      ensures Valid() && Repr() == old(Repr())
      ensures Model() == var was := old(Model()); was.(area := was.area.(top := top, bottom := bottom))
    {
      scrollTop, scrollBottom := top, bottom;
    }

    method ResetBuffers()
      requires Valid()
      modifies this`active, main, alternate
      ensures Valid() && fresh(Repr() - old(Repr()))
      ensures Model() == var was := old(Model());
                         was.(screens := Screens(NewBuffer(was.area, was.pen.style, true), None, false))
    {
      main.cells := CellStore.NewCells(width, height, style);
      main.cursor, main.savedCursor := ORIGIN.(visible := true), ORIGIN;
      alternate.cells, alternate.cursor, alternate.savedCursor := null, ORIGIN, ORIGIN;
      active := main;
    }

    method HandleOsc(id: int, text: string)
      requires Valid()
      modifies this`title, this`revision, this`events
      ensures Valid() && Repr() == old(Repr())
      ensures Model() == ScreenModel.HandleOsc(old(Model()), id, text)
    {
      if profile.xterm && (id == 0 || id == 2) {
        if text != title {
          title := text;
          Changed();
        }
      } else if profile.xterm && id == 1 {
      } else if id < 0 {
        Report(Unsupported(IgnoredTextOsc));
      } else {
        Report(Unsupported(IgnoredOsc(id)));
      }
    }

    // ----------------------------------------------------------------------- modes

    method SetModes(command: Command, parameters: seq<Parameter>)
      requires Valid()
      modifies this`insertMode, this`events
      ensures Valid() && Repr() == old(Repr())
      ensures Model() == ScreenModel.SetModes(old(Model()), command, parameters)
    {
      var i := 0;
      while i < |parameters|
        invariant 0 <= i <= |parameters|
        invariant Valid() && Repr() == old(Repr())
        invariant ScreenModel.SetModes(Model(), command, parameters[i..]) ==
                  ScreenModel.SetModes(old(Model()), command, parameters)
      {
        var parameter := parameters[i];
        assert parameters[i..][0] == parameter && parameters[i..][1..] == parameters[i + 1..];
        if parameter.present {
          if parameter.value == 4 {
            insertMode := command.final == 'h';
          } else {
            Report(Unsupported(IgnoredCsi(command, [parameter])));
          }
        }
        i := i + 1;
      }
    }

    method SetPrivateModes(command: Command, parameters: seq<Parameter>)
      requires Valid()
      modifies Repr()
      ensures Valid() && fresh(Repr() - old(Repr()))
      ensures Model() == ScreenModel.SetPrivateModes(old(Model()), command, parameters)
    {
      var i := 0;
      while i < |parameters|
        invariant 0 <= i <= |parameters|
        invariant Valid() && fresh(Repr() - old(Repr()))
        invariant ScreenModel.SetPrivateModes(Model(), command, parameters[i..]) ==
                  ScreenModel.SetPrivateModes(old(Model()), command, parameters)
      {
        assert parameters[i..][0] == parameters[i] && parameters[i..][1..] == parameters[i + 1..];
        SetPrivateMode(command, parameters[i]);
        i := i + 1;
      }
    }

    method SetPrivateMode(command: Command, parameter: Parameter)
      requires Valid()
      modifies Repr()
      ensures Valid() && fresh(Repr() - old(Repr()))
      ensures Model() == ScreenModel.SetPrivateMode(old(Model()), command, parameter)
    {
      if !parameter.present {
        return;
      }
      var enabled := command.final == 'h';
      if parameter.value == 1 {
        applicationCursor := enabled;
      } else if parameter.value == 7 {
        autoWrap, wrapPending := enabled, false;
      } else if parameter.value == 25 {
        main.cursor := main.cursor.(visible := enabled);
        if alternate.cells != null {
          alternate.cursor := alternate.cursor.(visible := enabled);
        }
        Changed();
      } else if IgnoredPrivateMode(parameter.value) {
      } else {
        var handled := false;
        if profile.xterm {
          handled := SetXTermPrivateMode(parameter.value, enabled);
        }
        if !handled {
          Report(Unsupported(IgnoredCsi(command, [parameter])));
        }
      }
    }

    /** Reports whether the mode is supported. */
    method SetXTermPrivateMode(mode: nat, enabled: bool) returns (supported: bool)
      requires Valid()
      modifies Repr()
      ensures Valid() && fresh(Repr() - old(Repr()))
      ensures supported == XTermPrivateMode(mode)
      ensures Model() == if supported then SwitchScreen(old(Model()), mode, enabled) else old(Model())
    {
      if mode == 47 || mode == 1047 {
        if enabled {
          EnterAlternate(mode == 1047);
        } else {
          ExitAlternate();
        }
      } else if mode != 1049 {
        return false;
      } else if enabled {
        main.savedCursor := main.cursor;
        EnterAlternate(true);
      } else {
        ExitAlternate();
        var visible := main.cursor.visible;
        main.cursor := main.savedCursor;
        main.cursor := main.cursor.(visible := visible);
      }
      return true;
    }

    method EnterAlternate(clear: bool)
      requires Valid()
      modifies Repr()
      ensures Valid() && fresh(Repr() - old(Repr()))
      ensures Model() == ScreenModel.EnterAlternate(old(Model()), clear)
    {
      if active == alternate {
        if clear {
          alternate.cells := CellStore.NewCells(width, height, style);
          alternate.cursor := ORIGIN.(visible := true);
        }
        return;
      }
      if alternate.cells == null || clear {
        alternate.cells := CellStore.NewCells(width, height, style);
        alternate.cursor, alternate.savedCursor := ORIGIN.(visible := main.cursor.visible), ORIGIN;
      }
      active := alternate;
      wrapPending := false;
      Changed();
    }

    method ExitAlternate()
      requires Valid()
      modifies this
      ensures Valid() && Repr() == old(Repr())
      ensures Model() == ScreenModel.ExitAlternate(old(Model()))
    {
      if active != alternate {
        return;
      }
      active := main;
      wrapPending := false;
      Changed();
    }

    // ------------------------------------------------------------------ renditions

    method SetRendition(parameters: seq<Parameter>)
      requires Valid()
      modifies this`style, this`events
      ensures Valid() && Repr() == old(Repr())
      ensures Model() == ScreenModel.SetRendition(old(Model()), parameters)
    {
      var ps := if |parameters| == 0 then [Parameter(0, true, false)] else parameters;
      ghost var was := Model();
      var i := 0;
      while i < |ps|
        invariant 0 <= i
        invariant Valid()
        invariant Leads(was, Model(), ps, i)
        decreases |ps| - i
      {
        i := NextRendition(ps, i, was);
      }
    }

    method NextRendition(ps: seq<Parameter>, i: nat, ghost was: State) returns (next: nat)
      requires Valid() && i < |ps| && Leads(was, Model(), ps, i)
      modifies this`style, this`events
      ensures Valid() && Repr() == old(Repr())
      ensures i < next && Leads(was, Model(), ps, next)
    {
      ghost var before := Model();
      var last := ApplyRendition(ps, i);
      LeadsStep(was, before, ps, i, Model(), last);
      next := last + 1;
    }

    /** Returns the index of the last parameter consumed. */
    method ApplyRendition(ps: seq<Parameter>, i: nat) returns (last: nat)
      requires Valid() && i < |ps|
      modifies this`style, this`events
      ensures Valid() && Repr() == old(Repr()) && i <= last
      ensures (Model(), last) == RenditionAt(old(Model()), ps, i)
    {
      var value := if ps[i].present then ps[i].value else 0;
      last := i;
      if value == 38 || value == 48 {
        last := SetExtendedColor(ps, i, value == 38);
      } else {
        var change := ChangeOf(profile.xterm, value);
        if change.Some? {
          style := Restyled(style, change.value);
        } else {
          Report(Unsupported(IgnoredRendition(value)));
        }
      }
    }

    /** Returns the index of the last parameter consumed. */
    method SetExtendedColor(parameters: seq<Parameter>, index: nat, foreground: bool) returns (last: nat)
      requires Valid() && index < |parameters|
      modifies this`style, this`events
      ensures Valid() && Repr() == old(Repr()) && index <= last
      ensures (Model(), last) == ExtendedColor(old(Model()), parameters, index, foreground)
    {
      var selector := parameters[index].value;
      if !profile.xterm {
        Report(Unsupported(IgnoredRendition(selector)));
        return index;
      }
      if index + 1 < |parameters| && parameters[index + 1].value == 2 {
        Report(Unsupported(IgnoredTrueColor(selector)));
        if parameters[index].more {
          last := index;
          while last < |parameters| - 1 && parameters[last].more
            invariant index <= last < |parameters|
            invariant GroupEnd(parameters, last) == GroupEnd(parameters, index)
          {
            last := last + 1;
          }
          return;
        }
        return Min(index + 4, |parameters| - 1);
      }
      if index + 2 >= |parameters| || parameters[index + 1].value != 5 || !parameters[index + 2].present {
        return index;
      }
      var color := parameters[index + 2].value;
      if color > 255 {
        return index + 2;
      }
      if foreground {
        style := style.(foreground := color);
      } else {
        style := style.(background := color);
      }
      return index + 2;
    }

    // ------------------------------------------------------------ control sequences

    method SetScrollRegion(parameters: seq<Parameter>)
      requires Valid()
      modifies this, active
      ensures Valid() && Repr() == old(Repr())
      ensures Model() == ScreenModel.SetScrollRegion(old(Model()), parameters)
    {
      var top := Param(parameters, 0, 1) - 1;
      var bottom := Param(parameters, 1, height) - 1;
      if top < 0 || bottom >= height || top >= bottom {
        return;
      }
      SetRegion(top, bottom);
      Move(0, 0);
    }

    method HandleCsi(command: Command, parameters: seq<Parameter>)
      requires Valid()
      modifies Repr()
      ensures Valid() && fresh(Repr() - old(Repr()))
      ensures Model() == ScreenModel.HandleCsi(old(Model()), command, parameters)
    {
      if command.prefix == '?' && command.intermediate == '\0' && (command.final == 'h' || command.final == 'l') {
        SetPrivateModes(command, parameters);
      } else if command.prefix != '\0' || command.intermediate != '\0' {
        Report(Unsupported(IgnoredCsi(command, parameters)));
      } else if IsMovement(command.final) {
        MoveCursor(command.final, parameters);
      } else if IsEdit(command.final) {
        Edit(command.final, parameters);
      } else if command.final == 'h' || command.final == 'l' {
        SetModes(command, parameters);
      } else if command.final == 'm' {
        SetRendition(parameters);
      } else if command.final == 'r' {
        SetScrollRegion(parameters);
      } else {
        Report(Unsupported(IgnoredCsi(command, parameters)));
      }
    }

    method MoveCursor(final: char, parameters: seq<Parameter>)
      requires Valid() && IsMovement(final)
      modifies this, active
      ensures Valid() && Repr() == old(Repr())
      ensures Model() == ApplyMovement(old(Model()), final, parameters)
    {
      var row, column := Target(final, parameters);
      Move(row, column);
    }

    method Target(final: char, parameters: seq<Parameter>) returns (row: int, column: int)
      requires Valid() && IsMovement(final)
      ensures Destination(ActiveBuffer(Model()), Model().area, final, parameters) == Some((row, column))
    {
      var n := Param(parameters, 0, 1);
      row, column := active.cursor.row, active.cursor.column;
      match final
      case 'A' => row := Max(0, row - n);
      case 'B' => row := Min(height - 1, row + n);
      case 'C' => column := Min(width - 1, column + n);
      case 'D' => column := Max(0, column - n);
      case 'G' => column := Min(width - 1, Max(0, n - 1));
      case _ =>
        row := Min(height - 1, Max(0, n - 1));
        column := Min(width - 1, Max(0, Param(parameters, 1, 1) - 1));
    }

    method Edit(final: char, parameters: seq<Parameter>)
      requires Valid() && IsEdit(final)
      modifies Repr()
      ensures Valid() && Repr() == old(Repr())
      ensures Model() == ApplyEdit(old(Model()), final, parameters)
    {
      match final
      case '@' => InsertCharacters(Param(parameters, 0, 1));
      case 'J' => EraseDisplay(Param(parameters, 0, 0));
      case 'K' => EraseLine(Param(parameters, 0, 0));
      case 'L' => InsertLines(Param(parameters, 0, 1));
      case 'M' => DeleteLines(Param(parameters, 0, 1));
      case 'P' => DeleteCharacters(Param(parameters, 0, 1));
      case _ => EraseCharacters(Param(parameters, 0, 1));
    }

    // ------------------------------------------------------------------ entry points

    method Dispatch(input: Input)
      requires Valid()
      modifies Repr()
      ensures Valid() && fresh(Repr() - old(Repr()))
      ensures Model() == Step(old(Model()), input)
    {
      match input
      case Print(rune, measured) => Print(rune, measured);
      case Execute(control) => Execute(control);
      case Csi(command, parameters) => HandleCsi(command, parameters);
      case Escape(command) => HandleEscape(command);
      case Osc(id, text) => HandleOsc(id, text);
      case Dcs(command, parameters) => Report(Unsupported(IgnoredDcs(command, parameters)));
      case ControlString(kind) => Report(Unsupported(IgnoredString(kind)));
    }

    method Write(inputs: seq<Input>)
      requires Valid()
      modifies Repr()
      ensures Valid() && fresh(Repr() - old(Repr()))
      ensures Model() == ScreenModel.Write(old(Model()), inputs)
    {
      var before := revision;
      var i := 0;
      while i < |inputs|
        invariant 0 <= i <= |inputs|
        invariant Valid() && fresh(Repr() - old(Repr()))
        invariant Feed(Model(), inputs[i..]) == Feed(old(Model()), inputs)
      {
        assert inputs[i..][0] == inputs[i] && inputs[i..][1..] == inputs[i + 1..];
        Dispatch(inputs[i]);
        i := i + 1;
      }
      if revision != before {
        revision := before + 1;
      }
    }

    /** Refuses dimensions that are not positive. */
    method Resize(newWidth: int, newHeight: int) returns (ok: bool)
      requires Valid()
      modifies Repr()
      ensures Valid() && fresh(Repr() - old(Repr()))
      ensures ok <==> newWidth > 0 && newHeight > 0
      ensures Model() == ScreenModel.Resize(old(Model()), newWidth, newHeight)
    {
      if newWidth <= 0 || newHeight <= 0 {
        return false;
      }
      ok := true;
      if newWidth == width && newHeight == height {
        return;
      }
      ghost var was := Model();
      ResizeBuffers(newWidth, newHeight);
      ResizedScreensFit(was.screens, was.area, newWidth, newHeight, style);
      wrapPending := false;
      Changed();
    }

    method ResizeBuffers(newWidth: nat, newHeight: nat)
      requires Valid() && newWidth > 0 && newHeight > 0
      modifies Repr()
      ensures Shaped() && fresh(Repr() - old(Repr()))
      ensures Model() == var was := old(Model());
                         was.(area := Area(newWidth, newHeight, 0, newHeight - 1),
                              screens := ResizeScreens(was.screens, newWidth, newHeight, was.pen.style))
    {
      ResizeStores(newWidth, newHeight);
      width, height, scrollTop, scrollBottom := newWidth, newHeight, 0, newHeight - 1;
    }

    /** Gives both buffers their new size while the terminal still has its old dimensions. */
    method ResizeStores(newWidth: nat, newHeight: nat)
      requires Valid() && newWidth > 0 && newHeight > 0
      modifies main, alternate
      ensures main.cells != null && fresh(main.cells) && main.cells.Length == Offset(newWidth, newHeight)
      ensures (alternate.cells == null) == old(alternate.cells == null)
      ensures alternate.cells != null ==>
        fresh(alternate.cells) && alternate.cells.Length == Offset(newWidth, newHeight) && alternate.cells != main.cells
      ensures var was := old(Model()).screens;
              && Stored(main.cells[..], main.cursor, main.savedCursor, newWidth, newHeight) ==
                 ScreenModel.ResizeBuffer(was.main, newWidth, newHeight, style)
              && (alternate.cells != null ==>
                    Stored(alternate.cells[..], alternate.cursor, alternate.savedCursor, newWidth, newHeight) ==
                    ScreenModel.ResizeBuffer(was.alternate.value, newWidth, newHeight, style))
    {
      ResizeBuffer(main, newWidth, newHeight);
      if alternate.cells != null {
        ResizeBuffer(alternate, newWidth, newHeight);
      }
    }

    /** Works on one buffer while the terminal still has its old dimensions. */
    method ResizeBuffer(buffer: ScreenBuffer, newWidth: nat, newHeight: nat)
      requires newWidth > 0 && newHeight > 0
      requires buffer.cells != null && buffer.cells.Length == Offset(width, height)
      modifies buffer
      ensures buffer.cells != null && fresh(buffer.cells) && buffer.cells.Length == Offset(newWidth, newHeight)
      ensures Stored(buffer.cells[..], buffer.cursor, buffer.savedCursor, newWidth, newHeight) ==
              ScreenModel.ResizeBuffer(
                Stored(old(buffer.cells[..]), old(buffer.cursor), old(buffer.savedCursor), width, height),
                newWidth, newHeight, style)
    {
      buffer.cells := CellStore.ResizedCells(buffer.cells, width, height, newWidth, newHeight, style);
      buffer.cursor := ClampCursor(buffer.cursor, newWidth, newHeight);
      buffer.savedCursor := ClampCursor(buffer.savedCursor, newWidth, newHeight);
    }
  }

  const VT220 := 0

  const XTERM := 1

  /** A new terminal, unless a dimension is not positive or the profile is unknown. */
  method New(width: int, height: int, profile: int) returns (terminal: Terminal?)
    ensures terminal == null <==> width <= 0 || height <= 0 || (profile != VT220 && profile != XTERM)
    ensures terminal != null ==>
      && terminal.Valid() && fresh(terminal.Repr())
      && terminal.Model() == Fresh(Profile(profile == XTERM, ""), width, height)
  {
    if width <= 0 || height <= 0 {
      return null;
    }
    var xterm: bool;
    match profile {
      case 0 => xterm := false;
      case 1 => xterm := true;
      case _ => return null;
    }
    terminal := new Terminal(Profile(xterm, ""), width, height);
  }
}
