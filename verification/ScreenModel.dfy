/** The state of the ANSI/DEC screen engine and the effect of every parser event on it.

    The engine's methods (module TerminalEngine) are proved to compute these functions; what the engine
    promises is proved about them. Functions on a buffer take the screen area and the current
    style; functions on the whole state apply them to the active buffer. */
module ScreenModel {
  import opened Cells
  import opened Grids
  import opened Options

  function Min(a: int, b: int): int { if a < b then a else b }

  function Max(a: int, b: int): int { if a > b then a else b }

  // ------------------------------------------------------------------- input

  /** A control function; '\0' stands for an absent prefix or intermediate byte. */
  datatype Command = Command(prefix: char, intermediate: char, final: char)

  datatype Parameter = Parameter(value: nat, present: bool, more: bool)

  /** What the byte-stream parser reports. `measured` is the width the rune-width library gives
      the rune that will be stored, which may be any integer. `text` is an OSC payload with
      invalid UTF-8 already replaced. */
  datatype Input =
    | Print(rune: char, measured: int)
    | Execute(control: nat)
    | Csi(command: Command, parameters: seq<Parameter>)
    | Escape(command: Command)
    | Osc(id: int, text: string)
    | Dcs(command: Command, parameters: seq<Parameter>)
    | ControlString(kind: string)

  /** Identifies an ignored sequence. */
  datatype Sequence =
    | IgnoredCsi(command: Command, parameters: seq<Parameter>)
    | IgnoredEscape(command: Command)
    | IgnoredDcs(command: Command, parameters: seq<Parameter>)
    | IgnoredOsc(id: int)
    | IgnoredTextOsc
    | IgnoredString(kind: string)
    | IgnoredC1(control: nat)
    | IgnoredRendition(value: nat)
    | IgnoredTrueColor(selector: nat)

  datatype TerminalEvent = Bell | Enquiry(answerback: string) | Unsupported(sequence: Sequence)

  // ------------------------------------------------------------------- state

  datatype Cursor = Cursor(column: int, row: int, visible: bool)

  const ORIGIN := Cursor(0, 0, false)

  datatype Buffer = Buffer(grid: Grid, cursor: Cursor, saved: Cursor)

  /** Dimensions and scroll region. */
  datatype Area = Area(width: nat, height: nat, top: nat, bottom: nat)

  datatype Screens = Screens(main: Buffer, alternate: Option<Buffer>, onAlternate: bool)

  datatype Wrap = Wrap(pending: bool, auto: bool)

  datatype Profile = Profile(xterm: bool, answerback: string)

  datatype Pen = Pen(style: Cell, insertMode: bool, applicationCursor: bool,
                     charset0: bool, charset1: bool, charset: nat)

  datatype Log = Log(revision: nat, events: seq<TerminalEvent>, title: string)

  datatype State = State(profile: Profile, area: Area, screens: Screens, wrap: Wrap, pen: Pen, log: Log)

  predicate InArea(c: Cursor, a: Area) {
    0 <= c.column < a.width && 0 <= c.row < a.height
  }

  predicate AreaOk(a: Area) {
    0 < a.width && a.top <= a.bottom < a.height
  }

  predicate BufferFits(b: Buffer, a: Area) {
    Fits(b.grid, a.width, a.height) && InArea(b.cursor, a) && InArea(b.saved, a)
  }

  predicate ScreensFit(s: Screens, a: Area) {
    && BufferFits(s.main, a)
    && (s.alternate.Some? ==> BufferFits(s.alternate.value, a))
    && (s.onAlternate ==> s.alternate.Some?)
  }

  /** The shape every reachable state has. */
  predicate Geometry(s: State) {
    && AreaOk(s.area)
    && ScreensFit(s.screens, s.area)
    && (s.wrap.pending ==> s.wrap.auto)
  }

  function Active(s: Screens): Buffer
    requires s.onAlternate ==> s.alternate.Some?
  {
    if s.onAlternate then s.alternate.value else s.main
  }

  function WithActive(s: Screens, b: Buffer): Screens {
    if s.onAlternate then s.(alternate := Some(b)) else s.(main := b)
  }

  function ActiveBuffer(s: State): (b: Buffer)
    requires Geometry(s)
    ensures BufferFits(b, s.area)
  {
    Active(s.screens)
  }

  function NewBuffer(a: Area, style: Cell, visible: bool): (b: Buffer)
    requires AreaOk(a)
    ensures BufferFits(b, a)
  {
    Buffer(BlankGrid(style, a.width, a.height), ORIGIN.(visible := visible), ORIGIN)
  }

  const PLAIN_PEN := Pen(DEFAULT_CELL, false, false, false, false, 0)

  function Fresh(profile: Profile, width: nat, height: nat): (s: State)
    requires width > 0 && height > 0
    ensures Geometry(s)
  {
    var area := Area(width, height, 0, height - 1);
    State(profile, area, Screens(NewBuffer(area, DEFAULT_CELL, true), None, false),
          Wrap(false, true), PLAIN_PEN, Log(0, [], ""))
  }

  // ------------------------------------------------------- what changes in a state

  function Bump(log: Log): Log {
    log.(revision := log.revision + 1)
  }

  /** Puts a new value in the active buffer and raises the revision. */
  function Edited(s: State, b: Buffer): (r: State)
    requires Geometry(s) && BufferFits(b, s.area)
    ensures Geometry(r)
  {
    s.(screens := WithActive(s.screens, b), log := Bump(s.log))
  }

  function Unwrapped(s: State): (r: State)
    requires Geometry(s)
    ensures Geometry(r)
  {
    s.(wrap := s.wrap.(pending := false))
  }

  /** The same for an edit that also ends a pending wrap. */
  function Moved(s: State, b: Buffer): (r: State)
    requires Geometry(s) && BufferFits(b, s.area)
    ensures Geometry(r)
  {
    Unwrapped(Edited(s, b))
  }

  function Report(s: State, e: TerminalEvent): (r: State)
    ensures Geometry(s) ==> Geometry(r)
  {
    s.(log := s.log.(events := s.log.events + [e]))
  }

  function Ignore(s: State, sequence: Sequence): (r: State)
    ensures Geometry(s) ==> Geometry(r)
  {
    Report(s, Unsupported(sequence))
  }

  // ------------------------------------------------------------------ buffer edits

  function WithRow(b: Buffer, a: Area, row: Row): (r: Buffer)
    requires BufferFits(b, a) && |row| == a.width
    ensures BufferFits(r, a)
  {
    b.(grid := b.grid[b.cursor.row := row])
  }

  function MoveTo(b: Buffer, a: Area, row: int, column: int): (r: Buffer)
    requires BufferFits(b, a) && 0 <= row < a.height && 0 <= column < a.width
    ensures BufferFits(r, a)
  {
    b.(cursor := b.cursor.(row := row, column := column))
  }

  function ScrollUp(b: Buffer, a: Area, style: Cell): (r: Buffer)
    requires AreaOk(a) && BufferFits(b, a)
    ensures BufferFits(r, a)
  {
    b.(grid := DeleteRows(b.grid, a.top, a.bottom, 1, BlankRow(style, a.width)))
  }

  function LineFeed(b: Buffer, a: Area, style: Cell): (r: Buffer)
    requires AreaOk(a) && BufferFits(b, a)
    ensures BufferFits(r, a)
  {
    if b.cursor.row == a.bottom then ScrollUp(b, a, style)
    else if b.cursor.row < a.height - 1 then MoveTo(b, a, b.cursor.row + 1, b.cursor.column)
    else b
  }

  function ReverseIndex(b: Buffer, a: Area, style: Cell): (r: Buffer)
    requires AreaOk(a) && BufferFits(b, a)
    ensures BufferFits(r, a)
  {
    if b.cursor.row == a.top then b.(grid := InsertRows(b.grid, a.top, a.bottom, 1, BlankRow(style, a.width)))
    else if b.cursor.row > 0 then MoveTo(b, a, b.cursor.row - 1, b.cursor.column)
    else b
  }

  /** How many of `count` cells lie between the cursor and the right edge; at least one. */
  function CellCount(b: Buffer, a: Area, count: int): (n: nat)
    requires BufferFits(b, a)
    ensures 1 <= n && b.cursor.column + n <= a.width
  {
    Min(Max(1, count), a.width - b.cursor.column)
  }

  function InsertCharacters(b: Buffer, a: Area, style: Cell, count: int): (r: Buffer)
    requires BufferFits(b, a)
    ensures BufferFits(r, a)
  {
    WithRow(b, a, InsertCells(b.grid[b.cursor.row], b.cursor.column, CellCount(b, a, count), style))
  }

  function DeleteCharacters(b: Buffer, a: Area, style: Cell, count: int): (r: Buffer)
    requires BufferFits(b, a)
    ensures BufferFits(r, a)
  {
    WithRow(b, a, DeleteCells(b.grid[b.cursor.row], b.cursor.column, CellCount(b, a, count), style))
  }

  function EraseCharacters(b: Buffer, a: Area, style: Cell, count: int): (r: Buffer)
    requires BufferFits(b, a)
    ensures BufferFits(r, a)
  {
    var column := b.cursor.column;
    WithRow(b, a, EraseRow(b.grid[b.cursor.row], column, column + CellCount(b, a, count), style))
  }

  function EraseLine(b: Buffer, a: Area, style: Cell, mode: nat): (r: Buffer)
    requires BufferFits(b, a) && mode <= 2
    ensures BufferFits(r, a)
  {
    var row := b.grid[b.cursor.row];
    WithRow(b, a,
            if mode == 0 then EraseRow(row, b.cursor.column, a.width, style)
            else if mode == 1 then EraseRow(row, 0, b.cursor.column + 1, style)
            else EraseRow(row, 0, a.width, style))
  }

  function EraseDisplay(b: Buffer, a: Area, style: Cell, mode: nat): (r: Buffer)
    requires BufferFits(b, a) && mode <= 3
    ensures BufferFits(r, a)
  {
    b.(grid :=
         if mode == 0 then EraseBelow(b.grid, a.width, b.cursor.row, b.cursor.column, style)
         else if mode == 1 then EraseAbove(b.grid, a.width, b.cursor.row, b.cursor.column + 1, style)
         else BlankGrid(style, a.width, a.height))
  }

  predicate InRegion(b: Buffer, a: Area) {
    a.top <= b.cursor.row <= a.bottom
  }

  /** How many of `count` lines lie between the cursor and the bottom margin; at least one. */
  function LineCount(b: Buffer, a: Area, count: int): (n: nat)
    requires InRegion(b, a)
    ensures 1 <= n && b.cursor.row + n <= a.bottom + 1
  {
    Min(Max(1, count), a.bottom - b.cursor.row + 1)
  }

  function InsertLines(b: Buffer, a: Area, style: Cell, count: int): (r: Buffer)
    requires AreaOk(a) && BufferFits(b, a) && InRegion(b, a)
    ensures BufferFits(r, a)
  {
    b.(grid := InsertRows(b.grid, b.cursor.row, a.bottom, LineCount(b, a, count), BlankRow(style, a.width)))
  }

  function DeleteLines(b: Buffer, a: Area, style: Cell, count: int): (r: Buffer)
    requires AreaOk(a) && BufferFits(b, a) && InRegion(b, a)
    ensures BufferFits(r, a)
  {
    b.(grid := DeleteRows(b.grid, b.cursor.row, a.bottom, LineCount(b, a, count), BlankRow(style, a.width)))
  }

  // ------------------------------------------------------------------ printing

  function DecSpecialGraphics(rune: char): char {
    match rune
    case 'j' => '\U{2518}'
    case 'k' => '\U{2510}'
    case 'l' => '\U{250C}'
    case 'm' => '\U{2514}'
    case 'n' => '\U{253C}'
    case 'q' => '\U{2500}'
    case 't' => '\U{251C}'
    case 'u' => '\U{2524}'
    case 'v' => '\U{2534}'
    case 'w' => '\U{252C}'
    case 'x' => '\U{2502}'
    case _ => rune
  }

  /** The cell a combining rune extends: the nearest one at or before (row, column), in reading
      order, that is not a continuation. */
  function CombiningTarget(g: Grid, width: nat, row: nat, column: nat): (t: Option<(nat, nat)>)
    requires Fits(g, width, |g|) && row < |g| && column < width
    ensures t.Some? ==> t.value.0 < |g| && t.value.1 < width && g[t.value.0][t.value.1].width != 0
    decreases row, column
  {
    if g[row][column].width != 0 then Some((row, column))
    else if column > 0 then CombiningTarget(g, width, row, column - 1)
    else if row > 0 then CombiningTarget(g, width, row - 1, width - 1)
    else None
  }

  function AddText(g: Grid, width: nat, row: nat, column: nat, rune: char): (r: Grid)
    requires Fits(g, width, |g|) && row < |g| && column < width
    ensures Fits(r, width, |g|)
  {
    g[row := g[row][column := g[row][column].(text := g[row][column].text + [rune])]]
  }

  function AppendCombining(s: State, rune: char): (r: State)
    requires Geometry(s)
    ensures Geometry(r)
  {
    var b := ActiveBuffer(s);
    var column := if s.wrap.pending then b.cursor.column else b.cursor.column - 1;
    if column < 0 then s
    else
      var target := CombiningTarget(b.grid, s.area.width, b.cursor.row, column);
      if target.None? then s
      else Edited(s, b.(grid := AddText(b.grid, s.area.width, target.value.0, target.value.1, rune)))
  }

  /** Starts a new line when the previous rune left the wrap pending, or when a wide rune does not
      fit in the last column. */
  function WrapFor(s: State, width: int): (r: State)
    requires Geometry(s)
    ensures Geometry(r) && !r.wrap.pending && r.area == s.area
  {
    var b := ActiveBuffer(s);
    if s.wrap.pending || (width == 2 && b.cursor.column == s.area.width - 1 && s.wrap.auto) then
      Unwrapped(
        if s.wrap.auto
        then Edited(s, LineFeed(MoveTo(b, s.area, b.cursor.row, 0), s.area, s.pen.style))
        else s)
    else s
  }

  /** Writes a rune at the cursor. */
  function Written(s: State, rune: char, width: int): (r: State)
    requires Geometry(s) && 1 <= width <= 2 && ActiveBuffer(s).cursor.column + width <= s.area.width
    ensures Geometry(r)
  {
    var b := ActiveBuffer(s);
    var row := PutRune(b.grid[b.cursor.row], b.cursor.column, rune, width, s.pen.style);
    s.(screens := WithActive(s.screens, WithRow(b, s.area, row)))
  }

  /** Moves the cursor past a rune; a full line leaves the wrap pending. */
  function Advanced(s: State, width: int): (r: State)
    requires Geometry(s) && 1 <= width <= 2
    ensures Geometry(r)
  {
    var b := ActiveBuffer(s);
    var end := b.cursor.column + width;
    var r := Edited(s, MoveTo(b, s.area, b.cursor.row, if end >= s.area.width then s.area.width - 1 else end));
    if end >= s.area.width then r.(wrap := r.wrap.(pending := r.wrap.auto)) else r
  }

  function Place(s: State, rune: char, width: int): (r: State)
    requires Geometry(s) && 1 <= width <= 2 && ActiveBuffer(s).cursor.column + width <= s.area.width
    ensures Geometry(r)
  {
    Advanced(Written(s, rune, width), width)
  }

  function MeasuredWidth(s: State, measured: int): (w: int)
    ensures 0 <= w <= 2
  {
    if s.profile.xterm && 0 <= measured <= 2 then measured else 1
  }

  function Translate(pen: Pen, rune: char): char {
    if (if pen.charset == 0 then pen.charset0 else pen.charset1) then DecSpecialGraphics(rune) else rune
  }

  /** A wide rune takes one cell where two are not to be had. */
  function FinalSize(s: State, fitting: int): int
    requires Geometry(s)
  {
    if fitting == 2 && ActiveBuffer(s).cursor.column == s.area.width - 1 then 1 else fitting
  }

  /** Insert mode makes room for the rune. */
  function Opened(s: State, size: int): (r: State)
    requires Geometry(s)
    ensures Geometry(r) && r.area == s.area && ActiveBuffer(r).cursor == ActiveBuffer(s).cursor
  {
    if s.pen.insertMode then Edited(s, InsertCharacters(ActiveBuffer(s), s.area, s.pen.style, size)) else s
  }

  function PrintSpacing(s: State, rune: char, fitting: int): (r: State)
    requires Geometry(s) && 1 <= fitting <= 2
    ensures Geometry(r)
  {
    var wrapped := WrapFor(s, fitting);
    var size := FinalSize(wrapped, fitting);
    Place(Opened(wrapped, size), rune, size)
  }

  function PrintRune(s: State, rune: char, measured: int): (r: State)
    requires Geometry(s)
    ensures Geometry(r)
  {
    var natural := MeasuredWidth(s, measured);
    if natural == 0 then AppendCombining(s, Translate(s.pen, rune))
    else PrintSpacing(s, Translate(s.pen, rune), if natural > s.area.width then 1 else natural)
  }

  // ---------------------------------------------------------------------- controls

  function ExecuteControl(s: State, control: nat): (r: State)
    requires Geometry(s)
    ensures Geometry(r)
  {
    var b := ActiveBuffer(s);
    if control == 0x05 then Report(s, Enquiry(s.profile.answerback))
    else if control == 0x07 then Report(s, Bell)
    else if control == 0x08 then Moved(s, MoveTo(b, s.area, b.cursor.row, Max(0, b.cursor.column - 1)))
    else if control == 0x09 then
      Moved(s, MoveTo(b, s.area, b.cursor.row, Min((b.cursor.column / 8 + 1) * 8, s.area.width - 1)))
    else if 0x0a <= control <= 0x0c then Moved(s, LineFeed(b, s.area, s.pen.style))
    else if control == 0x0d then Moved(s, MoveTo(b, s.area, b.cursor.row, 0))
    else if control == 0x0e then s.(pen := s.pen.(charset := 1))
    else if control == 0x0f then s.(pen := s.pen.(charset := 0))
    else if control >= 0x80 then Ignore(s, IgnoredC1(control))
    else s
  }

  function Reset(s: State): (r: State)
    requires Geometry(s)
    ensures Geometry(r)
  {
    Fresh(s.profile, s.area.width, s.area.height).(log := Bump(s.log))
  }

  function SimpleEscape(s: State, command: Command): (r: State)
    requires Geometry(s)
    ensures Geometry(r)
  {
    var b := ActiveBuffer(s);
    match command.final
    case '7' => s.(screens := WithActive(s.screens, b.(saved := b.cursor)))
    case '8' => Moved(s, b.(cursor := b.saved))
    case 'D' => Edited(s, LineFeed(b, s.area, s.pen.style))
    case 'E' => Edited(s, LineFeed(MoveTo(b, s.area, b.cursor.row, 0), s.area, s.pen.style))
    case 'M' => Edited(s, ReverseIndex(b, s.area, s.pen.style))
    case 'c' => Reset(s)
    case '=' => s
    case '>' => s
    case '\\' => s
    case _ => Ignore(s, IgnoredEscape(command))
  }

  function HandleEscape(s: State, command: Command): (r: State)
    requires Geometry(s)
    ensures Geometry(r)
  {
    var designation := command.final == '0' || command.final == 'B';
    if command.intermediate == '(' && designation then s.(pen := s.pen.(charset0 := command.final == '0'))
    else if command.intermediate == ')' && designation then s.(pen := s.pen.(charset1 := command.final == '0'))
    else if command.intermediate != '\0' then Ignore(s, IgnoredEscape(command))
    else SimpleEscape(s, command)
  }

  function HandleOsc(s: State, id: int, text: string): (r: State)
    requires Geometry(s)
    ensures Geometry(r)
  {
    if s.profile.xterm && (id == 0 || id == 2) then
      if text != s.log.title then s.(log := Bump(s.log.(title := text))) else s
    else if s.profile.xterm && id == 1 then s
    else if id < 0 then Ignore(s, IgnoredTextOsc)
    else Ignore(s, IgnoredOsc(id))
  }

  // ------------------------------------------------------------------------ modes

  function SetMode(s: State, command: Command, p: Parameter): (r: State)
    requires Geometry(s)
    ensures Geometry(r)
  {
    if !p.present then s
    else if p.value == 4 then s.(pen := s.pen.(insertMode := command.final == 'h'))
    else Ignore(s, IgnoredCsi(command, [p]))
  }

  function SetModes(s: State, command: Command, parameters: seq<Parameter>): (r: State)
    requires Geometry(s)
    ensures Geometry(r)
    decreases |parameters|
  {
    if parameters == [] then s else SetModes(SetMode(s, command, parameters[0]), command, parameters[1..])
  }

  /** Private modes that concern only input the library never sends. */
  predicate IgnoredPrivateMode(mode: nat) {
    || mode == 12 || mode == 1000 || mode == 1015 || mode == 2004 || 1002 <= mode <= 1006
  }

  predicate XTermPrivateMode(mode: nat) {
    mode == 47 || mode == 1047 || mode == 1049
  }

  function Shown(b: Buffer, visible: bool): Buffer {
    b.(cursor := b.cursor.(visible := visible))
  }

  function ShowCursor(s: Screens, visible: bool): Screens {
    s.(main := Shown(s.main, visible),
       alternate := if s.alternate.Some? then Some(Shown(s.alternate.value, visible)) else None)
  }

  function SaveMain(s: Screens): Screens {
    s.(main := s.main.(saved := s.main.cursor))
  }

  function RestoreMain(s: Screens): Screens {
    s.(main := s.main.(cursor := s.main.saved.(visible := s.main.cursor.visible)))
  }

  function EnterAlternate(s: State, clear: bool): (r: State)
    requires Geometry(s)
    ensures Geometry(r)
  {
    if s.screens.onAlternate then
      if clear then
        var cleared := NewBuffer(s.area, s.pen.style, true).(saved := ActiveBuffer(s).saved);
        s.(screens := WithActive(s.screens, cleared))
      else s
    else
      var target :=
        if s.screens.alternate.None? || clear
        then NewBuffer(s.area, s.pen.style, s.screens.main.cursor.visible)
        else s.screens.alternate.value;
      Unwrapped(s.(screens := Screens(s.screens.main, Some(target), true), log := Bump(s.log)))
  }

  function ExitAlternate(s: State): (r: State)
    requires Geometry(s)
    ensures Geometry(r)
  {
    if s.screens.onAlternate
    then Unwrapped(s.(screens := s.screens.(onAlternate := false), log := Bump(s.log)))
    else s
  }

  function SwitchScreen(s: State, mode: nat, enabled: bool): (r: State)
    requires Geometry(s)
    ensures Geometry(r)
  {
    if mode == 1049 then
      if enabled then EnterAlternate(s.(screens := SaveMain(s.screens)), true)
      else
        var t := ExitAlternate(s);
        t.(screens := RestoreMain(t.screens))
    else if enabled then EnterAlternate(s, mode == 1047)
    else ExitAlternate(s)
  }

  function SetPrivateMode(s: State, command: Command, p: Parameter): (r: State)
    requires Geometry(s)
    ensures Geometry(r)
  {
    var enabled := command.final == 'h';
    if !p.present then s
    else if p.value == 1 then s.(pen := s.pen.(applicationCursor := enabled))
    else if p.value == 7 then s.(wrap := Wrap(false, enabled))
    else if p.value == 25 then s.(screens := ShowCursor(s.screens, enabled), log := Bump(s.log))
    else if IgnoredPrivateMode(p.value) then s
    else if s.profile.xterm && XTermPrivateMode(p.value) then SwitchScreen(s, p.value, enabled)
    else Ignore(s, IgnoredCsi(command, [p]))
  }

  function SetPrivateModes(s: State, command: Command, parameters: seq<Parameter>): (r: State)
    requires Geometry(s)
    ensures Geometry(r)
    decreases |parameters|
  {
    if parameters == [] then s
    else SetPrivateModes(SetPrivateMode(s, command, parameters[0]), command, parameters[1..])
  }

  // ------------------------------------------------------------------- renditions

  function WithStyle(s: State, style: Cell): (r: State)
    ensures Geometry(s) ==> Geometry(r)
  {
    s.(pen := s.pen.(style := style))
  }

  /** What a simple rendition asks for. */
  datatype Change = Clear | On(attribute: Attribute) | Off(attribute: Attribute) | Fore(color: int) | Back(color: int)

  /** The change a code stands for, if it is supported. */
  function ChangeOf(xterm: bool, value: nat): Option<Change> {
    match value
    case 0 => Some(Clear)
    case 1 => Some(On(Bold))
    case 4 => Some(On(Underline))
    case 5 => Some(On(Blink))
    case 7 => Some(On(Reverse))
    case 8 => Some(On(Conceal))
    case 22 => Some(Off(Bold))
    case 24 => Some(Off(Underline))
    case 25 => Some(Off(Blink))
    case 27 => Some(Off(Reverse))
    case 28 => Some(Off(Conceal))
    case 39 => Some(Fore(DEFAULT_COLOR))
    case 49 => Some(Back(DEFAULT_COLOR))
    case _ =>
      if 30 <= value <= 37 then Some(Fore(value - 30))
      else if 40 <= value <= 47 then Some(Back(value - 40))
      else if xterm && 90 <= value <= 97 then Some(Fore(value - 90 + 8))
      else if xterm && 100 <= value <= 107 then Some(Back(value - 100 + 8))
      else None
  }

  function Restyled(style: Cell, change: Change): Cell {
    match change
    case Clear => DEFAULT_CELL
    case On(attribute) => style.(attributes := style.attributes + {attribute})
    case Off(attribute) => style.(attributes := style.attributes - {attribute})
    case Fore(color) => style.(foreground := color)
    case Back(color) => style.(background := color)
  }

  /** The end of the colon-separated group that starts at `i`. */
  function GroupEnd(parameters: seq<Parameter>, i: nat): (r: nat)
    requires i < |parameters|
    ensures i <= r < |parameters|
    decreases |parameters| - i
  {
    if i < |parameters| - 1 && parameters[i].more then GroupEnd(parameters, i + 1) else i
  }

  /** Selector 38 or 48 at `i`. */
  function ExtendedColor(s: State, parameters: seq<Parameter>, i: nat, foreground: bool): (r: (State, nat))
    requires Geometry(s) && i < |parameters|
    ensures Geometry(r.0) && i <= r.1
  {
    var selector := parameters[i].value;
    if !s.profile.xterm then (Ignore(s, IgnoredRendition(selector)), i)
    else if i + 1 < |parameters| && parameters[i + 1].value == 2 then
      (Ignore(s, IgnoredTrueColor(selector)),
       if parameters[i].more then GroupEnd(parameters, i) else Min(i + 4, |parameters| - 1))
    else if i + 2 >= |parameters| || parameters[i + 1].value != 5 || !parameters[i + 2].present then (s, i)
    else
      var color := parameters[i + 2].value;
      (if color > 255 then s
       else WithStyle(s, if foreground then s.pen.style.(foreground := color) else s.pen.style.(background := color)),
       i + 2)
  }

  /** Applies the rendition at `i`; also gives the index of the last parameter it consumes. */
  function RenditionAt(s: State, parameters: seq<Parameter>, i: nat): (r: (State, nat))
    requires Geometry(s) && i < |parameters|
    ensures Geometry(r.0) && i <= r.1
  {
    var value := if parameters[i].present then parameters[i].value else 0;
    if value == 38 || value == 48 then ExtendedColor(s, parameters, i, value == 38)
    else
      match ChangeOf(s.profile.xterm, value)
      case Some(change) => (WithStyle(s, Restyled(s.pen.style, change)), i)
      case None => (Ignore(s, IgnoredRendition(value)), i)
  }

  function RenditionFrom(s: State, parameters: seq<Parameter>, i: nat): (r: State)
    requires Geometry(s)
    ensures Geometry(r)
    decreases |parameters| - i
  {
    if i >= |parameters| then s
    else
      var (next, last) := RenditionAt(s, parameters, i);
      RenditionFrom(next, parameters, last + 1)
  }

  function SetRendition(s: State, parameters: seq<Parameter>): (r: State)
    requires Geometry(s)
    ensures Geometry(r)
  {
    RenditionFrom(s, if parameters == [] then [Parameter(0, true, false)] else parameters, 0)
  }

  // --------------------------------------------------------------- control sequences

  /** A parameter's value, or `fallback` when it is missing or zero. */
  function Param(parameters: seq<Parameter>, index: nat, fallback: nat): nat {
    if index >= |parameters| || !parameters[index].present || parameters[index].value == 0 then fallback
    else parameters[index].value
  }

  function SetScrollRegion(s: State, parameters: seq<Parameter>): (r: State)
    requires Geometry(s)
    ensures Geometry(r)
  {
    var top := Param(parameters, 0, 1) - 1;
    var bottom := Param(parameters, 1, s.area.height) - 1;
    if top < 0 || bottom >= s.area.height || top >= bottom then s
    else Moved(s.(area := s.area.(top := top, bottom := bottom)), MoveTo(ActiveBuffer(s), s.area, 0, 0))
  }

  predicate IsMovement(final: char) {
    final == 'A' || final == 'B' || final == 'C' || final == 'D' || final == 'G' || final == 'H' || final == 'f'
  }

  predicate IsEdit(final: char) {
    final == '@' || final == 'P' || final == 'X' || final == 'J' || final == 'K' || final == 'L' || final == 'M'
  }

  /** The destination of a cursor movement, if `final` is one. */
  function Destination(b: Buffer, a: Area, final: char, parameters: seq<Parameter>): (d: Option<(int, int)>)
    requires AreaOk(a) && BufferFits(b, a)
    ensures d.Some? ==> 0 <= d.value.0 < a.height && 0 <= d.value.1 < a.width
  {
    var n := Param(parameters, 0, 1);
    var (row, column) := (b.cursor.row, b.cursor.column);
    match final
    case 'A' => Some((Max(0, row - n), column))
    case 'B' => Some((Min(a.height - 1, row + n), column))
    case 'C' => Some((row, Min(a.width - 1, column + n)))
    case 'D' => Some((row, Max(0, column - n)))
    case 'G' => Some((row, Min(a.width - 1, Max(0, n - 1))))
    case 'H' => Some((Min(a.height - 1, Max(0, n - 1)), Min(a.width - 1, Max(0, Param(parameters, 1, 1) - 1))))
    case 'f' => Some((Min(a.height - 1, Max(0, n - 1)), Min(a.width - 1, Max(0, Param(parameters, 1, 1) - 1))))
    case _ => None
  }

  function ApplyMovement(s: State, final: char, parameters: seq<Parameter>): (r: State)
    requires Geometry(s)
    ensures Geometry(r)
  {
    match Destination(ActiveBuffer(s), s.area, final, parameters)
    case Some((row, column)) => Moved(s, MoveTo(ActiveBuffer(s), s.area, row, column))
    case None => s
  }

  /** The outcome of an editing function; a mode it does not know, or a cursor outside the scroll
      region, makes it do nothing. */
  function EditOf(s: State, final: char, parameters: seq<Parameter>): (b: Option<Buffer>)
    requires Geometry(s)
    ensures b.Some? ==> BufferFits(b.value, s.area)
  {
    var b := ActiveBuffer(s);
    var (a, style) := (s.area, s.pen.style);
    var n := Param(parameters, 0, 1);
    var mode := Param(parameters, 0, 0);
    match final
    case '@' => Some(InsertCharacters(b, a, style, n))
    case 'P' => Some(DeleteCharacters(b, a, style, n))
    case 'X' => Some(EraseCharacters(b, a, style, n))
    case 'J' => if mode <= 2 || (mode == 3 && s.profile.xterm) then Some(EraseDisplay(b, a, style, mode)) else None
    case 'K' => if mode <= 2 then Some(EraseLine(b, a, style, mode)) else None
    case 'L' => if InRegion(b, a) then Some(InsertLines(b, a, style, n)) else None
    case 'M' => if InRegion(b, a) then Some(DeleteLines(b, a, style, n)) else None
    case _ => None
  }

  function ApplyEdit(s: State, final: char, parameters: seq<Parameter>): (r: State)
    requires Geometry(s)
    ensures Geometry(r)
  {
    match EditOf(s, final, parameters)
    case Some(edited) => Edited(s, edited)
    case None => s
  }

  function DispatchCsi(s: State, command: Command, parameters: seq<Parameter>): (r: State)
    requires Geometry(s)
    ensures Geometry(r)
  {
    if IsMovement(command.final) then ApplyMovement(s, command.final, parameters)
    else if IsEdit(command.final) then ApplyEdit(s, command.final, parameters)
    else if command.final == 'h' || command.final == 'l' then SetModes(s, command, parameters)
    else if command.final == 'm' then SetRendition(s, parameters)
    else if command.final == 'r' then SetScrollRegion(s, parameters)
    else Ignore(s, IgnoredCsi(command, parameters))
  }

  function HandleCsi(s: State, command: Command, parameters: seq<Parameter>): (r: State)
    requires Geometry(s)
    ensures Geometry(r)
  {
    if command.prefix == '?' && command.intermediate == '\0' && (command.final == 'h' || command.final == 'l') then
      SetPrivateModes(s, command, parameters)
    else if command.prefix != '\0' || command.intermediate != '\0' then
      Ignore(s, IgnoredCsi(command, parameters))
    else DispatchCsi(s, command, parameters)
  }

  // ------------------------------------------------------------------- whole runs

  /** The effect of one parser event. */
  function Step(s: State, input: Input): (r: State)
    requires Geometry(s)
    ensures Geometry(r)
  {
    match input
    case Print(rune, measured) => PrintRune(s, rune, measured)
    case Execute(control) => ExecuteControl(s, control)
    case Csi(command, parameters) => HandleCsi(s, command, parameters)
    case Escape(command) => HandleEscape(s, command)
    case Osc(id, text) => HandleOsc(s, id, text)
    case Dcs(command, parameters) => Ignore(s, IgnoredDcs(command, parameters))
    case ControlString(kind) => Ignore(s, IgnoredString(kind))
  }

  function Feed(s: State, inputs: seq<Input>): (r: State)
    requires Geometry(s)
    ensures Geometry(r)
    decreases |inputs|
  {
    if inputs == [] then s else Feed(Step(s, inputs[0]), inputs[1..])
  }

  /** One Write: it raises the revision by at most one, however many events it carries. */
  function Write(s: State, inputs: seq<Input>): (r: State)
    requires Geometry(s)
    ensures Geometry(r)
  {
    var after := Feed(s, inputs);
    if after.log.revision != s.log.revision
    then after.(log := after.log.(revision := s.log.revision + 1))
    else after
  }

  function ClampCursor(c: Cursor, width: nat, height: nat): Cursor {
    c.(column := Min(c.column, width - 1), row := Min(c.row, height - 1))
  }

  function ResizeBuffer(b: Buffer, width: nat, height: nat, style: Cell): Buffer {
    Buffer(ResizeGrid(b.grid, width, height, style),
           ClampCursor(b.cursor, width, height), ClampCursor(b.saved, width, height))
  }

  function ResizeScreens(s: Screens, width: nat, height: nat, style: Cell): Screens {
    Screens(ResizeBuffer(s.main, width, height, style),
            if s.alternate.Some? then Some(ResizeBuffer(s.alternate.value, width, height, style)) else None,
            s.onAlternate)
  }

  lemma ResizedScreensFit(s: Screens, a: Area, width: nat, height: nat, style: Cell)
    requires ScreensFit(s, a) && 0 < width && 0 < height
    ensures ScreensFit(ResizeScreens(s, width, height, style), Area(width, height, 0, height - 1))
  {
  }

  /** Dimensions that are not positive are refused, and the current ones change nothing. */
  function Resize(s: State, width: int, height: int): (r: State)
    requires Geometry(s)
    ensures Geometry(r)
  {
    if width <= 0 || height <= 0 || (width == s.area.width && height == s.area.height) then s
    else
      var screens := ResizeScreens(s.screens, width, height, s.pen.style);
      Unwrapped(s.(area := Area(width, height, 0, height - 1), screens := screens, log := Bump(s.log)))
  }

  /** What a client of the terminal can do to it. */
  datatype Action = Output(inputs: seq<Input>) | ResizeTo(width: int, height: int)

  function Act(s: State, action: Action): (r: State)
    requires Geometry(s)
    ensures Geometry(r)
  {
    match action
    case Output(inputs) => Write(s, inputs)
    case ResizeTo(width, height) => Resize(s, width, height)
  }

  function Run(s: State, actions: seq<Action>): (r: State)
    requires Geometry(s)
    ensures Geometry(r)
    decreases |actions|
  {
    if actions == [] then s else Run(Act(s, actions[0]), actions[1..])
  }
}
