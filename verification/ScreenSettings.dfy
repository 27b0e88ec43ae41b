/** Charsets and modes: at any time they are as last asked for, and a rune shows in the charset
    invoked. */
module ScreenSettings {
  import opened Cells
  import opened ScreenModel
  import opened ScreenAddressing

  /** G0 and G1 may be the DEC special graphics; `invoked` tells which of them is in use. */
  datatype Settings = Settings(special0: bool, special1: bool, invoked: nat, insert: bool, keys: bool, wrap: bool)

  const DEFAULTS := Settings(false, false, 0, false, false, true)

  function SettingsOf(s: State): Settings {
    Settings(s.pen.charset0, s.pen.charset1, s.pen.charset, s.pen.insertMode, s.pen.applicationCursor, s.wrap.auto)
  }

  /** From s to t only what is shown, a pending wrap and the revision change. */
  predicate OnlyScreen(s: State, t: State) {
    t == s.(screens := t.screens, wrap := s.wrap.(pending := t.wrap.pending),
            log := s.log.(revision := t.log.revision))
  }

  /** Is this mode among the parameters? */
  predicate Names(parameters: seq<Parameter>, mode: nat) {
    exists i | 0 <= i < |parameters| :: parameters[i].present && parameters[i].value == mode
  }

  /** What a mode is after a list of modes. */
  function ModeAfter(was: bool, parameters: seq<Parameter>, mode: nat, final: char): bool {
    if Names(parameters, mode) then final == 'h' else was
  }

  /** What the settings are after an event: SO and SI invoke G1 and G0, SCS designates them, RIS
      resets everything, mode 4 is insertion, and private modes 1 and 7 are cursor keys and wrapping.
      Nothing else touches them. */
  function AskedBy(x: Settings, input: Input): Settings {
    match input
    case Execute(control) =>
      if control == 0x0E then x.(invoked := 1) else if control == 0x0F then x.(invoked := 0) else x
    case Escape(Command(_, intermediate, final)) =>
      if intermediate == '(' && (final == '0' || final == 'B') then x.(special0 := final == '0')
      else if intermediate == ')' && (final == '0' || final == 'B') then x.(special1 := final == '0')
      else if intermediate == '\0' && final == 'c' then DEFAULTS
      else x
    case Csi(Command(prefix, intermediate, final), parameters) =>
      if intermediate != '\0' || (final != 'h' && final != 'l') then x
      else if prefix == '\0' then x.(insert := ModeAfter(x.insert, parameters, 4, final))
      else if prefix == '?' then
        x.(keys := ModeAfter(x.keys, parameters, 1, final), wrap := ModeAfter(x.wrap, parameters, 7, final))
      else x
    case _ => x
  }

  lemma NamesFirst(parameters: seq<Parameter>, mode: nat)
    requires parameters != []
    ensures Names(parameters, mode) <==>
            (parameters[0].present && parameters[0].value == mode) || Names(parameters[1..], mode)
  {
    if Names(parameters[1..], mode) {
      var i :| 0 <= i < |parameters| - 1 && parameters[1..][i].present && parameters[1..][i].value == mode;
      assert parameters[i + 1] == parameters[1..][i];
    }
    if Names(parameters, mode) && !(parameters[0].present && parameters[0].value == mode) {
      var i :| 0 <= i < |parameters| && parameters[i].present && parameters[i].value == mode;
      assert parameters[1..][i - 1] == parameters[i];
    }
  }

  lemma {:induction false} ModesAsAsked(s: State, command: Command, parameters: seq<Parameter>)
    requires Geometry(s)
    ensures SettingsOf(SetModes(s, command, parameters)) ==
            SettingsOf(s).(insert := ModeAfter(s.pen.insertMode, parameters, 4, command.final))
    decreases |parameters|
  {
    if parameters != [] {
      NamesFirst(parameters, 4);
      ModesAsAsked(SetMode(s, command, parameters[0]), command, parameters[1..]);
    }
  }

  lemma OnePrivateMode(s: State, command: Command, p: Parameter)
    requires Geometry(s)
    ensures SettingsOf(SetPrivateMode(s, command, p)) ==
            SettingsOf(s).(
              keys := if p.present && p.value == 1 then command.final == 'h' else s.pen.applicationCursor,
              wrap := if p.present && p.value == 7 then command.final == 'h' else s.wrap.auto)
  {
  }

  lemma {:induction false} PrivateModesAsAsked(s: State, command: Command, parameters: seq<Parameter>)
    requires Geometry(s)
    ensures SettingsOf(SetPrivateModes(s, command, parameters)) ==
            SettingsOf(s).(keys := ModeAfter(s.pen.applicationCursor, parameters, 1, command.final),
                           wrap := ModeAfter(s.wrap.auto, parameters, 7, command.final))
    decreases |parameters|
  {
    if parameters != [] {
      NamesFirst(parameters, 1);
      NamesFirst(parameters, 7);
      OnePrivateMode(s, command, parameters[0]);
      PrivateModesAsAsked(SetPrivateMode(s, command, parameters[0]), command, parameters[1..]);
    }
  }

  lemma StyleKeeps(s: State, style: Cell, sequence: Sequence)
    requires Geometry(s)
    ensures SettingsOf(WithStyle(s, style)) == SettingsOf(s) == SettingsOf(Ignore(s, sequence))
  {
  }

  lemma ColorKeeps(s: State, parameters: seq<Parameter>, i: nat, foreground: bool)
    requires Geometry(s) && i < |parameters|
    ensures SettingsOf(ExtendedColor(s, parameters, i, foreground).0) == SettingsOf(s)
  {
  }

  lemma RenditionAtKeeps(s: State, parameters: seq<Parameter>, i: nat)
    requires Geometry(s) && i < |parameters|
    ensures SettingsOf(RenditionAt(s, parameters, i).0) == SettingsOf(s)
  {
    var value := if parameters[i].present then parameters[i].value else 0;
    ColorKeeps(s, parameters, i, value == 38);
    var change := ChangeOf(s.profile.xterm, value);
    StyleKeeps(s, if change.Some? then Restyled(s.pen.style, change.value) else s.pen.style, IgnoredRendition(value));
  }

  lemma {:induction false} RenditionKeeps(s: State, parameters: seq<Parameter>, i: nat)
    requires Geometry(s)
    ensures SettingsOf(RenditionFrom(s, parameters, i)) == SettingsOf(s)
    decreases |parameters| - i
  {
    if i < |parameters| {
      RenditionAtKeeps(s, parameters, i);
      var (next, last) := RenditionAt(s, parameters, i);
      RenditionKeeps(next, parameters, last + 1);
    }
  }

  lemma EditOnlyScreen(s: State, b: Buffer)
    requires Geometry(s) && BufferFits(b, s.area)
    ensures OnlyScreen(s, Edited(s, b)) && OnlyScreen(s, Moved(s, b))
  {
  }

  lemma WrapOnlyScreen(s: State, width: int)
    requires Geometry(s)
    ensures OnlyScreen(s, WrapFor(s, width))
  {
  }

  lemma PlaceOnlyScreen(s: State, rune: char, width: int)
    requires Geometry(s) && 1 <= width <= 2 && ActiveBuffer(s).cursor.column + width <= s.area.width
    ensures OnlyScreen(s, Place(s, rune, width))
  {
  }

  lemma OpenedOnlyScreen(s: State, size: int)
    requires Geometry(s)
    ensures OnlyScreen(s, Opened(s, size))
  {
  }

  lemma SpacingOnlyScreen(s: State, rune: char, fitting: int)
    requires Geometry(s) && 1 <= fitting <= 2
    ensures OnlyScreen(s, PrintSpacing(s, rune, fitting))
  {
    var wrapped := WrapFor(s, fitting);
    var size := FinalSize(wrapped, fitting);
    WrapOnlyScreen(s, fitting);
    OpenedOnlyScreen(wrapped, size);
    PlaceOnlyScreen(Opened(wrapped, size), rune, size);
  }

  lemma CombiningOnlyScreen(s: State, rune: char)
    requires Geometry(s)
    ensures OnlyScreen(s, AppendCombining(s, rune))
  {
  }

  lemma PrintOnlyScreen(s: State, rune: char, measured: int)
    requires Geometry(s)
    ensures OnlyScreen(s, PrintRune(s, rune, measured))
  {
    var natural := MeasuredWidth(s, measured);
    if natural == 0 {
      CombiningOnlyScreen(s, Translate(s.pen, rune));
    } else {
      SpacingOnlyScreen(s, Translate(s.pen, rune), if natural > s.area.width then 1 else natural);
    }
  }

  lemma RegionKeeps(s: State, parameters: seq<Parameter>)
    requires Geometry(s)
    ensures OnlyScreen(s.(area := SetScrollRegion(s, parameters).area), SetScrollRegion(s, parameters))
  {
  }

  lemma PlainOnlyScreen(s: State, final: char, parameters: seq<Parameter>)
    requires Geometry(s) && (IsMovement(final) || IsEdit(final))
    ensures OnlyScreen(s, if IsMovement(final) then ApplyMovement(s, final, parameters)
                          else ApplyEdit(s, final, parameters))
  {
    if IsMovement(final) {
      var d := Destination(ActiveBuffer(s), s.area, final, parameters).value;
      EditOnlyScreen(s, MoveTo(ActiveBuffer(s), s.area, d.0, d.1));
    } else {
      var edited := EditOf(s, final, parameters);
      if edited.Some? { EditOnlyScreen(s, edited.value); }
    }
  }

  lemma DispatchAsAsked(s: State, command: Command, parameters: seq<Parameter>)
    requires Geometry(s) && command.prefix == '\0' && command.intermediate == '\0'
    ensures SettingsOf(DispatchCsi(s, command, parameters)) ==
            if command.final == 'h' || command.final == 'l'
            then SettingsOf(s).(insert := ModeAfter(s.pen.insertMode, parameters, 4, command.final))
            else SettingsOf(s)
  {
    if IsMovement(command.final) || IsEdit(command.final) {
      PlainOnlyScreen(s, command.final, parameters);
    } else if command.final == 'h' || command.final == 'l' {
      ModesAsAsked(s, command, parameters);
    } else if command.final == 'm' {
      RenditionKeeps(s, if parameters == [] then [Parameter(0, true, false)] else parameters, 0);
    } else if command.final == 'r' {
      RegionKeeps(s, parameters);
    }
  }

  lemma CsiAsAsked(s: State, command: Command, parameters: seq<Parameter>)
    requires Geometry(s)
    ensures SettingsOf(HandleCsi(s, command, parameters)) == AskedBy(SettingsOf(s), Csi(command, parameters))
  {
    if command.prefix == '?' && command.intermediate == '\0' && (command.final == 'h' || command.final == 'l') {
      PrivateModesAsAsked(s, command, parameters);
    } else if command.prefix == '\0' && command.intermediate == '\0' {
      DispatchAsAsked(s, command, parameters);
    }
  }

  lemma EscapeOnlyScreen(s: State, command: Command)
    requires Geometry(s)
    requires command.final != 'c' && SimpleEscape(s, command) != Ignore(s, IgnoredEscape(command))
    ensures OnlyScreen(s, SimpleEscape(s, command))
  {
    var (b, a, style) := (ActiveBuffer(s), s.area, s.pen.style);
    if command.final == '8' {
      EditOnlyScreen(s, b.(cursor := b.saved));
    } else if command.final == 'D' {
      EditOnlyScreen(s, LineFeed(b, a, style));
    } else if command.final == 'E' {
      EditOnlyScreen(s, LineFeed(MoveTo(b, a, b.cursor.row, 0), a, style));
    } else if command.final == 'M' {
      EditOnlyScreen(s, ReverseIndex(b, a, style));
    }
  }

  lemma SimpleEscapeAsAsked(s: State, command: Command)
    requires Geometry(s)
    ensures SettingsOf(SimpleEscape(s, command)) == if command.final == 'c' then DEFAULTS else SettingsOf(s)
  {
    if command.final != 'c' && SimpleEscape(s, command) != Ignore(s, IgnoredEscape(command)) {
      EscapeOnlyScreen(s, command);
    }
  }

  lemma EscapeAsAsked(s: State, command: Command)
    requires Geometry(s)
    ensures SettingsOf(HandleEscape(s, command)) == AskedBy(SettingsOf(s), Escape(command))
  {
    if command.intermediate == '\0' {
      SimpleEscapeAsAsked(s, command);
    }
  }

  lemma ControlOnlyScreen(s: State, control: nat)
    requires Geometry(s) && 0x08 <= control <= 0x0D
    ensures OnlyScreen(s, ExecuteControl(s, control))
  {
    var (b, a) := (ActiveBuffer(s), s.area);
    if control == 0x08 {
      EditOnlyScreen(s, MoveTo(b, a, b.cursor.row, Max(0, b.cursor.column - 1)));
    } else if control == 0x09 {
      EditOnlyScreen(s, MoveTo(b, a, b.cursor.row, Min((b.cursor.column / 8 + 1) * 8, a.width - 1)));
    } else if control == 0x0D {
      EditOnlyScreen(s, MoveTo(b, a, b.cursor.row, 0));
    } else {
      EditOnlyScreen(s, LineFeed(b, a, s.pen.style));
    }
  }

  lemma ExecuteAsAsked(s: State, control: nat)
    requires Geometry(s)
    ensures SettingsOf(ExecuteControl(s, control)) == AskedBy(SettingsOf(s), Execute(control))
  {
    if 0x08 <= control <= 0x0D {
      ControlOnlyScreen(s, control);
    }
  }

  /** Every event leaves the settings as asked. */
  lemma StepAsAsked(s: State, input: Input)
    requires Geometry(s)
    ensures SettingsOf(Step(s, input)) == AskedBy(SettingsOf(s), input)
  {
    match input
    case Print(rune, measured) => PrintOnlyScreen(s, rune, measured);
    case Execute(control) => ExecuteAsAsked(s, control);
    case Csi(command, parameters) => CsiAsAsked(s, command, parameters);
    case Escape(command) => EscapeAsAsked(s, command);
    case _ =>
  }

  /** SO, SI and SCS change nothing else. */
  lemma CharsetsOnly(s: State, intermediate: char, final: char)
    requires Geometry(s) && (intermediate == '(' || intermediate == ')') && (final == '0' || final == 'B')
    ensures forall input | input == Execute(0x0E) || input == Execute(0x0F)
                           || input == Escape(Command('\0', intermediate, final)) ::
              var t := Step(s, input);
              t == s.(pen := s.pen.(charset := t.pen.charset, charset0 := t.pen.charset0, charset1 := t.pen.charset1))
  {
  }

  function AskedAfter(x: Settings, inputs: seq<Input>): Settings
    decreases |inputs|
  {
    if inputs == [] then x else AskedAfter(AskedBy(x, inputs[0]), inputs[1..])
  }

  /** Over any events the charsets and modes are as last asked for. */
  lemma {:induction false} FeedAsAsked(s: State, inputs: seq<Input>)
    requires Geometry(s)
    ensures SettingsOf(Feed(s, inputs)) == AskedAfter(SettingsOf(s), inputs)
    decreases |inputs|
  {
    if inputs != [] {
      StepAsAsked(s, inputs[0]);
      FeedAsAsked(Step(s, inputs[0]), inputs[1..]);
    }
  }

  // --------------------------------------------------------------------- charsets

  /** The letters that the DEC special graphics replace, and the lines they are replaced with. */
  const LETTERS := "jklmnqtuvwx"
  const LINES := ['\U{2518}', '\U{2510}', '\U{250C}', '\U{2514}', '\U{253C}', '\U{2500}', '\U{251C}', '\U{2524}',
                  '\U{2534}', '\U{252C}', '\U{2502}']

  /** Is `shown` what a rune looks like? */
  predicate ShowsAs(x: Settings, rune: char, shown: char) {
    if (x.invoked == 0 && x.special0) || (x.invoked != 0 && x.special1) then
      && (forall i | 0 <= i < |LETTERS| :: LETTERS[i] == rune ==> shown == LINES[i])
      && ((forall i | 0 <= i < |LETTERS| :: LETTERS[i] != rune) ==> shown == rune)
    else shown == rune
  }

  /** The engine shows every rune so. */
  lemma Translated(s: State, rune: char)
    ensures ShowsAs(SettingsOf(s), rune, Translate(s.pen, rune))
  {
    forall i | 0 <= i < |LETTERS| ensures DecSpecialGraphics(LETTERS[i]) == LINES[i] {
    }
    assert LETTERS[0] == 'j' && LETTERS[1] == 'k' && LETTERS[2] == 'l' && LETTERS[3] == 'm';
    assert LETTERS[4] == 'n' && LETTERS[5] == 'q' && LETTERS[6] == 't' && LETTERS[7] == 'u';
    assert LETTERS[8] == 'v' && LETTERS[9] == 'w' && LETTERS[10] == 'x';
  }

  /** A rune printed after any events shows in the charset last asked for. */
  lemma ShowsInCharset(s: State, inputs: seq<Input>, rune: char, measured: int, size: int)
    returns (shown: char)
    requires Geometry(s)
    requires var t := Feed(s, inputs);
             !t.wrap.pending && Measures(t, measured, size) && 1 <= size
             && ActiveBuffer(t).cursor.column + size <= t.area.width
    ensures ShowsAs(AskedAfter(SettingsOf(s), inputs), rune, shown)
    ensures PrintsHere(Feed(s, inputs), Step(Feed(s, inputs), Print(rune, measured)), shown, size)
  {
    var t := Feed(s, inputs);
    FeedAsAsked(s, inputs);
    shown := Translate(t.pen, rune);
    Translated(t, rune);
    PrintsAtCursor(t, rune, measured, size);
  }
}
