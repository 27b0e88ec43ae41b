/** What the revision number says about the visible screen, and how Write depends on the way its
    input is split. */
module ScreenRevision {
  import opened Grids
  import opened ScreenModel

  datatype Snapshot = Snapshot(width: nat, height: nat, grid: Grid, cursor: Cursor, title: string)

  function View(s: State): Snapshot
    requires Geometry(s)
  {
    Snapshot(s.area.width, s.area.height, ActiveBuffer(s).grid, ActiveBuffer(s).cursor, s.log.title)
  }

  // ------------------------------------------------------------- silent changes

  /** A private mode that changes what is visible without a new revision: clearing the alternate
      screen while it is shown, unless it is blank with its cursor at home and visible; or going
      back to the saved cursor while the main screen is shown, unless the cursor is there. */
  predicate SilentMode(s: State, command: Command, p: Parameter)
    requires Geometry(s)
  {
    var b := ActiveBuffer(s);
    && p.present && s.profile.xterm
    && if command.final == 'h'
       then && (p.value == 1047 || p.value == 1049) && s.screens.onAlternate
            && !(b.grid == BlankGrid(s.pen.style, s.area.width, s.area.height)
                 && b.cursor == ORIGIN.(visible := true))
       else && p.value == 1049 && !s.screens.onAlternate
            && !(b.cursor.row == b.saved.row && b.cursor.column == b.saved.column)
  }

  /** A step tells the truth when a visible change comes with a new revision. */
  predicate Honest(s: State, t: State)
    requires Geometry(s) && Geometry(t)
  {
    t.log.revision >= s.log.revision && (t.log.revision == s.log.revision ==> View(t) == View(s))
  }

  lemma ModeHonestIff(s: State, command: Command, p: Parameter)
    requires Geometry(s)
    ensures SetPrivateMode(s, command, p).log.revision >= s.log.revision
    ensures Honest(s, SetPrivateMode(s, command, p)) <==> !SilentMode(s, command, p)
  {
  }

  function PrivateMode(final: char, mode: nat): Input {
    Csi(Command('?', '\0', final), [Parameter(mode, true, false)])
  }

  lemma FeedMode(s: State, final: char, mode: nat)
    requires Geometry(s) && (final == 'h' || final == 'l')
    ensures Feed(s, [PrivateMode(final, mode)]) ==
            SetPrivateMode(s, Command('?', '\0', final), Parameter(mode, true, false))
  {
    var input := PrivateMode(final, mode);
    var t := SetPrivateMode(s, input.command, input.parameters[0]);
    assert input.parameters[1..] == [] && SetPrivateModes(t, input.command, []) == t;
    assert [input][1..] == [] && Feed(t, []) == t;
  }

  /** A Write of one private mode is silent exactly when the mode is. */
  lemma WriteModeIff(s: State, final: char, mode: nat)
    requires Geometry(s) && (final == 'h' || final == 'l')
    ensures var t := Write(s, [PrivateMode(final, mode)]);
            (t.log.revision == s.log.revision && View(t) != View(s)) <==>
            SilentMode(s, Command('?', '\0', final), Parameter(mode, true, false))
  {
    FeedMode(s, final, mode);
    ModeHonestIff(s, Command('?', '\0', final), Parameter(mode, true, false));
  }

  /** A change of the screen that the revision does not show, by a Write of `mode`. */
  predicate SilentWrite(s: State, final: char, mode: nat)
    requires Geometry(s)
  {
    var t := Write(s, [PrivateMode(final, mode)]);
    t.log.revision == s.log.revision && View(t) != View(s)
  }

  /** Leaving an alternate screen that is not shown moves the cursor to where it was last saved. */
  lemma SilentLeave()
    ensures SilentWrite(Step(Fresh(Profile(true, ""), 4, 1), Execute(9)), 'l', 1049)
  {
    var s := Step(Fresh(Profile(true, ""), 4, 1), Execute(9));
    assert ActiveBuffer(s).cursor.column == 3 && ActiveBuffer(s).saved.column == 0;
    WriteModeIff(s, 'l', 1049);
  }

  lemma Entered(mode: nat)
    requires mode == 1047 || mode == 1049
    ensures var s := Step(Write(Fresh(Profile(true, ""), 4, 1), [PrivateMode('h', mode)]), Execute(9));
            s.profile.xterm && s.screens.onAlternate && ActiveBuffer(s).cursor.column == 3
  {
    FeedMode(Fresh(Profile(true, ""), 4, 1), 'h', mode);
  }

  /** Entering the alternate screen again clears it and takes its cursor home. */
  lemma SilentEnter(mode: nat)
    requires mode == 1047 || mode == 1049
    ensures SilentWrite(Step(Write(Fresh(Profile(true, ""), 4, 1), [PrivateMode('h', mode)]), Execute(9)), 'h', mode)
  {
    Entered(mode);
    WriteModeIff(Step(Write(Fresh(Profile(true, ""), 4, 1), [PrivateMode('h', mode)]), Execute(9)), 'h', mode);
  }

  predicate OpenModes(s: State, command: Command, parameters: seq<Parameter>)
    requires Geometry(s)
    decreases |parameters|
  {
    parameters == [] ||
    (!SilentMode(s, command, parameters[0])
     && OpenModes(SetPrivateMode(s, command, parameters[0]), command, parameters[1..]))
  }

  predicate IsPrivateMode(input: Input) {
    && input.Csi? && input.command.prefix == '?' && input.command.intermediate == '\0'
    && (input.command.final == 'h' || input.command.final == 'l')
  }

  /** The run of parser events contains no silent mode. */
  predicate OpenFeed(s: State, inputs: seq<Input>)
    requires Geometry(s)
    decreases |inputs|
  {
    inputs == [] ||
    ((IsPrivateMode(inputs[0]) ==> OpenModes(s, inputs[0].command, inputs[0].parameters))
     && OpenFeed(Step(s, inputs[0]), inputs[1..]))
  }

  lemma {:induction false} ModesHonest(s: State, command: Command, parameters: seq<Parameter>)
    requires Geometry(s) && OpenModes(s, command, parameters)
    ensures Honest(s, SetPrivateModes(s, command, parameters))
    decreases |parameters|
  {
    if parameters != [] {
      ModeHonestIff(s, command, parameters[0]);
      ModesHonest(SetPrivateMode(s, command, parameters[0]), command, parameters[1..]);
    }
  }

  lemma {:induction false} SetModesQuiet(s: State, command: Command, parameters: seq<Parameter>)
    requires Geometry(s)
    ensures Honest(s, SetModes(s, command, parameters))
    decreases |parameters|
  {
    if parameters != [] {
      SetModesQuiet(SetMode(s, command, parameters[0]), command, parameters[1..]);
    }
  }

  lemma RenditionAtQuiet(s: State, parameters: seq<Parameter>, i: nat)
    requires Geometry(s) && i < |parameters|
    ensures Honest(s, RenditionAt(s, parameters, i).0)
  {
  }

  lemma {:induction false} RenditionQuiet(s: State, parameters: seq<Parameter>, i: nat)
    requires Geometry(s)
    ensures Honest(s, RenditionFrom(s, parameters, i))
    decreases |parameters| - i
  {
    if i < |parameters| {
      RenditionAtQuiet(s, parameters, i);
      var (next, last) := RenditionAt(s, parameters, i);
      RenditionQuiet(next, parameters, last + 1);
    }
  }

  lemma PrintBumps(s: State, rune: char, fitting: int)
    requires Geometry(s) && 1 <= fitting <= 2
    ensures PrintSpacing(s, rune, fitting).log.revision > s.log.revision
  {
  }

  lemma ControlHonest(s: State, control: nat)
    requires Geometry(s)
    ensures Honest(s, ExecuteControl(s, control))
  {
  }

  lemma EscapeHonest(s: State, command: Command)
    requires Geometry(s)
    ensures Honest(s, HandleEscape(s, command))
  {
  }

  lemma EditHonest(s: State, final: char, parameters: seq<Parameter>)
    requires Geometry(s)
    ensures Honest(s, ApplyMovement(s, final, parameters)) && Honest(s, ApplyEdit(s, final, parameters))
    ensures Honest(s, SetScrollRegion(s, parameters))
  {
  }

  lemma PlainCsiHonest(s: State, command: Command, parameters: seq<Parameter>)
    requires Geometry(s)
    ensures Honest(s, DispatchCsi(s, command, parameters))
  {
    if IsMovement(command.final) || IsEdit(command.final) || command.final == 'r' {
      EditHonest(s, command.final, parameters);
    } else if command.final == 'h' || command.final == 'l' {
      SetModesQuiet(s, command, parameters);
    } else if command.final == 'm' {
      RenditionQuiet(s, if parameters == [] then [Parameter(0, true, false)] else parameters, 0);
    }
  }

  lemma CsiHonest(s: State, command: Command, parameters: seq<Parameter>)
    requires Geometry(s)
    requires IsPrivateMode(Csi(command, parameters)) ==> OpenModes(s, command, parameters)
    ensures Honest(s, HandleCsi(s, command, parameters))
  {
    if IsPrivateMode(Csi(command, parameters)) {
      ModesHonest(s, command, parameters);
    } else if command.prefix == '\0' && command.intermediate == '\0' {
      PlainCsiHonest(s, command, parameters);
    }
  }

  lemma PrintHonest(s: State, rune: char, measured: int)
    requires Geometry(s)
    ensures Honest(s, PrintRune(s, rune, measured))
  {
    var natural := MeasuredWidth(s, measured);
    if natural != 0 {
      PrintBumps(s, Translate(s.pen, rune), if natural > s.area.width then 1 else natural);
    }
  }

  lemma StepHonest(s: State, input: Input)
    requires Geometry(s)
    requires IsPrivateMode(input) ==> OpenModes(s, input.command, input.parameters)
    ensures Honest(s, Step(s, input))
  {
    match input
    case Print(rune, measured) => PrintHonest(s, rune, measured);
    case Execute(control) => ControlHonest(s, control);
    case Csi(command, parameters) => CsiHonest(s, command, parameters);
    case Escape(command) => EscapeHonest(s, command);
    case _ =>
  }

  lemma {:induction false} FeedHonest(s: State, inputs: seq<Input>)
    requires Geometry(s) && OpenFeed(s, inputs)
    ensures Honest(s, Feed(s, inputs))
    decreases |inputs|
  {
    if inputs != [] {
      StepHonest(s, inputs[0]);
      FeedHonest(Step(s, inputs[0]), inputs[1..]);
    }
  }

  /** A Write that carries no silent mode raises the revision by one or leaves both it and
      everything visible as they were. */
  lemma WriteHonest(s: State, inputs: seq<Input>)
    requires Geometry(s) && OpenFeed(s, inputs)
    ensures var t := Write(s, inputs);
            t.log.revision == s.log.revision + 1 || (t.log.revision == s.log.revision && View(t) == View(s))
  {
    FeedHonest(s, inputs);
  }

  // -------------------------------------------------------------- splitting a Write

  /** The same state at another revision. */
  function Shift(s: State, k: int): State
    requires s.log.revision + k >= 0
  {
    s.(log := s.log.(revision := s.log.revision + k))
  }

  lemma EnterShift(s: State, clear: bool, k: nat)
    requires Geometry(s)
    ensures EnterAlternate(Shift(s, k), clear) == Shift(EnterAlternate(s, clear), k)
  {
  }

  lemma SwitchShift(s: State, mode: nat, enabled: bool, k: nat)
    requires Geometry(s)
    ensures SwitchScreen(Shift(s, k), mode, enabled) == Shift(SwitchScreen(s, mode, enabled), k)
  {
    EnterShift(s.(screens := SaveMain(s.screens)), true, k);
    EnterShift(s, mode == 1047, k);
  }

  lemma PrivateModeShift(s: State, command: Command, p: Parameter, k: nat)
    requires Geometry(s)
    ensures SetPrivateMode(Shift(s, k), command, p) == Shift(SetPrivateMode(s, command, p), k)
  {
    if XTermPrivateMode(p.value) {
      SwitchShift(s, p.value, command.final == 'h', k);
    }
  }

  lemma {:induction false} PrivateModesShift(s: State, command: Command, parameters: seq<Parameter>, k: nat)
    requires Geometry(s)
    ensures SetPrivateModes(Shift(s, k), command, parameters) == Shift(SetPrivateModes(s, command, parameters), k)
    decreases |parameters|
  {
    if parameters != [] {
      PrivateModeShift(s, command, parameters[0], k);
      PrivateModesShift(SetPrivateMode(s, command, parameters[0]), command, parameters[1..], k);
    }
  }

  lemma {:induction false} ModesShift(s: State, command: Command, parameters: seq<Parameter>, k: nat)
    requires Geometry(s)
    ensures SetModes(Shift(s, k), command, parameters) == Shift(SetModes(s, command, parameters), k)
    decreases |parameters|
  {
    if parameters != [] {
      ModesShift(SetMode(s, command, parameters[0]), command, parameters[1..], k);
    }
  }

  lemma {:induction false} RenditionShift(s: State, parameters: seq<Parameter>, i: nat, k: nat)
    requires Geometry(s)
    ensures RenditionFrom(Shift(s, k), parameters, i) == Shift(RenditionFrom(s, parameters, i), k)
    decreases |parameters| - i
  {
    if i < |parameters| {
      var (next, last) := RenditionAt(s, parameters, i);
      assert RenditionAt(Shift(s, k), parameters, i) == (Shift(next, k), last);
      RenditionShift(next, parameters, last + 1, k);
    }
  }

  lemma CombiningShift(s: State, rune: char, k: nat)
    requires Geometry(s)
    ensures AppendCombining(Shift(s, k), rune) == Shift(AppendCombining(s, rune), k)
  {
  }

  lemma WrapShift(s: State, width: int, k: nat)
    requires Geometry(s)
    ensures WrapFor(Shift(s, k), width) == Shift(WrapFor(s, width), k)
  {
  }

  lemma PlaceShift(s: State, rune: char, width: int, k: nat)
    requires Geometry(s) && 1 <= width <= 2 && ActiveBuffer(s).cursor.column + width <= s.area.width
    ensures Place(Shift(s, k), rune, width) == Shift(Place(s, rune, width), k)
  {
  }

  lemma ShiftInsert(s: State, size: int, k: nat)
    requires Geometry(s)
    ensures Opened(Shift(s, k), size) == Shift(Opened(s, size), k)
  {
  }

  lemma SpacingShift(s: State, rune: char, fitting: int, k: nat)
    requires Geometry(s) && 1 <= fitting <= 2
    ensures PrintSpacing(Shift(s, k), rune, fitting) == Shift(PrintSpacing(s, rune, fitting), k)
  {
    WrapShift(s, fitting, k);
    var wrapped := WrapFor(s, fitting);
    var size := FinalSize(wrapped, fitting);
    ShiftInsert(wrapped, size, k);
    PlaceShift(Opened(wrapped, size), rune, size, k);
  }

  lemma PrintShift(s: State, rune: char, measured: int, k: nat)
    requires Geometry(s)
    ensures PrintRune(Shift(s, k), rune, measured) == Shift(PrintRune(s, rune, measured), k)
  {
    var natural := MeasuredWidth(s, measured);
    if natural == 0 {
      CombiningShift(s, Translate(s.pen, rune), k);
    } else {
      SpacingShift(s, Translate(s.pen, rune), if natural > s.area.width then 1 else natural, k);
    }
  }

  lemma MovementShift(s: State, final: char, parameters: seq<Parameter>, k: nat)
    requires Geometry(s)
    ensures ApplyMovement(Shift(s, k), final, parameters) == Shift(ApplyMovement(s, final, parameters), k)
    ensures SetScrollRegion(Shift(s, k), parameters) == Shift(SetScrollRegion(s, parameters), k)
  {
  }

  lemma EditShift(s: State, final: char, parameters: seq<Parameter>, k: nat)
    requires Geometry(s)
    ensures ApplyEdit(Shift(s, k), final, parameters) == Shift(ApplyEdit(s, final, parameters), k)
  {
    assert EditOf(Shift(s, k), final, parameters) == EditOf(s, final, parameters);
  }

  lemma PlainCsiShift(s: State, command: Command, parameters: seq<Parameter>, k: nat)
    requires Geometry(s) && command.prefix == '\0' && command.intermediate == '\0'
    ensures HandleCsi(Shift(s, k), command, parameters) == Shift(HandleCsi(s, command, parameters), k)
  {
    if IsMovement(command.final) {
      MovementShift(s, command.final, parameters, k);
    } else if IsEdit(command.final) {
      EditShift(s, command.final, parameters, k);
    } else if command.final == 'h' || command.final == 'l' {
      ModesShift(s, command, parameters, k);
    } else if command.final == 'm' {
      RenditionShift(s, if parameters == [] then [Parameter(0, true, false)] else parameters, 0, k);
    }
  }

  lemma CsiShift(s: State, command: Command, parameters: seq<Parameter>, k: nat)
    requires Geometry(s)
    ensures HandleCsi(Shift(s, k), command, parameters) == Shift(HandleCsi(s, command, parameters), k)
  {
    if command.prefix == '?' {
      PrivateModesShift(s, command, parameters, k);
    } else if command.prefix == '\0' && command.intermediate == '\0' {
      PlainCsiShift(s, command, parameters, k);
    }
  }

  lemma ControlShift(s: State, control: nat, k: nat)
    requires Geometry(s)
    ensures ExecuteControl(Shift(s, k), control) == Shift(ExecuteControl(s, control), k)
  {
  }

  lemma EscapeShift(s: State, command: Command, k: nat)
    requires Geometry(s)
    ensures HandleEscape(Shift(s, k), command) == Shift(HandleEscape(s, command), k)
  {
  }

  /** No event looks at the revision: it only adds to it. */
  lemma StepShift(s: State, input: Input, k: nat)
    requires Geometry(s)
    ensures Step(Shift(s, k), input) == Shift(Step(s, input), k)
  {
    match input
    case Print(rune, measured) => PrintShift(s, rune, measured, k);
    case Execute(control) => ControlShift(s, control, k);
    case Csi(command, parameters) => CsiShift(s, command, parameters, k);
    case Escape(command) => EscapeShift(s, command, k);
    case _ =>
  }

  lemma {:induction false} FeedShift(s: State, inputs: seq<Input>, k: nat)
    requires Geometry(s)
    ensures Feed(Shift(s, k), inputs) == Shift(Feed(s, inputs), k)
    decreases |inputs|
  {
    if inputs != [] {
      StepShift(s, inputs[0], k);
      FeedShift(Step(s, inputs[0]), inputs[1..], k);
    }
  }

  lemma {:induction false} FeedAppend(s: State, first: seq<Input>, second: seq<Input>)
    requires Geometry(s)
    ensures Feed(s, first + second) == Feed(Feed(s, first), second)
    decreases |first|
  {
    if first == [] {
      assert first + second == second;
    } else {
      assert (first + second)[1..] == first[1..] + second;
      FeedAppend(Step(s, first[0]), first[1..], second);
    }
  }

  function At(s: State, revision: nat): State {
    s.(log := s.log.(revision := revision))
  }

  /** From another revision, the same events lead to the same state but for its revision. */
  lemma FeedAt(s: State, revision: nat, inputs: seq<Input>)
    requires Geometry(s)
    ensures At(Feed(At(s, revision), inputs), 0) == At(Feed(s, inputs), 0)
  {
    FeedShift(At(s, 0), inputs, revision);
    FeedShift(At(s, 0), inputs, s.log.revision);
    assert Shift(At(s, 0), revision) == At(s, revision);
    assert Shift(At(s, 0), s.log.revision) == s;
  }

  /** Splitting a Write in two changes nothing but the revision. */
  lemma WriteSplit(s: State, first: seq<Input>, second: seq<Input>)
    requires Geometry(s)
    ensures At(Write(Write(s, first), second), 0) == At(Write(s, first + second), 0)
  {
    FeedAppend(s, first, second);
    var once := Feed(s, first);
    var written := Write(s, first);
    assert written == At(once, written.log.revision);
    FeedAt(once, written.log.revision, second);
  }
}
