/** Cursor visibility follows private mode 25, and the control functions that make it stray. */
module ScreenVisibility {
  import opened ScreenModel
  import opened ScreenRevision
  import opened ScreenIsolation

  /** Both buffers show the cursor as last asked for. */
  predicate AsAsked(s: State, asked: bool) {
    && s.screens.main.cursor.visible == asked
    && (s.screens.alternate.Some? ==> s.screens.alternate.value.cursor.visible == asked)
  }

  /** What the visibility asked for is after an event: mode 25 asks, and a reset asks for a visible
      cursor. */
  function AskedBy(asked: bool, input: Input): bool {
    if IsReset(input) then true
    else if IsPrivateMode(input) then VisibleAfterModes(asked, input.command.final, input.parameters)
    else asked
  }

  // ------------------------------------------------------------ what makes it stray

  predicate IsRestore(input: Input) {
    input.Escape? && input.command.intermediate == '\0' && input.command.final == '8'
  }

  /** DECRC brings back the visibility that was saved. */
  lemma RestoreIff(s: State, input: Input, asked: bool)
    requires Geometry(s) && AsAsked(s, asked) && IsRestore(input)
    ensures AsAsked(Step(s, input), asked) <==> ActiveBuffer(s).saved.visible == asked
  {
  }

  /** The visibility a single private mode leaves asked for. */
  function AskedByMode(asked: bool, final: char, p: Parameter): bool {
    if p.present && p.value == 25 then final == 'h' else asked
  }

  /** Clearing the alternate screen while it is shown makes its cursor visible. */
  predicate Uncovers(s: State, command: Command, p: Parameter, asked: bool) {
    && p.present && s.profile.xterm && command.final == 'h' && (p.value == 1047 || p.value == 1049)
    && s.screens.onAlternate && !asked
  }

  lemma ModeVisibleIff(s: State, command: Command, p: Parameter, asked: bool)
    requires Geometry(s) && AsAsked(s, asked)
    ensures AsAsked(SetPrivateMode(s, command, p), AskedByMode(asked, command.final, p)) <==>
            !Uncovers(s, command, p, asked)
  {
  }

  /** Before anything is saved, the saved cursor is invisible: DECRC hides the cursor of a new
      terminal, though nothing asked for that. */
  lemma RestoreHides(profile: Profile, width: nat, height: nat)
    requires width > 0 && height > 0
    ensures var s := Fresh(profile, width, height);
            AsAsked(s, true) && !ActiveBuffer(Step(s, Escape(Command('\0', '\0', '8')))).cursor.visible
  {
    RestoreIff(Fresh(profile, width, height), Escape(Command('\0', '\0', '8')), true);
  }

  // ------------------------------------------------------------- what keeps it

  /** None of the modes uncovers the cursor when its turn comes. */
  predicate CoveredModes(s: State, command: Command, parameters: seq<Parameter>, asked: bool)
    requires Geometry(s)
    decreases |parameters|
  {
    parameters == [] ||
    (!Uncovers(s, command, parameters[0], asked)
     && CoveredModes(SetPrivateMode(s, command, parameters[0]), command, parameters[1..],
                     AskedByMode(asked, command.final, parameters[0])))
  }

  /** DECRC with another visibility saved, and a private-mode sequence that uncovers the cursor. */
  predicate Strays(s: State, input: Input, asked: bool)
    requires Geometry(s)
  {
    || (IsRestore(input) && ActiveBuffer(s).saved.visible != asked)
    || (IsPrivateMode(input) && !CoveredModes(s, input.command, input.parameters, asked))
  }

  lemma {:induction false} PrivateModesAsAsked(s: State, command: Command, parameters: seq<Parameter>, asked: bool)
    requires Geometry(s) && AsAsked(s, asked) && CoveredModes(s, command, parameters, asked)
    ensures AsAsked(SetPrivateModes(s, command, parameters), VisibleAfterModes(asked, command.final, parameters))
    decreases |parameters|
  {
    if parameters != [] {
      ModeVisibleIff(s, command, parameters[0], asked);
      PrivateModesAsAsked(SetPrivateMode(s, command, parameters[0]), command, parameters[1..],
                          AskedByMode(asked, command.final, parameters[0]));
    }
  }

  /** Neither buffer's cursor changes its visibility. */
  predicate SameVisibility(s: State, t: State) {
    && t.screens.main.cursor.visible == s.screens.main.cursor.visible
    && t.screens.alternate.Some? == s.screens.alternate.Some?
    && (s.screens.alternate.Some? ==>
          t.screens.alternate.value.cursor.visible == s.screens.alternate.value.cursor.visible)
  }

  lemma {:induction false} ModesSame(s: State, command: Command, parameters: seq<Parameter>)
    requires Geometry(s)
    ensures SameVisibility(s, SetModes(s, command, parameters))
    decreases |parameters|
  {
    if parameters != [] {
      ModesSame(SetMode(s, command, parameters[0]), command, parameters[1..]);
    }
  }

  lemma RenditionSame(s: State, parameters: seq<Parameter>, i: nat)
    requires Geometry(s) && i < |parameters|
    ensures RenditionAt(s, parameters, i).0.screens == s.screens
  {
  }

  lemma {:induction false} RenditionsSame(s: State, parameters: seq<Parameter>, i: nat)
    requires Geometry(s)
    ensures RenditionFrom(s, parameters, i).screens == s.screens
    decreases |parameters| - i
  {
    if i < |parameters| {
      RenditionSame(s, parameters, i);
      var (next, last) := RenditionAt(s, parameters, i);
      RenditionsSame(next, parameters, last + 1);
    }
  }

  /** An edit of the active buffer that keeps its cursor's visibility. */
  lemma EditedSame(s: State, b: Buffer)
    requires Geometry(s) && BufferFits(b, s.area) && b.cursor.visible == ActiveBuffer(s).cursor.visible
    ensures SameVisibility(s, Edited(s, b)) && SameVisibility(s, Moved(s, b))
  {
  }

  lemma MovementSame(s: State, final: char, parameters: seq<Parameter>)
    requires Geometry(s)
    ensures SameVisibility(s, ApplyMovement(s, final, parameters))
  {
    var to := Destination(ActiveBuffer(s), s.area, final, parameters);
    if to.Some? {
      EditedSame(s, MoveTo(ActiveBuffer(s), s.area, to.value.0, to.value.1));
    }
  }

  lemma EditKeepsCursor(s: State, final: char, parameters: seq<Parameter>)
    requires Geometry(s)
    ensures var b := EditOf(s, final, parameters); b.Some? ==> b.value.cursor == ActiveBuffer(s).cursor
  {
  }

  lemma EditSame(s: State, final: char, parameters: seq<Parameter>)
    requires Geometry(s)
    ensures SameVisibility(s, ApplyEdit(s, final, parameters))
  {
    EditKeepsCursor(s, final, parameters);
    var b := EditOf(s, final, parameters);
    if b.Some? {
      EditedSame(s, b.value);
    }
  }

  lemma RegionSame(s: State, parameters: seq<Parameter>)
    requires Geometry(s)
    ensures SameVisibility(s, SetScrollRegion(s, parameters))
  {
  }

  lemma PlainCsiSame(s: State, command: Command, parameters: seq<Parameter>)
    requires Geometry(s)
    ensures SameVisibility(s, DispatchCsi(s, command, parameters))
  {
    if IsMovement(command.final) {
      MovementSame(s, command.final, parameters);
    } else if IsEdit(command.final) {
      EditSame(s, command.final, parameters);
    } else if command.final == 'r' {
      RegionSame(s, parameters);
    } else if command.final == 'h' || command.final == 'l' {
      ModesSame(s, command, parameters);
    } else if command.final == 'm' {
      RenditionsSame(s, if parameters == [] then [Parameter(0, true, false)] else parameters, 0);
    }
  }

  lemma WrapSame(s: State, width: int)
    requires Geometry(s)
    ensures SameVisibility(s, WrapFor(s, width))
  {
    var b := ActiveBuffer(s);
    EditedSame(s, LineFeed(MoveTo(b, s.area, b.cursor.row, 0), s.area, s.pen.style));
  }

  lemma PlaceSame(s: State, rune: char, width: int)
    requires Geometry(s) && 1 <= width <= 2 && ActiveBuffer(s).cursor.column + width <= s.area.width
    ensures SameVisibility(s, Place(s, rune, width))
  {
  }

  lemma OpenedSame(s: State, size: int)
    requires Geometry(s)
    ensures SameVisibility(s, Opened(s, size))
  {
    EditedSame(s, InsertCharacters(ActiveBuffer(s), s.area, s.pen.style, size));
  }

  lemma SpacingSame(s: State, rune: char, fitting: int)
    requires Geometry(s) && 1 <= fitting <= 2
    ensures SameVisibility(s, PrintSpacing(s, rune, fitting))
  {
    var wrapped := WrapFor(s, fitting);
    var size := FinalSize(wrapped, fitting);
    WrapSame(s, fitting);
    OpenedSame(wrapped, size);
    PlaceSame(Opened(wrapped, size), rune, size);
  }

  lemma CombiningSame(s: State, rune: char)
    requires Geometry(s)
    ensures SameVisibility(s, AppendCombining(s, rune))
  {
  }

  lemma PrintSame(s: State, rune: char, measured: int)
    requires Geometry(s)
    ensures SameVisibility(s, PrintRune(s, rune, measured))
  {
    var natural := MeasuredWidth(s, measured);
    var translated := Translate(s.pen, rune);
    if natural == 0 {
      CombiningSame(s, translated);
    } else {
      SpacingSame(s, translated, if natural > s.area.width then 1 else natural);
    }
  }

  lemma ControlSame(s: State, control: nat)
    requires Geometry(s)
    ensures SameVisibility(s, ExecuteControl(s, control))
  {
  }

  lemma EscapeSame(s: State, command: Command)
    requires Geometry(s) && !IsRestore(Escape(command)) && !IsReset(Escape(command))
    ensures SameVisibility(s, HandleEscape(s, command))
  {
  }

  /** Every other event leaves the cursor as visible as was last asked for, on both screens. */
  lemma StepAsAsked(s: State, input: Input, asked: bool)
    requires Geometry(s) && AsAsked(s, asked) && !Strays(s, input, asked)
    ensures AsAsked(Step(s, input), AskedBy(asked, input))
  {
    match input
    case Print(rune, measured) => PrintSame(s, rune, measured);
    case Execute(control) => ControlSame(s, control);
    case Escape(command) =>
      if IsRestore(input) {
        RestoreIff(s, input, asked);
      } else if !IsReset(input) {
        EscapeSame(s, command);
      }
    case Csi(command, parameters) =>
      if IsPrivateMode(input) {
        PrivateModesAsAsked(s, command, parameters, asked);
      } else if command.prefix == '\0' && command.intermediate == '\0' {
        PlainCsiSame(s, command, parameters);
      }
    case _ =>
  }

  // ------------------------------------------------------------------- whole runs

  function AskedAfter(asked: bool, inputs: seq<Input>): bool
    decreases |inputs|
  {
    if inputs == [] then asked else AskedAfter(AskedBy(asked, inputs[0]), inputs[1..])
  }

  predicate Steady(s: State, inputs: seq<Input>, asked: bool)
    requires Geometry(s)
    decreases |inputs|
  {
    inputs == [] ||
    (!Strays(s, inputs[0], asked) && Steady(Step(s, inputs[0]), inputs[1..], AskedBy(asked, inputs[0])))
  }

  /** Over any events without those, the cursor shown is visible exactly as last asked for. */
  lemma {:induction false} FeedAsAsked(s: State, inputs: seq<Input>, asked: bool)
    requires Geometry(s) && AsAsked(s, asked) && Steady(s, inputs, asked)
    ensures AsAsked(Feed(s, inputs), AskedAfter(asked, inputs))
    ensures ActiveBuffer(Feed(s, inputs)).cursor.visible == AskedAfter(asked, inputs)
    decreases |inputs|
  {
    if inputs != [] {
      StepAsAsked(s, inputs[0], asked);
      FeedAsAsked(Step(s, inputs[0]), inputs[1..], AskedBy(asked, inputs[0]));
    }
  }

  /** Resizing does not touch it. */
  lemma ResizeAsAsked(s: State, width: int, height: int, asked: bool)
    requires Geometry(s) && AsAsked(s, asked)
    ensures AsAsked(Resize(s, width, height), asked)
  {
  }
}
