/** The alternate screen does not disturb the main one. */
module ScreenIsolation {
  import opened ScreenModel
  import opened ScreenRevision

  const ENTER := PrivateMode('h', 1049)

  const EXIT := PrivateMode('l', 1049)

  predicate IsReset(input: Input) {
    input.Escape? && input.command.intermediate == '\0' && input.command.final == 'c'
  }

  /** A reset, or a private-mode sequence that returns to the main screen. */
  predicate LeavesAlternate(input: Input) {
    || IsReset(input)
    || (IsPrivateMode(input) && input.command.final == 'l'
        && exists i | 0 <= i < |input.parameters| ::
             input.parameters[i].present && XTermPrivateMode(input.parameters[i].value))
  }

  /** Cursor visibility after the parameters of a private-mode sequence, from `visible`. */
  function VisibleAfterModes(visible: bool, final: char, parameters: seq<Parameter>): bool
    decreases |parameters|
  {
    if parameters == [] then visible
    else
      VisibleAfterModes(if parameters[0].present && parameters[0].value == 25 then final == 'h' else visible,
                        final, parameters[1..])
  }

  /** Cursor visibility as mode 25 last set it, from `visible`. */
  function VisibleAfter(visible: bool, inputs: seq<Input>): bool
    decreases |inputs|
  {
    if inputs == [] then visible
    else
      VisibleAfter(if IsPrivateMode(inputs[0])
                   then VisibleAfterModes(visible, inputs[0].command.final, inputs[0].parameters) else visible,
                   inputs[1..])
  }

  predicate SamePlace(c: Cursor, d: Cursor) {
    c.row == d.row && c.column == d.column
  }

  /** The alternate screen is shown while the main one waits as `home`, but for cursor visibility. */
  predicate Shelved(s: State, home: Buffer, visible: bool) {
    && Geometry(s) && s.profile.xterm && s.screens.onAlternate
    && s.screens.main.grid == home.grid
    && s.screens.main.cursor == home.cursor.(visible := visible)
    && SamePlace(s.screens.main.saved, home.cursor)
  }

  lemma ModeShelved(s: State, command: Command, p: Parameter, home: Buffer, visible: bool)
    requires Shelved(s, home, visible)
    requires !(p.present && command.final == 'l' && XTermPrivateMode(p.value))
    requires command.final == 'h' || command.final == 'l'
    ensures Shelved(SetPrivateMode(s, command, p), home,
                    if p.present && p.value == 25 then command.final == 'h' else visible)
  {
  }

  lemma {:induction false} ModesShelved(s: State, command: Command, parameters: seq<Parameter>,
                                        home: Buffer, visible: bool)
    requires Shelved(s, home, visible)
    requires command.final == 'h' || command.final == 'l'
    requires forall i | 0 <= i < |parameters| ::
      !(parameters[i].present && command.final == 'l' && XTermPrivateMode(parameters[i].value))
    ensures Shelved(SetPrivateModes(s, command, parameters), home,
                    VisibleAfterModes(visible, command.final, parameters))
    decreases |parameters|
  {
    if parameters != [] {
      var p := parameters[0];
      ModeShelved(s, command, p, home, visible);
      ModesShelved(SetPrivateMode(s, command, p), command, parameters[1..], home,
                   if p.present && p.value == 25 then command.final == 'h' else visible);
    }
  }

  /** While the alternate screen is shown, only private modes and a reset reach the main one. */
  predicate MainUntouched(s: State, t: State) {
    && t.profile == s.profile && t.screens.main == s.screens.main && t.screens.onAlternate
  }

  lemma {:induction false} ModesUntouched(s: State, command: Command, parameters: seq<Parameter>)
    requires Geometry(s) && s.screens.onAlternate
    ensures MainUntouched(s, SetModes(s, command, parameters))
    decreases |parameters|
  {
    if parameters != [] {
      ModesUntouched(SetMode(s, command, parameters[0]), command, parameters[1..]);
    }
  }

  lemma {:induction false} RenditionUntouched(s: State, parameters: seq<Parameter>, i: nat)
    requires Geometry(s) && s.screens.onAlternate
    ensures MainUntouched(s, RenditionFrom(s, parameters, i))
    decreases |parameters| - i
  {
    if i < |parameters| {
      var (next, last) := RenditionAt(s, parameters, i);
      RenditionUntouched(next, parameters, last + 1);
    }
  }

  lemma EditUntouched(s: State, final: char, parameters: seq<Parameter>)
    requires Geometry(s) && s.screens.onAlternate
    ensures MainUntouched(s, ApplyMovement(s, final, parameters)) && MainUntouched(s, ApplyEdit(s, final, parameters))
    ensures MainUntouched(s, SetScrollRegion(s, parameters))
  {
  }

  lemma CsiUntouched(s: State, command: Command, parameters: seq<Parameter>)
    requires Geometry(s) && s.screens.onAlternate && !IsPrivateMode(Csi(command, parameters))
    ensures MainUntouched(s, HandleCsi(s, command, parameters))
  {
    EditUntouched(s, command.final, parameters);
    ModesUntouched(s, command, parameters);
    RenditionUntouched(s, if parameters == [] then [Parameter(0, true, false)] else parameters, 0);
  }

  lemma PrintUntouched(s: State, rune: char, measured: int)
    requires Geometry(s) && s.screens.onAlternate
    ensures MainUntouched(s, PrintRune(s, rune, measured))
  {
  }

  lemma ControlUntouched(s: State, input: Input)
    requires Geometry(s) && s.screens.onAlternate && !IsReset(input) && !input.Csi? && !input.Print?
    ensures MainUntouched(s, Step(s, input))
  {
  }

  lemma {:induction false} FeedShelved(s: State, inputs: seq<Input>, home: Buffer, visible: bool)
    requires Shelved(s, home, visible)
    requires forall i | 0 <= i < |inputs| :: !LeavesAlternate(inputs[i])
    ensures Shelved(Feed(s, inputs), home, VisibleAfter(visible, inputs))
    decreases |inputs|
  {
    if inputs != [] {
      var input := inputs[0];
      assert !LeavesAlternate(input);
      if IsPrivateMode(input) {
        ModesShelved(s, input.command, input.parameters, home, visible);
      } else {
        match input {
          case Csi(command, parameters) => CsiUntouched(s, command, parameters);
          case Print(rune, measured) => PrintUntouched(s, rune, measured);
          case _ => ControlUntouched(s, input);
        }
      }
      FeedShelved(Step(s, input), inputs[1..], home,
                  if IsPrivateMode(input)
                  then VisibleAfterModes(visible, input.command.final, input.parameters) else visible);
    }
  }

  /** Entering the alternate screen with mode 1049, running anything that neither resets nor
      leaves it, and leaving it with mode 1049 brings back exactly the main cells and the cursor
      position, with the visibility mode 25 last asked for. */
  lemma AlternateIsolation(s: State, inputs: seq<Input>)
    requires Geometry(s) && s.profile.xterm && !s.screens.onAlternate
    requires forall i | 0 <= i < |inputs| :: !LeavesAlternate(inputs[i])
    ensures var t := Feed(s, [ENTER] + inputs + [EXIT]);
            && !t.screens.onAlternate
            && t.screens.main.grid == s.screens.main.grid
            && t.screens.main.cursor ==
               s.screens.main.cursor.(visible := VisibleAfter(s.screens.main.cursor.visible, inputs))
  {
    var home := s.screens.main;
    var entered := Feed(s, [ENTER]);
    FeedMode(s, 'h', 1049);
    FeedShelved(entered, inputs, home, home.cursor.visible);
    var before := Feed(entered, inputs);
    FeedMode(before, 'l', 1049);
    FeedAppend(s, [ENTER], inputs);
    FeedAppend(s, [ENTER] + inputs, [EXIT]);
  }
}
