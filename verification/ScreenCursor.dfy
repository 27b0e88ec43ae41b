/** Cursor movements that undo one another, and the saved cursor. */
module ScreenCursor {
  import opened ScreenModel
  import opened ScreenRevision

  function Movement(final: char, count: nat): Input {
    Csi(Command('\0', '\0', final), [Parameter(count, true, false)])
  }

  lemma MovementStep(s: State, final: char, count: nat)
    requires Geometry(s) && IsMovement(final)
    ensures Step(s, Movement(final, count)) == ApplyMovement(s, final, [Parameter(count, true, false)])
  {
  }

  lemma ColumnsUndoIff(s: State, count: nat)
    requires Geometry(s) && count > 0
    ensures var cursor := ActiveBuffer(s).cursor;
            ActiveBuffer(Step(Step(s, Movement('C', count)), Movement('D', count))).cursor == cursor
            <==> cursor.column + count < s.area.width || cursor.column == 0
  {
    MovementStep(s, 'C', count);
    MovementStep(Step(s, Movement('C', count)), 'D', count);
  }

  lemma RowsUndoIff(s: State, count: nat)
    requires Geometry(s) && count > 0
    ensures var cursor := ActiveBuffer(s).cursor;
            ActiveBuffer(Step(Step(s, Movement('B', count)), Movement('A', count))).cursor == cursor
            <==> cursor.row + count < s.area.height || cursor.row == 0
  {
    MovementStep(s, 'B', count);
    MovementStep(Step(s, Movement('B', count)), 'A', count);
  }

  /** CUF undone by CUB, and CUD by CUU, of as many cells: the cursor is back exactly when the edge
      of the screen did not stop the first movement, or stops the second where it began. */
  lemma MovesUndoIff(s: State, count: nat)
    requires Geometry(s) && count > 0
    ensures var cursor := ActiveBuffer(s).cursor;
            && (ActiveBuffer(Step(Step(s, Movement('C', count)), Movement('D', count))).cursor == cursor
                <==> cursor.column + count < s.area.width || cursor.column == 0)
            && (ActiveBuffer(Step(Step(s, Movement('B', count)), Movement('A', count))).cursor == cursor
                <==> cursor.row + count < s.area.height || cursor.row == 0)
  {
    ColumnsUndoIff(s, count);
    RowsUndoIff(s, count);
  }

  const SAVE := Escape(Command('\0', '\0', '7'))

  const RESTORE := Escape(Command('\0', '\0', '8'))

  /** Events that save a cursor or bring another buffer: DECSC, RIS, and the private modes that
      switch screens. */
  predicate TouchesSaved(input: Input) {
    || (input.Escape? && input.command.intermediate == '\0'
        && (input.command.final == '7' || input.command.final == 'c'))
    || (IsPrivateMode(input)
        && exists i | 0 <= i < |input.parameters| ::
             input.parameters[i].present && XTermPrivateMode(input.parameters[i].value))
  }

  predicate KeepsSaved(s: State, t: State)
    requires Geometry(s) && Geometry(t)
  {
    t.screens.onAlternate == s.screens.onAlternate && ActiveBuffer(t).saved == ActiveBuffer(s).saved
  }

  lemma {:induction false} PrivateModesKeepSaved(s: State, command: Command, parameters: seq<Parameter>)
    requires Geometry(s)
    requires forall i | 0 <= i < |parameters| :: !(parameters[i].present && XTermPrivateMode(parameters[i].value))
    ensures KeepsSaved(s, SetPrivateModes(s, command, parameters))
    decreases |parameters|
  {
    if parameters != [] {
      assert !(parameters[0].present && XTermPrivateMode(parameters[0].value));
      PrivateModesKeepSaved(SetPrivateMode(s, command, parameters[0]), command, parameters[1..]);
    }
  }

  lemma {:induction false} ModesKeepSaved(s: State, command: Command, parameters: seq<Parameter>)
    requires Geometry(s)
    ensures KeepsSaved(s, SetModes(s, command, parameters))
    decreases |parameters|
  {
    if parameters != [] {
      ModesKeepSaved(SetMode(s, command, parameters[0]), command, parameters[1..]);
    }
  }

  lemma {:induction false} RenditionKeepsSaved(s: State, parameters: seq<Parameter>, i: nat)
    requires Geometry(s)
    ensures KeepsSaved(s, RenditionFrom(s, parameters, i))
    decreases |parameters| - i
  {
    if i < |parameters| {
      var (next, last) := RenditionAt(s, parameters, i);
      RenditionKeepsSaved(next, parameters, last + 1);
    }
  }

  lemma EditKeepsSaved(s: State, final: char, parameters: seq<Parameter>)
    requires Geometry(s)
    ensures KeepsSaved(s, ApplyMovement(s, final, parameters)) && KeepsSaved(s, ApplyEdit(s, final, parameters))
    ensures KeepsSaved(s, SetScrollRegion(s, parameters))
  {
  }

  lemma CsiKeepsSaved(s: State, command: Command, parameters: seq<Parameter>)
    requires Geometry(s) && !TouchesSaved(Csi(command, parameters))
    ensures KeepsSaved(s, HandleCsi(s, command, parameters))
  {
    if IsPrivateMode(Csi(command, parameters)) {
      PrivateModesKeepSaved(s, command, parameters);
    } else if command.prefix == '\0' && command.intermediate == '\0' {
      EditKeepsSaved(s, command.final, parameters);
      ModesKeepSaved(s, command, parameters);
      RenditionKeepsSaved(s, if parameters == [] then [Parameter(0, true, false)] else parameters, 0);
    }
  }

  lemma SpacingKeepsSaved(s: State, rune: char, fitting: int)
    requires Geometry(s) && 1 <= fitting <= 2
    ensures KeepsSaved(s, PrintSpacing(s, rune, fitting))
  {
    var wrapped := WrapFor(s, fitting);
    assert KeepsSaved(s, wrapped);
    var size := FinalSize(wrapped, fitting);
    assert KeepsSaved(wrapped, Opened(wrapped, size));
    assert KeepsSaved(Opened(wrapped, size), PrintSpacing(s, rune, fitting));
  }

  lemma CombiningKeepsSaved(s: State, rune: char)
    requires Geometry(s)
    ensures KeepsSaved(s, AppendCombining(s, rune))
  {
  }

  lemma PrintKeepsSaved(s: State, rune: char, measured: int)
    requires Geometry(s)
    ensures KeepsSaved(s, PrintRune(s, rune, measured))
  {
    var natural := MeasuredWidth(s, measured);
    var translated := Translate(s.pen, rune);
    if natural == 0 {
      CombiningKeepsSaved(s, translated);
    } else {
      SpacingKeepsSaved(s, translated, if natural > s.area.width then 1 else natural);
    }
  }

  lemma EscapeKeepsSaved(s: State, command: Command)
    requires Geometry(s) && !TouchesSaved(Escape(command))
    ensures KeepsSaved(s, HandleEscape(s, command))
  {
  }

  lemma ControlKeepsSaved(s: State, input: Input)
    requires Geometry(s) && !TouchesSaved(input) && !input.Csi? && !input.Print?
    ensures KeepsSaved(s, Step(s, input))
  {
    match input
    case Execute(control) => assert KeepsSaved(s, ExecuteControl(s, control));
    case Escape(command) => EscapeKeepsSaved(s, command);
    case _ =>
  }

  lemma {:induction false} FeedKeepsSaved(s: State, inputs: seq<Input>)
    requires Geometry(s)
    requires forall i | 0 <= i < |inputs| :: !TouchesSaved(inputs[i])
    ensures KeepsSaved(s, Feed(s, inputs))
    decreases |inputs|
  {
    if inputs != [] {
      match inputs[0] {
        case Csi(command, parameters) => CsiKeepsSaved(s, command, parameters);
        case Print(rune, measured) => PrintKeepsSaved(s, rune, measured);
        case _ => ControlKeepsSaved(s, inputs[0]);
      }
      FeedKeepsSaved(Step(s, inputs[0]), inputs[1..]);
    }
  }

  /** DECSC, then anything that does not save, reset or switch screens, then DECRC: the cursor is
      exactly as saved, visibility included, and no wrap is pending. */
  lemma SaveRestore(s: State, inputs: seq<Input>)
    requires Geometry(s)
    requires forall i | 0 <= i < |inputs| :: !TouchesSaved(inputs[i])
    ensures var t := Step(Feed(Step(s, SAVE), inputs), RESTORE);
            && ActiveBuffer(t).cursor == ActiveBuffer(s).cursor
            && t.screens.onAlternate == s.screens.onAlternate && !t.wrap.pending
  {
    FeedKeepsSaved(Step(s, SAVE), inputs);
  }
}
