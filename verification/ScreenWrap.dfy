/** A pending wrap belongs to a cursor in the last column, and the three control functions that leave
    it pending elsewhere. */
module ScreenWrap {
  import opened Cells
  import opened ScreenModel
  import opened ScreenRevision

  /** A wrap is pending only with the cursor in the last column. */
  predicate AtEdge(s: State)
    requires Geometry(s)
  {
    s.wrap.pending ==> ActiveBuffer(s).cursor.column == s.area.width - 1
  }

  // ------------------------------------------------------------ what breaks it

  const NEXT_LINE := Escape(Command('\0', '\0', 'E'))

  predicate IsNextLine(input: Input) {
    input.Escape? && input.command.intermediate == '\0' && input.command.final == 'E'
  }

  /** NEL takes the cursor to the first column and leaves the wrap as it is. */
  lemma NextLineIff(s: State, input: Input)
    requires Geometry(s) && IsNextLine(input)
    ensures AtEdge(Step(s, input)) <==> !s.wrap.pending || s.area.width == 1
  {
  }

  /** A private mode that takes the cursor away from a pending wrap: clearing the alternate screen
      while it is shown, or going back to a saved cursor that is not in the last column while the
      main screen is shown. */
  predicate LoosensMode(s: State, command: Command, p: Parameter) {
    && p.present && s.profile.xterm && s.wrap.pending && s.area.width > 1
    && if command.final == 'h'
       then (p.value == 1047 || p.value == 1049) && s.screens.onAlternate
       else p.value == 1049 && !s.screens.onAlternate && s.screens.main.saved.column != s.area.width - 1
  }

  lemma ModeEdgeIff(s: State, command: Command, p: Parameter)
    requires Geometry(s) && AtEdge(s)
    ensures AtEdge(SetPrivateMode(s, command, p)) <==> !LoosensMode(s, command, p)
  {
  }

  const EMPTY := BlankRow(DEFAULT_CELL, 2)

  lemma PutOnEmpty(a: char, b: char)
    ensures PutRune(EMPTY, 0, a, 1, DEFAULT_CELL) == [Lead(DEFAULT_CELL, [a], 1), DEFAULT_CELL]
    ensures PutRune([Lead(DEFAULT_CELL, [a], 1), DEFAULT_CELL], 1, b, 1, DEFAULT_CELL)
         == [Lead(DEFAULT_CELL, [a], 1), Lead(DEFAULT_CELL, [b], 1)]
  {
    assert EMPTY == [DEFAULT_CELL, DEFAULT_CELL];
  }

  /** Two narrow runes on a new screen of two columns and three rows. */
  lemma TwoRunes(a: char, b: char)
    ensures var s := Feed(Fresh(Profile(true, ""), 2, 3), [Print(a, 1), Print(b, 1)]);
            && s.profile == Profile(true, "") && s.area == Area(2, 3, 0, 2) && s.wrap == Wrap(true, true)
            && s.pen == PLAIN_PEN && !s.screens.onAlternate
            && s.screens.main.cursor == Cursor(1, 0, true)
            && s.screens.main.grid == [[Lead(DEFAULT_CELL, [a], 1), Lead(DEFAULT_CELL, [b], 1)], EMPTY, EMPTY]
  {
    var start := Fresh(Profile(true, ""), 2, 3);
    var one := Step(start, Print(a, 1));
    var two := Step(one, Print(b, 1));
    PutOnEmpty(a, b);
    assert start.screens.main.grid == [EMPTY, EMPTY, EMPTY];
    assert one == Place(start, a, 1);
    assert one.screens.main.grid == [PutRune(EMPTY, 0, a, 1, DEFAULT_CELL), EMPTY, EMPTY];
    assert two == Place(one, b, 1);
    var g := one.screens.main.grid;
    assert two.screens.main.grid == g[0 := PutRune(g[0], 1, b, 1, DEFAULT_CELL)];
    assert Feed(start, [Print(a, 1), Print(b, 1)]) == two by {
      assert [Print(a, 1), Print(b, 1)][1..] == [Print(b, 1)] && [Print(b, 1)][1..] == [];
      assert Feed(two, []) == two;
    }
  }

  /** `a`, `b`, NEL, `c` on such a screen: the wrap that `b` left pending takes `c` from the second
      row, where NEL put the cursor, to the third. */
  lemma NextLineWrapsTwice()
    ensures var s := Feed(Fresh(Profile(true, ""), 2, 3), [Print('a', 1), Print('b', 1)]);
            var moved := Step(s, NEXT_LINE);
            var t := Step(moved, Print('c', 1));
            && AtEdge(s) && !AtEdge(moved)
            && ActiveBuffer(moved).cursor == Cursor(0, 1, true)
            && ActiveBuffer(t).grid == [ActiveBuffer(s).grid[0], EMPTY, [Lead(DEFAULT_CELL, "c", 1), DEFAULT_CELL]]
  {
    TwoRunes('a', 'b');
    var s := Feed(Fresh(Profile(true, ""), 2, 3), [Print('a', 1), Print('b', 1)]);
    var moved := Step(s, NEXT_LINE);
    assert moved == Edited(s, MoveTo(ActiveBuffer(s), s.area, 1, 0));
    var wrapped := WrapFor(moved, 1);
    assert ActiveBuffer(wrapped) == MoveTo(ActiveBuffer(moved), s.area, 2, 0);
    assert Step(moved, Print('c', 1)) == Place(wrapped, 'c', 1);
    PutOnEmpty('c', 'c');
    assert ActiveBuffer(Place(wrapped, 'c', 1)).grid
        == ActiveBuffer(wrapped).grid[2 := PutRune(EMPTY, 0, 'c', 1, DEFAULT_CELL)];
  }

  // ------------------------------------------------------------- what keeps it

  lemma AdvancedAtEdge(s: State, width: int)
    requires Geometry(s) && 1 <= width <= 2 && !s.wrap.pending
    ensures AtEdge(Advanced(s, width))
  {
  }

  lemma PrintAtEdge(s: State, rune: char, measured: int)
    requires Geometry(s) && AtEdge(s)
    ensures AtEdge(PrintRune(s, rune, measured))
  {
    var natural := MeasuredWidth(s, measured);
    var translated := Translate(s.pen, rune);
    if natural > 0 {
      var fitting := if natural > s.area.width then 1 else natural;
      var wrapped := WrapFor(s, fitting);
      var size := FinalSize(wrapped, fitting);
      AdvancedAtEdge(Written(Opened(wrapped, size), translated, size), size);
    }
  }

  lemma ControlAtEdge(s: State, control: nat)
    requires Geometry(s) && AtEdge(s)
    ensures AtEdge(ExecuteControl(s, control))
  {
  }

  lemma EscapeAtEdge(s: State, command: Command)
    requires Geometry(s) && AtEdge(s) && !IsNextLine(Escape(command))
    ensures AtEdge(HandleEscape(s, command))
  {
  }

  /** None of the private modes loosens the wrap when its turn comes. */
  predicate TightModes(s: State, command: Command, parameters: seq<Parameter>)
    requires Geometry(s)
    decreases |parameters|
  {
    parameters == [] ||
    (!LoosensMode(s, command, parameters[0])
     && TightModes(SetPrivateMode(s, command, parameters[0]), command, parameters[1..]))
  }

  lemma {:induction false} PrivateModesAtEdge(s: State, command: Command, parameters: seq<Parameter>)
    requires Geometry(s) && AtEdge(s) && TightModes(s, command, parameters)
    ensures AtEdge(SetPrivateModes(s, command, parameters))
    decreases |parameters|
  {
    if parameters != [] {
      ModeEdgeIff(s, command, parameters[0]);
      PrivateModesAtEdge(SetPrivateMode(s, command, parameters[0]), command, parameters[1..]);
    }
  }

  lemma {:induction false} ModesAtEdge(s: State, command: Command, parameters: seq<Parameter>)
    requires Geometry(s) && AtEdge(s)
    ensures AtEdge(SetModes(s, command, parameters))
    decreases |parameters|
  {
    if parameters != [] {
      ModesAtEdge(SetMode(s, command, parameters[0]), command, parameters[1..]);
    }
  }

  lemma RenditionAtEdge(s: State, parameters: seq<Parameter>, i: nat)
    requires Geometry(s) && AtEdge(s) && i < |parameters|
    ensures AtEdge(RenditionAt(s, parameters, i).0)
  {
  }

  lemma {:induction false} RenditionsAtEdge(s: State, parameters: seq<Parameter>, i: nat)
    requires Geometry(s) && AtEdge(s)
    ensures AtEdge(RenditionFrom(s, parameters, i))
    decreases |parameters| - i
  {
    if i < |parameters| {
      RenditionAtEdge(s, parameters, i);
      var (next, last) := RenditionAt(s, parameters, i);
      RenditionsAtEdge(next, parameters, last + 1);
    }
  }

  lemma EditAtEdge(s: State, final: char, parameters: seq<Parameter>)
    requires Geometry(s) && AtEdge(s)
    ensures AtEdge(ApplyMovement(s, final, parameters)) && AtEdge(ApplyEdit(s, final, parameters))
    ensures AtEdge(SetScrollRegion(s, parameters))
  {
  }

  lemma PlainCsiAtEdge(s: State, command: Command, parameters: seq<Parameter>)
    requires Geometry(s) && AtEdge(s)
    ensures AtEdge(DispatchCsi(s, command, parameters))
  {
    if IsMovement(command.final) || IsEdit(command.final) || command.final == 'r' {
      EditAtEdge(s, command.final, parameters);
    } else if command.final == 'h' || command.final == 'l' {
      ModesAtEdge(s, command, parameters);
    } else if command.final == 'm' {
      RenditionsAtEdge(s, if parameters == [] then [Parameter(0, true, false)] else parameters, 0);
    }
  }

  /** NEL, and a private-mode sequence with a mode that loosens a pending wrap. */
  predicate Loosens(s: State, input: Input)
    requires Geometry(s)
  {
    || (IsNextLine(input) && s.wrap.pending && s.area.width > 1)
    || (IsPrivateMode(input) && !TightModes(s, input.command, input.parameters))
  }

  /** Every other event keeps a pending wrap with a cursor in the last column. */
  lemma StepAtEdge(s: State, input: Input)
    requires Geometry(s) && AtEdge(s) && !Loosens(s, input)
    ensures AtEdge(Step(s, input))
  {
    match input
    case Print(rune, measured) => PrintAtEdge(s, rune, measured);
    case Execute(control) => ControlAtEdge(s, control);
    case Escape(command) => if IsNextLine(input) { NextLineIff(s, input); } else { EscapeAtEdge(s, command); }
    case Csi(command, parameters) =>
      if IsPrivateMode(input) {
        PrivateModesAtEdge(s, command, parameters);
      } else if command.prefix == '\0' && command.intermediate == '\0' {
        PlainCsiAtEdge(s, command, parameters);
      }
    case _ =>
  }

  // ------------------------------------------------------------------- whole runs

  predicate TightFeed(s: State, inputs: seq<Input>)
    requires Geometry(s)
    decreases |inputs|
  {
    inputs == [] || (!Loosens(s, inputs[0]) && TightFeed(Step(s, inputs[0]), inputs[1..]))
  }

  predicate TightRun(s: State, actions: seq<Action>)
    requires Geometry(s)
    decreases |actions|
  {
    actions == [] ||
    ((actions[0].Output? ==> TightFeed(s, actions[0].inputs)) && TightRun(Act(s, actions[0]), actions[1..]))
  }

  lemma {:induction false} FeedAtEdge(s: State, inputs: seq<Input>)
    requires Geometry(s) && AtEdge(s) && TightFeed(s, inputs)
    ensures AtEdge(Feed(s, inputs))
    decreases |inputs|
  {
    if inputs != [] {
      StepAtEdge(s, inputs[0]);
      FeedAtEdge(Step(s, inputs[0]), inputs[1..]);
    }
  }

  lemma {:induction false} RunAtEdgeFrom(s: State, actions: seq<Action>)
    requires Geometry(s) && AtEdge(s) && TightRun(s, actions)
    ensures AtEdge(Run(s, actions))
    decreases |actions|
  {
    if actions != [] {
      if actions[0].Output? {
        FeedAtEdge(s, actions[0].inputs);
      }
      RunAtEdgeFrom(Act(s, actions[0]), actions[1..]);
    }
  }

  /** From a new terminal, over any run of writes and resizes without those, a wrap is pending only
      with the cursor in the last column. */
  lemma RunAtEdge(profile: Profile, width: nat, height: nat, actions: seq<Action>)
    requires width > 0 && height > 0 && TightRun(Fresh(profile, width, height), actions)
    ensures AtEdge(Run(Fresh(profile, width, height), actions))
  {
    RunAtEdgeFrom(Fresh(profile, width, height), actions);
  }
}
