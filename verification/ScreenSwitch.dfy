/** What the alternate-screen modes and a reset leave, from any state. */
module ScreenSwitch {
  import opened Cells
  import opened Grids
  import opened Options
  import opened ScreenModel
  import opened ScreenEdits

  function PrivateMode(mode: nat, final: char): Input {
    Csi(Command('?', '\0', final), [Parameter(mode, true, false)])
  }

  lemma OneMode(s: State, mode: nat, final: char)
    requires Geometry(s) && (final == 'h' || final == 'l')
    ensures Step(s, PrivateMode(mode, final)) ==
            SetPrivateMode(s, Command('?', '\0', final), Parameter(mode, true, false))
  {
    var (command, p) := (Command('?', '\0', final), Parameter(mode, true, false));
    assert [p][1..] == [];
  }

  /** Modes 1 and 7 change one setting each, and 7 also ends a pending wrap; mode 4, which is not
      private, is insertion. */
  lemma SettingModes(s: State, final: char, more: bool)
    requires Geometry(s) && (final == 'h' || final == 'l')
    ensures Step(s, PrivateMode(1, final)) == s.(pen := s.pen.(applicationCursor := final == 'h'))
    ensures Step(s, PrivateMode(7, final)) == s.(wrap := Wrap(false, final == 'h'))
    ensures Step(s, Plain(final, [Parameter(4, true, more)])) == s.(pen := s.pen.(insertMode := final == 'h'))
  {
    OneMode(s, 1, final);
    OneMode(s, 7, final);
    var (command, p) := (Command('\0', '\0', final), Parameter(4, true, more));
    assert [p][1..] == [];
    assert SetModes(SetMode(s, command, p), command, []) == SetMode(s, command, p);
  }

  /** A buffer with its cursor shown or hidden. */
  function WithVisible(b: Buffer, visible: bool): Buffer {
    Buffer(b.grid, Cursor(b.cursor.column, b.cursor.row, visible), b.saved)
  }

  /** Mode 25 shows or hides the cursor of both screens. */
  lemma CursorMode(s: State, final: char)
    requires Geometry(s) && (final == 'h' || final == 'l')
    ensures var t := Step(s, PrivateMode(25, final));
            && t == s.(screens := t.screens, log := s.log.(revision := s.log.revision + 1))
            && t.screens.onAlternate == s.screens.onAlternate
            && t.screens.main == WithVisible(s.screens.main, final == 'h')
            && t.screens.alternate.Some? == s.screens.alternate.Some?
            && (t.screens.alternate.Some? ==>
                  t.screens.alternate.value == WithVisible(s.screens.alternate.value, final == 'h'))
  {
    OneMode(s, 25, final);
  }

  /** A screen of spaces with the cursor at home, and nothing saved but the upper left corner. */
  ghost predicate BlankBuffer(b: Buffer, a: Area, style: Cell, visible: bool) {
    && b.cursor == Cursor(0, 0, visible) && b.saved == Cursor(0, 0, false)
    && Fits(b.grid, a.width, a.height)
    && forall r, c | 0 <= r < a.height && 0 <= c < a.width :: b.grid[r][c] == Space(style)
  }

  lemma NewIsBlank(a: Area, style: Cell, visible: bool)
    requires AreaOk(a)
    ensures BlankBuffer(NewBuffer(a, style, visible), a, style, visible)
  {
  }

  /** In `t` the other screen is shown, no wrap is pending and there is one more revision. */
  predicate Switched(s: State, t: State, screens: Screens) {
    t == s.(screens := screens, wrap := s.wrap.(pending := false), log := s.log.(revision := s.log.revision + 1))
  }

  /** From the main screen, 1047 and 1049 show a blank screen with the cursor at home, whatever the
      alternate screen showed before; the main screen is kept, and 1049 saves its cursor. */
  lemma EntersBlank(s: State, mode: nat)
    requires Geometry(s) && s.profile.xterm && !s.screens.onAlternate && (mode == 1047 || mode == 1049)
    ensures var (main, t) := (s.screens.main, Step(s, PrivateMode(mode, 'h')));
            && t.screens.onAlternate && t.screens.alternate.Some?
            && Switched(s, t, t.screens)
            && t.screens.main == (if mode == 1049 then main.(saved := main.cursor) else main)
            && BlankBuffer(t.screens.alternate.value, s.area, s.pen.style, main.cursor.visible)
  {
    OneMode(s, mode, 'h');
    NewIsBlank(s.area, s.pen.style, s.screens.main.cursor.visible);
  }

  /** 47 shows the alternate screen as it was left, and a blank one the first time. */
  lemma EntersAsLeft(s: State)
    requires Geometry(s) && s.profile.xterm && !s.screens.onAlternate
    ensures var t := Step(s, PrivateMode(47, 'h'));
            && t.screens.onAlternate && t.screens.alternate.Some? && t.screens.main == s.screens.main
            && Switched(s, t, t.screens)
            && (if s.screens.alternate.Some? then t.screens.alternate == s.screens.alternate
                else BlankBuffer(t.screens.alternate.value, s.area, s.pen.style, s.screens.main.cursor.visible))
  {
    OneMode(s, 47, 'h');
    NewIsBlank(s.area, s.pen.style, s.screens.main.cursor.visible);
  }

  /** On the alternate screen, 47 does nothing; 1047 and 1049 blank it and take the cursor home, but
      keep what was saved there, and 1049 saves the cursor of the main screen. */
  lemma EntersAgain(s: State, mode: nat)
    requires Geometry(s) && s.profile.xterm && s.screens.onAlternate && (mode == 1047 || mode == 1049)
    ensures Step(s, PrivateMode(47, 'h')) == s
    ensures var (main, t) := (s.screens.main, Step(s, PrivateMode(mode, 'h')));
            && t.screens.onAlternate && t.screens.alternate.Some? && t == s.(screens := t.screens)
            && t.screens.main == (if mode == 1049 then main.(saved := main.cursor) else main)
            && t.screens.alternate.value.saved == s.screens.alternate.value.saved
            && BlankBuffer(t.screens.alternate.value.(saved := Cursor(0, 0, false)), s.area, s.pen.style, true)
  {
    OneMode(s, 47, 'h');
    OneMode(s, mode, 'h');
    NewIsBlank(s.area, s.pen.style, true);
  }

  /** 47 and 1047 reset leave the alternate screen, which is kept, and do nothing on the main one;
      1049 reset also restores the saved cursor of the main screen on both, but not its visibility. */
  lemma Leaves(s: State, mode: nat)
    requires Geometry(s) && s.profile.xterm && (mode == 47 || mode == 1047 || mode == 1049)
    ensures var (main, t) := (s.screens.main, Step(s, PrivateMode(mode, 'l')));
            var restored := Cursor(main.saved.column, main.saved.row, main.cursor.visible);
            var after := if mode == 1049 then main.(cursor := restored) else main;
            if s.screens.onAlternate then Switched(s, t, Screens(after, s.screens.alternate, false))
            else t == s.(screens := s.screens.(main := after))
  {
    OneMode(s, mode, 'l');
  }

  /** In `t` everything is as on a new terminal but the size, the profile, the title and what has
      been reported. */
  ghost predicate AsNew(s: State, t: State)
    requires Geometry(s) && Geometry(t)
  {
    && t.profile == s.profile && t.area == Area(s.area.width, s.area.height, 0, s.area.height - 1)
    && t.screens.alternate == None && !t.screens.onAlternate
    && BlankBuffer(t.screens.main, s.area, Cell(" ", 1, -1, -1, {}), true)
    && t.wrap == Wrap(false, true)
    && t.pen == Pen(Cell(" ", 1, -1, -1, {}), false, false, false, false, 0)
    && t.log == s.log.(revision := s.log.revision + 1)
  }

  /** RIS. */
  lemma ResetLeaves(s: State)
    requires Geometry(s)
    ensures AsNew(s, Step(s, Escape(Command('\0', '\0', 'c'))))
  {
    NewIsBlank(Area(s.area.width, s.area.height, 0, s.area.height - 1), DEFAULT_CELL, true);
  }

  /** A new terminal is what a reset leaves, with nothing reported and no title. */
  lemma FreshIsNew(profile: Profile, width: nat, height: nat)
    requires width > 0 && height > 0
    ensures var s := Fresh(profile, width, height);
            && s.profile == profile && s.area == Area(width, height, 0, height - 1)
            && s.log == Log(0, [], "") && AsNew(s, s.(log := s.log.(revision := 1)))
  {
    NewIsBlank(Area(width, height, 0, height - 1), DEFAULT_CELL, true);
  }
}
