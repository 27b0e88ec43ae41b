/** Where printed text lands: a new terminal shows the last lines of its text, broken greedily. */
module ScreenLayout {
  import opened Cells
  import opened Grids
  import opened Options
  import opened ScreenModel

  /** Lines of text, each no longer than the screen is wide. */
  type Lines = ls: seq<Row> | |ls| > 0 witness [[]]

  function Last(lines: Lines): Row {
    lines[|lines| - 1]
  }

  function WithLast(lines: Lines, line: Row): (r: Lines)
    ensures |r| == |lines| && Last(r) == line
  {
    lines[..|lines| - 1] + [line]
  }

  /** Adds a combining rune to the last character of a line. */
  function Extend(line: Row, rune: char): (r: Row)
    ensures |r| == |line|
  {
    if line == [] then line
    else
      var k := if |line| >= 2 && line[|line| - 1].width == 0 then |line| - 2 else |line| - 1;
      line[k := line[k].(text := line[k].text + [rune])]
  }

  /** The cells a spacing rune takes on a screen of this width. */
  function Span(profile: Profile, width: nat, measured: int): int {
    var natural := if profile.xterm && 0 <= measured <= 2 then measured else 1;
    if natural > width then 1 else natural
  }

  function Glyph(input: Input, size: int): Row
    requires input.Print?
  {
    RuneCells(DEFAULT_CELL, input.rune, size)
  }

  /** Text broken greedily: a character goes on the current line if it fits, else on a new one. */
  function FlowStep(lines: Lines, profile: Profile, width: nat, input: Input): Lines
    requires input.Print?
  {
    var size := Span(profile, width, input.measured);
    if size == 0 then WithLast(lines, Extend(Last(lines), input.rune))
    else if |Last(lines)| + size <= width then WithLast(lines, Last(lines) + Glyph(input, size))
    else lines + [Glyph(input, size)]
  }

  function Flow(lines: Lines, profile: Profile, width: nat, inputs: seq<Input>): Lines
    requires forall i | 0 <= i < |inputs| :: inputs[i].Print?
    decreases |inputs|
  {
    if inputs == [] then lines else Flow(FlowStep(lines, profile, width, inputs[0]), profile, width, inputs[1..])
  }

  // ------------------------------------------------------- what a screen shows of it

  function Pad(line: Row, width: nat): (r: Row)
    requires |line| <= width
    ensures |r| == width
  {
    line + BlankRow(DEFAULT_CELL, width - |line|)
  }

  predicate Short(lines: Lines, width: nat) {
    forall i | 0 <= i < |lines| :: |lines[i]| <= width
  }

  function FirstLine(lines: Lines, height: nat): nat {
    if |lines| > height then |lines| - height else 0
  }

  /** The line that row r of the screen shows, once the last line is in view. */
  function VisibleRow(lines: Lines, width: nat, height: nat, r: nat): (row: Row)
    requires Short(lines, width)
    ensures |row| == width
  {
    var i := r + FirstLine(lines, height);
    if i < |lines| then Pad(lines[i], width) else BlankRow(DEFAULT_CELL, width)
  }

  /** The last `height` lines. */
  function Window(lines: Lines, width: nat, height: nat): (g: Grid)
    requires Short(lines, width)
    ensures Fits(g, width, height)
  {
    seq(height, r requires 0 <= r < height => VisibleRow(lines, width, height, r))
  }

  /** Every line is made of whole characters, and only a first line may be empty. */
  predicate Laid(lines: Lines) {
    && (forall i | 0 <= i < |lines| :: Paired(lines[i]))
    && (Last(lines) == [] ==> |lines| == 1)
  }

  /** The state of a new terminal that has printed `lines`. */
  predicate Shows(s: State, profile: Profile, width: nat, height: nat, lines: Lines) {
    && 0 < width && 0 < height && Geometry(s)
    && s.profile == profile && s.area == Area(width, height, 0, height - 1) && s.pen == PLAIN_PEN
    && s.wrap == Wrap(|Last(lines)| == width, true)
    && !s.screens.onAlternate && s.screens.alternate.None?
    && Short(lines, width)
    && s.screens.main.grid == Window(lines, width, height)
    && s.screens.main.cursor ==
       Cursor(Min(|Last(lines)|, width - 1), |lines| - 1 - FirstLine(lines, height), true)
  }

  // ----------------------------------------------------------------------- the proof

  lemma WindowLast(lines: Lines, line: Row, width: nat, height: nat)
    requires Short(lines, width) && |line| <= width && height > 0
    ensures Short(WithLast(lines, line), width)
    ensures FirstLine(WithLast(lines, line), height) == FirstLine(lines, height)
    ensures var row := |lines| - 1 - FirstLine(lines, height);
            0 <= row < height
            && Window(lines, width, height)[row] == Pad(Last(lines), width)
            && Window(WithLast(lines, line), width, height) == Window(lines, width, height)[row := Pad(line, width)]
  {
  }

  /** A glyph put right after a line of text extends the line. */
  lemma PutExtends(line: Row, width: nat, rune: char, size: int)
    requires 1 <= size <= 2 && |line| + size <= width
    ensures PutRune(Pad(line, width), |line|, rune, size, DEFAULT_CELL) ==
            Pad(line + RuneCells(DEFAULT_CELL, rune, size), width)
  {
    var row := Pad(line, width);
    assert row[|line|].width == 1 && (size == 2 ==> row[|line| + 1].width == 1);
  }

  lemma PlaceShows(s: State, profile: Profile, width: nat, height: nat, lines: Lines, rune: char, size: int)
    requires Shows(s, profile, width, height, lines)
    requires 1 <= size <= 2 && |Last(lines)| + size <= width
    ensures Shows(Place(s, rune, size), profile, width, height,
                  WithLast(lines, Last(lines) + RuneCells(DEFAULT_CELL, rune, size)))
  {
    WindowLast(lines, Last(lines) + RuneCells(DEFAULT_CELL, rune, size), width, height);
    PutExtends(Last(lines), width, rune, size);
  }

  lemma WindowScrolls(lines: Lines, width: nat, height: nat)
    requires Short(lines, width) && height > 0
    ensures Short(lines + [[]], width)
    ensures |lines| >= height ==>
      Window(lines + [[]], width, height) ==
      DeleteRows(Window(lines, width, height), 0, height - 1, 1, BlankRow(DEFAULT_CELL, width))
    ensures |lines| < height ==> Window(lines + [[]], width, height) == Window(lines, width, height)
  {
    assert Pad([], width) == BlankRow(DEFAULT_CELL, width);
    var more: Lines := lines + [[]];
    var g, g' := Window(lines, width, height), Window(more, width, height);
    if |lines| >= height {
      var offset := |lines| - height;
      assert FirstLine(more, height) == offset + 1;
      forall r | 0 <= r < height
        ensures g'[r] == DeleteRows(g, 0, height - 1, 1, BlankRow(DEFAULT_CELL, width))[r]
      {
        if r < height - 1 {
          assert g'[r] == Pad(lines[offset + 1 + r], width) == g[r + 1];
        }
      }
    }
  }

  /** The wrap before a character that does not fit starts a new line. */
  lemma WrapShows(s: State, profile: Profile, width: nat, height: nat, lines: Lines, size: int)
    requires Shows(s, profile, width, height, lines)
    requires 1 <= size <= 2 && size <= width && |Last(lines)| + size > width
    ensures Shows(WrapFor(s, size), profile, width, height, lines + [[]])
  {
    WindowScrolls(lines, width, height);
  }

  lemma SpacingShows(s: State, profile: Profile, width: nat, height: nat, lines: Lines, rune: char, size: int)
    requires Shows(s, profile, width, height, lines)
    requires 1 <= size <= 2 && size <= width
    ensures var glyph := RuneCells(DEFAULT_CELL, rune, size);
            Shows(PrintSpacing(s, rune, size), profile, width, height,
                  if |Last(lines)| + size <= width then WithLast(lines, Last(lines) + glyph) else lines + [glyph])
  {
    if |Last(lines)| + size <= width {
      assert WrapFor(s, size) == s;
      PlaceShows(s, profile, width, height, lines, rune, size);
    } else {
      WrapShows(s, profile, width, height, lines, size);
      var started: Lines := lines + [[]];
      PlaceShows(WrapFor(s, size), profile, width, height, started, rune, size);
      assert Last(started) + RuneCells(DEFAULT_CELL, rune, size) == RuneCells(DEFAULT_CELL, rune, size);
      assert started[..|lines|] == lines;
    }
  }

  /** A rune that combines behind a line goes to the line's last character. */
  lemma LastCharacter(g: Grid, width: nat, row: nat, line: Row) returns (k: nat)
    requires Fits(g, width, |g|) && row < |g| && line != [] && |line| <= width
    requires g[row] == Pad(line, width) && Paired(line)
    ensures k == (if line[|line| - 1].width == 0 then |line| - 2 else |line| - 1)
    ensures CombiningTarget(g, width, row, |line| - 1) == Some((row, k))
  {
    var end := |line| - 1;
    assert PairedAt(line, end);
    k := if line[end].width == 0 then end - 1 else end;
    assert g[row][end] == line[end] && g[row][k] == line[k];
  }

  lemma CombiningShows(s: State, profile: Profile, width: nat, height: nat, lines: Lines, rune: char)
    requires Shows(s, profile, width, height, lines) && Laid(lines)
    ensures Shows(AppendCombining(s, rune), profile, width, height, WithLast(lines, Extend(Last(lines), rune)))
  {
    var line := Last(lines);
    WindowLast(lines, Extend(line, rune), width, height);
    if line == [] {
      assert WithLast(lines, line) == lines;
    } else {
      var b := s.screens.main;
      assert b.grid[b.cursor.row] == Pad(line, width);
      var k := LastCharacter(b.grid, width, b.cursor.row, line);
      assert Pad(Extend(line, rune), width) == Pad(line, width)[k := line[k].(text := line[k].text + [rune])];
    }
  }

  lemma StepShows(s: State, profile: Profile, width: nat, height: nat, lines: Lines, input: Input)
    requires Shows(s, profile, width, height, lines) && Laid(lines) && input.Print?
    ensures Shows(Step(s, input), profile, width, height, FlowStep(lines, profile, width, input))
  {
    var size := Span(profile, width, input.measured);
    if size == 0 {
      CombiningShows(s, profile, width, height, lines, input.rune);
    } else {
      SpacingShows(s, profile, width, height, lines, input.rune, size);
    }
  }

  // ----------------------------------------------------------- the shape of the lines

  lemma ExtendPaired(line: Row, rune: char)
    requires Paired(line)
    ensures Paired(Extend(line, rune))
  {
    forall c: nat | c < |line| ensures PairedAt(Extend(line, rune), c) {
      assert PairedAt(line, c);
    }
  }

  lemma AppendPaired(line: Row, rune: char, size: int)
    requires Paired(line) && 1 <= size <= 2
    ensures Paired(line + RuneCells(DEFAULT_CELL, rune, size))
  {
    var r := line + RuneCells(DEFAULT_CELL, rune, size);
    forall c: nat | c < |r| ensures PairedAt(r, c) {
      if c < |line| { assert PairedAt(line, c); }
    }
  }

  /** A line ends only where the next character does not fit. */
  predicate Greedy(lines: Lines, width: nat) {
    forall i | 0 <= i < |lines| - 1 ::
      |lines[i]| == width
      || (|lines[i]| == width - 1 && |lines[i + 1]| > 0 && lines[i + 1][0].width == 2)
  }

  lemma FlowStepLays(lines: Lines, profile: Profile, width: nat, input: Input)
    requires input.Print? && width > 0 && Short(lines, width) && Laid(lines) && Greedy(lines, width)
    ensures var next := FlowStep(lines, profile, width, input);
            Short(next, width) && Laid(next) && Greedy(next, width)
  {
    var size := Span(profile, width, input.measured);
    ExtendPaired(Last(lines), input.rune);
    if size > 0 {
      AppendPaired(Last(lines), input.rune, size);
      AppendPaired([], input.rune, size);
      assert [] + Glyph(input, size) == Glyph(input, size);
    }
  }

  lemma {:induction false} FlowShows(s: State, profile: Profile, width: nat, height: nat,
                                     lines: Lines, inputs: seq<Input>)
    requires forall i | 0 <= i < |inputs| :: inputs[i].Print?
    requires Shows(s, profile, width, height, lines) && Laid(lines) && Greedy(lines, width)
    ensures var flowed := Flow(lines, profile, width, inputs);
            Shows(Feed(s, inputs), profile, width, height, flowed) && Laid(flowed) && Greedy(flowed, width)
    decreases |inputs|
  {
    if inputs != [] {
      StepShows(s, profile, width, height, lines, inputs[0]);
      FlowStepLays(lines, profile, width, inputs[0]);
      FlowShows(Step(s, inputs[0]), profile, width, height, FlowStep(lines, profile, width, inputs[0]), inputs[1..]);
    }
  }

  // -------------------------------------------------------------- nothing is lost

  function Concat(lines: seq<Row>): Row {
    if lines == [] then [] else Concat(lines[..|lines| - 1]) + lines[|lines| - 1]
  }

  /** The characters of the text one after the other, as if on one endless line. */
  function Stream(row: Row, profile: Profile, width: nat, inputs: seq<Input>): Row
    requires forall i | 0 <= i < |inputs| :: inputs[i].Print?
    decreases |inputs|
  {
    if inputs == [] then row
    else
      var size := Span(profile, width, inputs[0].measured);
      Stream(if size == 0 then Extend(row, inputs[0].rune) else row + Glyph(inputs[0], size),
             profile, width, inputs[1..])
  }

  lemma ExtendConcat(before: Row, line: Row, rune: char)
    requires Paired(line) && (line == [] ==> before == [])
    ensures before + Extend(line, rune) == Extend(before + line, rune)
  {
    if line != [] {
      assert PairedAt(line, |line| - 1);
    }
  }

  lemma {:induction false} FlowKeepsText(lines: Lines, profile: Profile, width: nat, inputs: seq<Input>)
    requires forall i | 0 <= i < |inputs| :: inputs[i].Print?
    requires width > 0 && Short(lines, width) && Laid(lines) && Greedy(lines, width)
    ensures Concat(Flow(lines, profile, width, inputs)) == Stream(Concat(lines), profile, width, inputs)
    decreases |inputs|
  {
    if inputs != [] {
      var size := Span(profile, width, inputs[0].measured);
      var before := Concat(lines[..|lines| - 1]);
      ExtendConcat(before, Last(lines), inputs[0].rune);
      var next := FlowStep(lines, profile, width, inputs[0]);
      assert WithLast(lines, Last(next))[..|lines| - 1] == lines[..|lines| - 1];
      if size > 0 {
        assert (lines + [Glyph(inputs[0], size)])[..|lines|] == lines;
        assert before + (Last(lines) + Glyph(inputs[0], size)) == Concat(lines) + Glyph(inputs[0], size);
      }
      FlowStepLays(lines, profile, width, inputs[0]);
      FlowKeepsText(next, profile, width, inputs[1..]);
    }
  }

  /** On a new terminal, any printable text, with narrow, wide and combining runes, is shown as the
      last lines of the text broken greedily: no character is split or lost between lines, and a
      line is left short only before a wide character. */
  lemma PrintLayout(profile: Profile, width: nat, height: nat, inputs: seq<Input>)
    requires width > 0 && height > 0
    requires forall i | 0 <= i < |inputs| :: inputs[i].Print?
    ensures var lines := Flow([[]], profile, width, inputs);
            && Shows(Feed(Fresh(profile, width, height), inputs), profile, width, height, lines)
            && Laid(lines)
            && Greedy(lines, width)
            && Concat(lines) == Stream([], profile, width, inputs)
  {
    var start := Fresh(profile, width, height);
    assert Pad([], width) == BlankRow(DEFAULT_CELL, width);
    assert start.screens.main.grid == Window([[]], width, height);
    FlowShows(start, profile, width, height, [[]], inputs);
    assert Concat([[]]) == [];
    FlowKeepsText([[]], profile, width, inputs);
  }

  // ---------------------------------------------------------------- narrow text

  predicate Narrow(profile: Profile, width: nat, inputs: seq<Input>) {
    forall i | 0 <= i < |inputs| :: inputs[i].Print? && Span(profile, width, inputs[i].measured) == 1
  }

  lemma {:induction false} NarrowStream(row: Row, profile: Profile, width: nat, inputs: seq<Input>)
    requires Narrow(profile, width, inputs)
    ensures Stream(row, profile, width, inputs) ==
            row + seq(|inputs|, i requires 0 <= i < |inputs| => Lead(DEFAULT_CELL, [inputs[i].rune], 1))
    decreases |inputs|
  {
    if inputs != [] {
      NarrowStream(row + Glyph(inputs[0], 1), profile, width, inputs[1..]);
    }
  }

  lemma {:induction false} ConcatLength(lines: Lines, width: nat)
    requires forall i | 0 <= i < |lines| - 1 :: |lines[i]| == width
    ensures |Concat(lines)| == Offset(width, |lines| - 1) + |Last(lines)|
  {
    var n := |lines| - 1;
    if n > 0 {
      ConcatLength(lines[..n], width);
    } else {
      assert lines[..n] == [];
    }
  }

  /** The place in the text of the cell in column c of line i: i * width + c. */
  function TextIndex(width: nat, i: nat, c: nat): nat {
    Offset(width, i) + c
  }

  /** In lines that are full but for the last, cell c of line i is cell i * width + c of the text. */
  lemma {:induction false} ConcatAt(lines: Lines, width: nat, i: nat, c: nat)
    requires forall i | 0 <= i < |lines| - 1 :: |lines[i]| == width
    requires i < |lines| && c < |lines[i]|
    ensures TextIndex(width, i, c) < |Concat(lines)| && Concat(lines)[TextIndex(width, i, c)] == lines[i][c]
  {
    var n := |lines| - 1;
    RowsBefore(width, 0, i);
    if i < n {
      ConcatAt(lines[..n], width, i, c);
    } else if n > 0 {
      ConcatLength(lines[..n], width);
    } else {
      assert lines[..n] == [];
    }
  }

  lemma Quotient(x: nat, width: nat, q: nat)
    requires Offset(width, q) <= x < Offset(width, q) + width
    ensures x / width == q && x % width == x - Offset(width, q)
  {
    var k := x / width;
    OffsetIsProduct(width, k);
    assert x == k * width + x % width;
    if k < q { RowOrder(width, k, q); }
    if q < k { RowOrder(width, q, k); }
  }

  lemma {:induction false} ConcatMembers(lines: Lines, i: nat, c: nat)
    requires i < |lines| && c < |lines[i]|
    ensures lines[i][c] in Concat(lines)
  {
    var n := |lines| - 1;
    if i == n {
      assert Concat(lines)[|Concat(lines[..n])| + c] == lines[i][c];
    } else {
      ConcatMembers(lines[..n], i, c);
    }
  }

  lemma NarrowLinesFull(lines: Lines, width: nat, text: Row)
    requires Greedy(lines, width) && Concat(lines) == text
    requires forall c | c in text :: c.width == 1
    ensures forall i | 0 <= i < |lines| - 1 :: |lines[i]| == width
  {
    forall i | 0 <= i < |lines| - 1 ensures |lines[i]| == width {
      if |lines[i + 1]| > 0 {
        ConcatMembers(lines, i + 1, 0);
      }
    }
  }

  lemma NarrowCell(lines: Lines, width: nat, height: nat, text: Row, r: nat, c: nat)
    requires width > 0 && r < height && c < width && Short(lines, width) && Concat(lines) == text
    requires forall i | 0 <= i < |lines| - 1 :: |lines[i]| == width
    ensures var at := TextIndex(width, r + FirstLine(lines, height), c);
            Window(lines, width, height)[r][c] == if at < |text| then text[at] else DEFAULT_CELL
  {
    ConcatLength(lines, width);
    var i := r + FirstLine(lines, height);
    RowsBefore(width, 0, i);
    assert Window(lines, width, height)[r] == VisibleRow(lines, width, height, r);
    if i >= |lines| {
      RowOrder(width, |lines| - 1, i);
    } else if c < |lines[i]| {
      ConcatAt(lines, width, i, c);
    }
  }

  /** How many lines n narrow runes take, and how much of the last one. */
  lemma NarrowLines(lines: Lines, width: nat, n: nat)
    requires width > 0 && |Last(lines)| <= width && n == Offset(width, |lines| - 1) + |Last(lines)|
    requires Last(lines) == [] ==> |lines| == 1
    ensures |lines| - 1 == if n == 0 then 0 else (n - 1) / width
    ensures |Last(lines)| == width <==> n > 0 && n % width == 0
    ensures |Last(lines)| < width ==> |Last(lines)| == n % width
  {
    var q := |lines| - 1;
    RowsBefore(width, 0, q);
    if n > 0 {
      Quotient(n - 1, width, q);
      Quotient(n, width, if |Last(lines)| == width then q + 1 else q);
    }
  }

  /** Rune k of the text is in column k % width of line k / width, and line `offset` is on top. */
  predicate NarrowGrid(g: Grid, inputs: seq<Input>, width: nat, height: nat, offset: nat)
    requires forall i | 0 <= i < |inputs| :: inputs[i].Print?
  {
    Fits(g, width, height) &&
    forall r: nat, c: nat | r < height && c < width ::
      g[r][c] ==
        var at := TextIndex(width, r + offset, c);
        if at < |inputs| then Lead(DEFAULT_CELL, [inputs[at].rune], 1) else DEFAULT_CELL
  }

  lemma NarrowFlow(lines: Lines, profile: Profile, width: nat, height: nat, inputs: seq<Input>)
    requires width > 0 && height > 0 && Narrow(profile, width, inputs)
    requires Short(lines, width) && Laid(lines) && Greedy(lines, width)
    requires Concat(lines) == Stream([], profile, width, inputs)
    ensures var n := |inputs|;
            && NarrowGrid(Window(lines, width, height), inputs, width, height, FirstLine(lines, height))
            && |lines| - 1 == (if n == 0 then 0 else (n - 1) / width)
            && (|Last(lines)| == width <==> n > 0 && n % width == 0)
            && (|Last(lines)| < width ==> |Last(lines)| == n % width)
  {
    NarrowStream([], profile, width, inputs);
    NarrowLinesFull(lines, width, Concat(lines));
    ConcatLength(lines, width);
    NarrowLines(lines, width, |inputs|);
    forall r: nat, c: nat | r < height && c < width
      ensures Window(lines, width, height)[r][c] ==
              var at := TextIndex(width, r + FirstLine(lines, height), c);
              if at < |inputs| then Lead(DEFAULT_CELL, [inputs[at].rune], 1) else DEFAULT_CELL
    {
      NarrowCell(lines, width, height, Concat(lines), r, c);
    }
  }

  /** How narrow text is shown: rune k in row k / width and column k % width, scrolled so that the
      last line is in view; a full last line leaves the wrap pending. */
  predicate NarrowState(s: State, width: nat, height: nat, inputs: seq<Input>)
    requires width > 0 && forall i | 0 <= i < |inputs| :: inputs[i].Print?
  {
    var n := |inputs|;
    var q := if n == 0 then 0 else (n - 1) / width;
    var offset := Max(0, q - (height - 1));
    && NarrowGrid(s.screens.main.grid, inputs, width, height, offset)
    && s.screens.main.cursor.row == q - offset
    && (s.wrap.pending <==> n > 0 && n % width == 0)
    && s.screens.main.cursor.column == (if s.wrap.pending then width - 1 else n % width)
  }

  lemma NarrowShows(s: State, lines: Lines, profile: Profile, width: nat, height: nat, inputs: seq<Input>)
    requires width > 0 && height > 0 && Narrow(profile, width, inputs)
    requires Shows(s, profile, width, height, lines) && Laid(lines) && Greedy(lines, width)
    requires Concat(lines) == Stream([], profile, width, inputs)
    ensures NarrowState(s, width, height, inputs)
  {
    NarrowFlow(lines, profile, width, height, inputs);
  }

  /** On a new terminal, n narrow runes are shown by the closed formula above. */
  lemma NarrowLayout(profile: Profile, width: nat, height: nat, inputs: seq<Input>)
    requires width > 0 && height > 0 && Narrow(profile, width, inputs)
    ensures NarrowState(Feed(Fresh(profile, width, height), inputs), width, height, inputs)
  {
    PrintLayout(profile, width, height, inputs);
    NarrowShows(Feed(Fresh(profile, width, height), inputs), Flow([[]], profile, width, inputs),
                profile, width, height, inputs);
  }
}
