/** Renditions: how a list of them is read, where it may be split, what direct colours leave behind,
    and which codes commute. */
module ScreenColors {
  import opened Cells
  import opened ScreenModel

  type Codes = seq<Parameter>

  /** One separate parameter. */
  function Code(value: nat): Parameter {
    Parameter(value, true, false)
  }

  /** A code that is missing counts as 0. */
  function Value(p: Parameter): nat {
    if p.present then p.value else 0
  }

  // ---------------------------------------------------------------- reading a list

  /** 38 and 48, which XTerm extends with a colour. */
  predicate Selects(xterm: bool, p: Parameter) {
    xterm && p.present && (p.value == 38 || p.value == 48)
  }

  /** Does the list start with a direct colour, complete or not? */
  predicate IsDirect(xterm: bool, ps: Codes) {
    |ps| > 1 && Selects(xterm, ps[0]) && ps[1].value == 2
  }

  /** Does it start with an indexed colour? */
  predicate IsIndexed(xterm: bool, ps: Codes) {
    |ps| > 2 && Selects(xterm, ps[0]) && ps[1].value == 5 && ps[2].present
  }

  /** How many parameters the first rendition of a list takes. */
  function Span(xterm: bool, ps: Codes): (n: nat)
    requires ps != []
    ensures 1 <= n <= |ps|
  {
    if IsDirect(xterm, ps) then (if ps[0].more then GroupEnd(ps, 0) + 1 else Min(5, |ps|))
    else if IsIndexed(xterm, ps) then 3
    else 1
  }

  /** What it does to the style: a colour that is not an index changes nothing. */
  function Head(xterm: bool, style: Cell, ps: Codes): Cell
    requires ps != []
  {
    if IsIndexed(xterm, ps) then
      var color := ps[2].value;
      if color > 255 then style
      else if ps[0].value == 38 then style.(foreground := color) else style.(background := color)
    else if Selects(xterm, ps[0]) then style
    else
      match ChangeOf(xterm, Value(ps[0]))
      case Some(change) => Restyled(style, change)
      case None => style
  }

  /** What it reports as unsupported. */
  function HeadEvents(xterm: bool, ps: Codes): seq<TerminalEvent>
    requires ps != []
  {
    if IsDirect(xterm, ps) then [Unsupported(IgnoredTrueColor(ps[0].value))]
    else if Selects(xterm, ps[0]) then []
    else if ChangeOf(xterm, Value(ps[0])).Some? then []
    else [Unsupported(IgnoredRendition(Value(ps[0])))]
  }

  /** What follows the first rendition. */
  function Rest(xterm: bool, ps: Codes): (r: Codes)
    requires ps != []
    ensures |r| < |ps|
  {
    ps[Span(xterm, ps)..]
  }

  /** The style a list leads to. */
  function Styled(xterm: bool, style: Cell, ps: Codes): Cell
    decreases |ps|
  {
    if ps == [] then style else Styled(xterm, Head(xterm, style, ps), Rest(xterm, ps))
  }

  /** Everything it reports. */
  function Events(xterm: bool, ps: Codes): seq<TerminalEvent>
    decreases |ps|
  {
    if ps == [] then [] else HeadEvents(xterm, ps) + Events(xterm, Rest(xterm, ps))
  }

  function Rendered(s: State, ps: Codes): State {
    WithStyle(s, Styled(s.profile.xterm, s.pen.style, ps))
      .(log := s.log.(events := s.log.events + Events(s.profile.xterm, ps)))
  }

  lemma {:induction false} GroupEndOfSuffix(ps: Codes, i: nat, k: nat)
    requires i <= k < |ps|
    ensures GroupEnd(ps[i..], k - i) == GroupEnd(ps, k) - i
    decreases |ps| - k
  {
    if k < |ps| - 1 && ps[k].more {
      GroupEndOfSuffix(ps, i, k + 1);
    }
  }

  function HeadRendered(s: State, ps: Codes): State
    requires ps != []
  {
    WithStyle(s, Head(s.profile.xterm, s.pen.style, ps))
      .(log := s.log.(events := s.log.events + HeadEvents(s.profile.xterm, ps)))
  }

  /** The engine's step at `i`. */
  lemma StepReads(s: State, ps: Codes, i: nat)
    requires Geometry(s) && i < |ps|
    ensures RenditionAt(s, ps, i).1 + 1 == i + Span(s.profile.xterm, ps[i..])
    ensures RenditionAt(s, ps, i).0 == HeadRendered(s, ps[i..])
  {
    GroupEndOfSuffix(ps, i, i);
  }

  lemma RenderedTurn(s: State, ps: Codes)
    requires ps != []
    ensures Rendered(HeadRendered(s, ps), Rest(s.profile.xterm, ps)) == Rendered(s, ps)
  {
  }

  /** One turn of the engine's loop. */
  lemma TurnReads(s: State, ps: Codes, i: nat) returns (next: State, end: nat)
    requires Geometry(s) && i < |ps|
    ensures Geometry(next) && i < end <= |ps|
    ensures RenditionFrom(s, ps, i) == RenditionFrom(next, ps, end)
    ensures Rendered(s, ps[i..]) == Rendered(next, ps[end..])
  {
    StepReads(s, ps, i);
    var step := RenditionAt(s, ps, i);
    next, end := step.0, step.1 + 1;
    assert Rest(s.profile.xterm, ps[i..]) == ps[end..];
    RenderedTurn(s, ps[i..]);
  }

  /** The engine's loop reads the list from `i` on. */
  lemma {:induction false} LoopReads(s: State, ps: Codes, i: nat)
    requires Geometry(s) && i <= |ps|
    ensures RenditionFrom(s, ps, i) == Rendered(s, ps[i..])
    decreases |ps| - i
  {
    if i < |ps| {
      var next, end := TurnReads(s, ps, i);
      LoopReads(next, ps, end);
    }
  }

  /** The engine renders a list as it reads. */
  lemma RenditionReads(s: State, ps: Codes)
    requires Geometry(s) && ps != []
    ensures SetRendition(s, ps) == Rendered(s, ps)
  {
    LoopReads(s, ps, 0);
    assert ps[0..] == ps;
  }

  // ------------------------------------------------------------- splitting a list

  /** Would the first rendition of the list take parameters from beyond its end, if they were there? */
  predicate Hungry(xterm: bool, ps: Codes)
    requires ps != []
  {
    Selects(xterm, ps[0]) &&
    if |ps| == 1 then true
    else if ps[1].value == 2 then
      if ps[0].more then GroupEnd(ps, 0) == |ps| - 1 && ps[|ps| - 1].more else |ps| < 5
    else ps[1].value == 5 && |ps| == 2
  }

  /** No selector of the list reaches past its end. */
  predicate Settled(xterm: bool, ps: Codes)
    decreases |ps|
  {
    ps == [] || (!Hungry(xterm, ps) && Settled(xterm, Rest(xterm, ps)))
  }

  lemma {:induction false} GroupEndOfPrefix(p: Codes, q: Codes, i: nat)
    requires i < |p| && !(GroupEnd(p, i) == |p| - 1 && p[|p| - 1].more)
    ensures GroupEnd(p + q, i) == GroupEnd(p, i)
    decreases |p| - i
  {
    if i < |p| - 1 && p[i].more {
      GroupEndOfPrefix(p, q, i + 1);
    }
  }

  /** A rendition that is not hungry is read the same whatever follows. */
  lemma HeadOfPrefix(xterm: bool, style: Cell, p: Codes, q: Codes)
    requires p != [] && !Hungry(xterm, p)
    ensures Span(xterm, p + q) == Span(xterm, p) && Rest(xterm, p + q) == Rest(xterm, p) + q
    ensures Head(xterm, style, p + q) == Head(xterm, style, p) && HeadEvents(xterm, p + q) == HeadEvents(xterm, p)
  {
    if IsDirect(xterm, p) && p[0].more {
      GroupEndOfPrefix(p, q, 0);
    }
  }

  lemma {:induction false} ReadPrefix(xterm: bool, style: Cell, p: Codes, q: Codes)
    requires Settled(xterm, p)
    ensures Styled(xterm, style, p + q) == Styled(xterm, Styled(xterm, style, p), q)
    decreases |p|
  {
    if p == [] {
      assert p + q == q;
    } else {
      HeadOfPrefix(xterm, style, p, q);
      ReadPrefix(xterm, Head(xterm, style, p), Rest(xterm, p), q);
    }
  }

  lemma EventsAdd(a: seq<TerminalEvent>, b: seq<TerminalEvent>, c: seq<TerminalEvent>)
    ensures (a + b) + c == a + (b + c)
  {
  }

  lemma {:induction false} ReportPrefix(xterm: bool, p: Codes, q: Codes)
    requires Settled(xterm, p)
    ensures Events(xterm, p + q) == Events(xterm, p) + Events(xterm, q)
    decreases |p|
  {
    if p == [] {
      assert p + q == q;
    } else {
      HeadOfPrefix(xterm, DEFAULT_CELL, p, q);
      ReportPrefix(xterm, Rest(xterm, p), q);
      EventsAdd(HeadEvents(xterm, p), Events(xterm, Rest(xterm, p)), Events(xterm, q));
    }
  }

  lemma RenderedPrefix(s: State, p: Codes, q: Codes)
    requires Settled(s.profile.xterm, p)
    ensures Rendered(s, p + q) == Rendered(Rendered(s, p), q)
  {
    var (xterm, style, events) := (s.profile.xterm, s.pen.style, s.log.events);
    ReadPrefix(xterm, style, p, q);
    ReportPrefix(xterm, p, q);
    EventsAdd(events, Events(xterm, p), Events(xterm, q));
    assert Rendered(s, p).pen.style == Styled(xterm, style, p);
  }

  /** A list whose selectors reach no further can be split off. */
  lemma SettledSplits(s: State, p: Codes, q: Codes)
    requires Geometry(s) && Settled(s.profile.xterm, p) && p != [] && q != []
    ensures SetRendition(s, p + q) == SetRendition(SetRendition(s, p), q)
  {
    RenditionReads(s, p + q);
    RenditionReads(s, p);
    RenditionReads(Rendered(s, p), q);
    RenderedPrefix(s, p, q);
  }

  /** A continuation that a hungry rendition takes for its own. */
  function Bait(style: Cell, p: Codes): (q: Codes)
    requires p != []
    ensures q != []
  {
    var color := if p[0].value == 38 then style.foreground else style.background;
    var other := Code(if color == 7 then 1 else 7);
    if |p| == 1 then [Code(5), other]
    else if p[1].value == 2 then [Code(if Bold in style.attributes then 22 else 1)]
    else [other]
  }

  /** Reading a plain code. */
  lemma Plain(xterm: bool, style: Cell, code: Parameter, q: Codes)
    requires ChangeOf(xterm, Value(code)).Some?
    ensures Styled(xterm, style, [code] + q) == Styled(xterm, Restyled(style, ChangeOf(xterm, Value(code)).value), q)
  {
    var ps := [code] + q;
    assert !Selects(xterm, ps[0]);
    assert Span(xterm, ps) == 1 && ps[1..] == q;
  }

  lemma PlainAlone(xterm: bool, style: Cell, code: Parameter)
    requires ChangeOf(xterm, Value(code)).Some?
    ensures Styled(xterm, style, [code]) == Restyled(style, ChangeOf(xterm, Value(code)).value)
  {
    Plain(xterm, style, code, []);
    assert [code] + [] == [code];
  }

  /** A list that is all one direct colour leaves the style. */
  lemma AllDirect(xterm: bool, style: Cell, ps: Codes)
    requires IsDirect(xterm, ps) && Span(xterm, ps) == |ps|
    ensures Styled(xterm, style, ps) == style
  {
    assert Rest(xterm, ps) == [];
  }

  lemma IndexAlone(xterm: bool, style: Cell, ps: Codes)
    requires IsIndexed(xterm, ps) && |ps| == 3 && ps[2].value <= 255
    ensures Styled(xterm, style, ps) ==
            if ps[0].value == 38 then style.(foreground := ps[2].value) else style.(background := ps[2].value)
  {
    assert Rest(xterm, ps) == [];
  }

  /** A hungry direct colour takes one more parameter. */
  lemma {:induction false} GroupEndGrows(p: Codes, c: Parameter, i: nat)
    requires i < |p| && GroupEnd(p, i) == |p| - 1 && p[|p| - 1].more
    ensures GroupEnd(p + [c], i) == |p|
    decreases |p| - i
  {
    if i < |p| - 1 {
      GroupEndGrows(p, c, i + 1);
    }
  }

  lemma DirectTakesBait(xterm: bool, style: Cell, p: Codes)
    requires |p| > 1 && Hungry(xterm, p) && p[1].value == 2
    ensures Styled(xterm, style, p + Bait(style, p)) != Styled(xterm, Styled(xterm, style, p), Bait(style, p))
  {
    var code := if Bold in style.attributes then 22 else 1;
    if p[0].more {
      GroupEndGrows(p, Code(code), 0);
    }
    AllDirect(xterm, style, p);
    AllDirect(xterm, style, p + [Code(code)]);
    PlainAlone(xterm, style, Code(code));
  }

  lemma IndexTakesBait(xterm: bool, style: Cell, p: Codes)
    requires |p| == 2 && Hungry(xterm, p) && p[1].value == 5
    ensures Styled(xterm, style, p + Bait(style, p)) != Styled(xterm, Styled(xterm, style, p), Bait(style, p))
  {
    var q := Bait(style, p);
    IndexAlone(xterm, style, p + q);
    var between := Styled(xterm, style, p);
    assert Rest(xterm, p) == [p[1]];
    PlainAlone(xterm, style, p[1]);
    assert between == Restyled(style, On(Blink)) || between == DEFAULT_CELL;
    PlainAlone(xterm, between, q[0]);
  }

  lemma SelectorTakesBait(xterm: bool, style: Cell, p: Codes)
    requires |p| == 1 && Hungry(xterm, p)
    ensures Styled(xterm, style, p + Bait(style, p)) != Styled(xterm, Styled(xterm, style, p), Bait(style, p))
  {
    var q := Bait(style, p);
    IndexAlone(xterm, style, p + q);
    assert Rest(xterm, p) == [];
    Plain(xterm, style, Code(5), [q[1]]);
    assert q == [Code(5)] + [q[1]];
    PlainAlone(xterm, Restyled(style, On(Blink)), q[1]);
  }

  /** A list that is not settled has a continuation that shows it. */
  lemma {:induction false} UnsettledFails(xterm: bool, style: Cell, p: Codes) returns (q: Codes)
    requires !Settled(xterm, p)
    ensures q != [] && Styled(xterm, style, p + q) != Styled(xterm, Styled(xterm, style, p), q)
    decreases |p|
  {
    if Hungry(xterm, p) {
      q := Bait(style, p);
      if |p| == 1 {
        SelectorTakesBait(xterm, style, p);
      } else if p[1].value == 2 {
        DirectTakesBait(xterm, style, p);
      } else {
        IndexTakesBait(xterm, style, p);
      }
    } else {
      q := UnsettledFails(xterm, Head(xterm, style, p), Rest(xterm, p));
      HeadOfPrefix(xterm, style, p, q);
    }
  }

  /** A sequence of renditions does what its two parts do one after the other. */
  ghost predicate SplitsAt(s: State, p: Codes, q: Codes)
    requires Geometry(s)
  {
    SetRendition(s, p + q) == SetRendition(SetRendition(s, p), q)
  }

  /** A list can be sent as a sequence of its own before any other exactly when no selector in it
      reaches past its end. */
  lemma SplitIff(s: State, p: Codes)
    requires Geometry(s) && p != []
    ensures Settled(s.profile.xterm, p) <==> forall q: Codes | q != [] :: SplitsAt(s, p, q)
  {
    if Settled(s.profile.xterm, p) {
      forall q: Codes | q != [] ensures SplitsAt(s, p, q) {
        SettledSplits(s, p, q);
      }
    } else {
      var q := UnsettledFails(s.profile.xterm, s.pen.style, p);
      RenditionReads(s, p + q);
      RenditionReads(s, p);
      RenditionReads(SetRendition(s, p), q);
      assert !SplitsAt(s, p, q);
    }
  }

  /** An indexed colour in any place changes exactly the ground it names, and nothing for an index
      above 255. */
  lemma IndexedColor(xterm: bool, style: Cell, p: Codes, index: Codes, q: Codes)
    requires Settled(xterm, p) && IsIndexed(xterm, index) && |index| == 3
    ensures var before := Styled(xterm, style, p);
            var color := index[2].value;
            Styled(xterm, style, p + index + q) ==
            Styled(xterm,
                   if color > 255 then before
                   else if index[0].value == 38 then before.(foreground := color) else before.(background := color),
                   q)
  {
    assert p + index + q == p + (index + q);
    ReadPrefix(xterm, style, p, index + q);
    HeadOfPrefix(xterm, Styled(xterm, style, p), index, q);
    assert Rest(xterm, index) + q == q;
  }

  // ------------------------------------------------------------- direct colours

  /** The renditions of a list, one by one. */
  function Renditions(xterm: bool, ps: Codes): seq<Codes>
    decreases |ps|
  {
    if ps == [] then [] else [ps[..Span(xterm, ps)]] + Renditions(xterm, Rest(xterm, ps))
  }

  /** Those that are not direct colours. */
  function Kept(xterm: bool, renditions: seq<Codes>): seq<Codes> {
    if renditions == [] then []
    else (if IsDirect(xterm, renditions[0]) then [] else [renditions[0]]) + Kept(xterm, renditions[1..])
  }

  /** A list without its direct colours, in either spelling, wherever they stand, complete or not. */
  function Stripped(xterm: bool, ps: Codes): (r: Codes)
    ensures |r| <= |ps|
    decreases |ps|
  {
    if ps == [] then []
    else (if IsDirect(xterm, ps) then [] else ps[..Span(xterm, ps)]) + Stripped(xterm, Rest(xterm, ps))
  }

  /** Does the list go on as a colour does after its selector? */
  predicate Completes(ps: Codes) {
    || (ps != [] && ps[0].value == 2)
    || (|ps| > 1 && ps[0].value == 5 && ps[1].present)
  }

  /** Does a selector without a colour get one when the direct colours behind it go? */
  predicate Joins(xterm: bool, ps: Codes)
    decreases |ps|
  {
    ps != [] &&
    (Joins(xterm, Rest(xterm, ps)) ||
     (Selects(xterm, ps[0]) && Span(xterm, ps) == 1 && Completes(Stripped(xterm, Rest(xterm, ps)))))
  }

  /** What the first rendition becomes with another list behind it. */
  lemma HeadBefore(xterm: bool, style: Cell, ps: Codes, q: Codes)
    requires ps != [] && !IsDirect(xterm, ps)
    ensures var head := ps[..Span(xterm, ps)];
            Span(xterm, head + q) == |head| <==> !(Selects(xterm, ps[0]) && |head| == 1 && Completes(q))
    ensures var head := ps[..Span(xterm, ps)];
            Span(xterm, head + q) == |head| ==>
              && Head(xterm, style, head + q) == Head(xterm, style, ps)
              && Rest(xterm, head + q) == q && !IsDirect(xterm, head + q) && !IsDirect(xterm, head)
  {
  }

  lemma DirectHead(xterm: bool, ps: Codes)
    requires ps != []
    ensures IsDirect(xterm, ps[..Span(xterm, ps)]) == IsDirect(xterm, ps)
  {
    if IsDirect(xterm, ps) {
      assert Span(xterm, ps) >= 2;
    }
  }

  lemma RenditionsStep(xterm: bool, ps: Codes)
    requires ps != []
    ensures var rest := Kept(xterm, Renditions(xterm, Rest(xterm, ps)));
            Kept(xterm, Renditions(xterm, ps)) ==
            if IsDirect(xterm, ps) then rest else [ps[..Span(xterm, ps)]] + rest
  {
    DirectHead(xterm, ps);
    assert Renditions(xterm, ps)[1..] == Renditions(xterm, Rest(xterm, ps));
  }

  /** Without its direct colours a list is read as before but for them, exactly when no selector
      that has no colour gets one. */
  lemma {:induction false} StrippedReadsIff(xterm: bool, ps: Codes)
    ensures Renditions(xterm, Stripped(xterm, ps)) == Kept(xterm, Renditions(xterm, ps)) <==> !Joins(xterm, ps)
    decreases |ps|
  {
    if ps != [] {
      var (head, rest) := (ps[..Span(xterm, ps)], Stripped(xterm, Rest(xterm, ps)));
      StrippedReadsIff(xterm, Rest(xterm, ps));
      RenditionsStep(xterm, ps);
      if IsDirect(xterm, ps) {
        assert Stripped(xterm, ps) == rest;
      } else {
        HeadBefore(xterm, DEFAULT_CELL, ps, rest);
        var first := (head + rest)[..Span(xterm, head + rest)];
        assert Renditions(xterm, head + rest)[0] == first;
        assert Span(xterm, head + rest) == |head| <==> first == head;
        assert Renditions(xterm, head + rest)[1..] == Renditions(xterm, Rest(xterm, head + rest));
      }
    }
  }

  /** Then it also leads to the same style. */
  lemma {:induction false} StrippedStyled(xterm: bool, style: Cell, ps: Codes)
    requires !Joins(xterm, ps)
    ensures Styled(xterm, style, Stripped(xterm, ps)) == Styled(xterm, style, ps)
    decreases |ps|
  {
    if ps != [] {
      var rest := Stripped(xterm, Rest(xterm, ps));
      StrippedStyled(xterm, Head(xterm, style, ps), Rest(xterm, ps));
      if IsDirect(xterm, ps) {
        assert Stripped(xterm, ps) == rest;
      } else {
        HeadBefore(xterm, style, ps, rest);
        assert Stripped(xterm, ps) == ps[..Span(xterm, ps)] + rest;
      }
    }
  }

  /** Direct colours, in either spelling, in any place, complete or cut short by the end of the
      list, leave the style alone: it is what the rest of the list makes it, unless their going
      would give a colour to a selector that has none. */
  lemma DirectColorsPassedOver(s: State, ps: Codes)
    requires Geometry(s) && ps != [] && !Joins(s.profile.xterm, ps)
    ensures var rest := Stripped(s.profile.xterm, ps);
            SetRendition(s, ps).pen.style == if rest == [] then s.pen.style else SetRendition(s, rest).pen.style
  {
    var rest := Stripped(s.profile.xterm, ps);
    RenditionReads(s, ps);
    StrippedStyled(s.profile.xterm, s.pen.style, ps);
    if rest != [] {
      RenditionReads(s, rest);
    }
  }

  /** 38;48;2;1;1;1;5;7: a selector without a colour, a direct colour, blink and reverse. */
  const JOINING: Codes := [Code(38), Code(48), Code(2), Code(1), Code(1), Code(1), Code(5), Code(7)]

  lemma JoiningRests()
    ensures Rest(true, JOINING) == JOINING[1..] && Rest(true, JOINING[1..]) == JOINING[6..]
    ensures Rest(true, JOINING[6..]) == JOINING[7..] && Rest(true, JOINING[7..]) == []
  {
    assert JOINING[1..][5..] == JOINING[6..] && JOINING[6..][1..] == JOINING[7..] && JOINING[7..][1..] == [];
  }

  lemma JoiningStripped()
    ensures Stripped(true, JOINING) == [Code(38), Code(5), Code(7)]
  {
    JoiningRests();
    assert Stripped(true, JOINING[7..]) == [Code(7)];
    assert Stripped(true, JOINING[6..]) == [Code(5), Code(7)];
    assert Stripped(true, JOINING[1..]) == [Code(5), Code(7)];
  }

  lemma JoiningTail()
    ensures Styled(true, DEFAULT_CELL, JOINING[6..]) == DEFAULT_CELL.(attributes := {Blink, Reverse})
  {
    assert JOINING[6..] == [Code(5)] + [Code(7)];
    Plain(true, DEFAULT_CELL, Code(5), [Code(7)]);
    PlainAlone(true, Restyled(DEFAULT_CELL, On(Blink)), Code(7));
  }

  lemma JoiningStyled()
    ensures Styled(true, DEFAULT_CELL, JOINING) == DEFAULT_CELL.(attributes := {Blink, Reverse})
  {
    JoiningRests();
    JoiningTail();
    assert Head(true, DEFAULT_CELL, JOINING) == Head(true, DEFAULT_CELL, JOINING[1..]) == DEFAULT_CELL;
  }

  /** Without its direct colour that list sets a foreground in place of blink and reverse. */
  lemma JoinedColor()
    ensures Joins(true, JOINING)
    ensures Styled(true, DEFAULT_CELL, JOINING) == DEFAULT_CELL.(attributes := {Blink, Reverse})
    ensures Styled(true, DEFAULT_CELL, Stripped(true, JOINING)) == DEFAULT_CELL.(foreground := 7)
  {
    JoiningStripped();
    JoiningStyled();
    IndexAlone(true, DEFAULT_CELL, [Code(38), Code(5), Code(7)]);
    if !Joins(true, JOINING) {
      StrippedStyled(true, DEFAULT_CELL, JOINING);
    }
  }

  // ------------------------------------------------------------- order of codes

  /** What a change touches: one of the grounds, one attribute, or everything. */
  datatype Aspect = Foreground | Background | Single(attribute: Attribute) | Everything

  function Touches(change: Change): Aspect {
    match change
    case Clear => Everything
    case On(attribute) => Single(attribute)
    case Off(attribute) => Single(attribute)
    case Fore(_) => Foreground
    case Back(_) => Background
  }

  predicate Commute(style: Cell, c: Change, d: Change) {
    Restyled(Restyled(style, c), d) == Restyled(Restyled(style, d), c)
  }

  /** A style on which two changes show in which order they came. */
  function Witness(c: Change): Cell {
    match c
    case Fore(color) => Cell("", 1, color + 1, color + 1, {})
    case Back(color) => Cell("", 1, color + 1, color + 1, {})
    case _ => Cell("", 1, 0, 0, {Bold, Underline, Blink, Reverse, Conceal})
  }

  lemma ChangesCommuteIff(c: Change, d: Change)
    requires !c.Clear? && !d.Clear?
    ensures (forall style :: Commute(style, c, d)) <==> Touches(c) != Touches(d) || c == d
  {
    if !(Touches(c) != Touches(d) || c == d) {
      assert !Commute(Witness(c), c, d);
    } else {
      forall style ensures Commute(style, c, d) {
        assert Restyled(Restyled(style, c), d).attributes == Restyled(Restyled(style, d), c).attributes;
      }
    }
  }

  lemma TwoCodes(xterm: bool, style: Cell, a: nat, b: nat)
    requires ChangeOf(xterm, a).Some? && ChangeOf(xterm, b).Some?
    ensures Styled(xterm, style, [Code(a), Code(b)]) ==
            Restyled(Restyled(style, ChangeOf(xterm, a).value), ChangeOf(xterm, b).value)
  {
    assert [Code(a), Code(b)] == [Code(a)] + [Code(b)];
    Plain(xterm, style, Code(a), [Code(b)]);
    PlainAlone(xterm, Restyled(style, ChangeOf(xterm, a).value), Code(b));
  }

  predicate CodesCommute(xterm: bool, style: Cell, a: nat, b: nat) {
    Styled(xterm, style, [Code(a), Code(b)]) == Styled(xterm, style, [Code(b), Code(a)])
  }

  /** Two supported codes other than 0 may change places, whatever the style, exactly when they touch
      different aspects of it or ask for the same. */
  lemma CodesCommuteIff(xterm: bool, a: nat, b: nat)
    requires a != 0 && b != 0 && ChangeOf(xterm, a).Some? && ChangeOf(xterm, b).Some?
    ensures var (c, d) := (ChangeOf(xterm, a).value, ChangeOf(xterm, b).value);
            (forall style :: CodesCommute(xterm, style, a, b)) <==> Touches(c) != Touches(d) || c == d
  {
    var (c, d) := (ChangeOf(xterm, a).value, ChangeOf(xterm, b).value);
    ChangesCommuteIff(c, d);
    forall style ensures CodesCommute(xterm, style, a, b) <==> Commute(style, c, d) {
      TwoCodes(xterm, style, a, b);
      TwoCodes(xterm, style, b, a);
    }
    assert (forall style :: CodesCommute(xterm, style, a, b)) <==> (forall style :: Commute(style, c, d));
  }

  /** The code that turns an attribute off undoes the one that turns it on exactly on a style that was
      without it; a default ground undoes a colour exactly on a style that had the default. */
  lemma SecondUndoesFirstIff(xterm: bool, style: Cell, a: nat, b: nat)
    requires ChangeOf(xterm, a).Some? && ChangeOf(xterm, b).Some?
    ensures var (c, d) := (ChangeOf(xterm, a).value, ChangeOf(xterm, b).value);
            var undone := Styled(xterm, style, [Code(a), Code(b)]) == style;
            && (c.On? && d == Off(c.attribute) ==> (undone <==> c.attribute !in style.attributes))
            && (c.Fore? && d == Fore(DEFAULT_COLOR) ==> (undone <==> style.foreground == DEFAULT_COLOR))
            && (c.Back? && d == Back(DEFAULT_COLOR) ==> (undone <==> style.background == DEFAULT_COLOR))
  {
    TwoCodes(xterm, style, a, b);
    var c := ChangeOf(xterm, a).value;
    if c.On? {
      var without := style.attributes - {c.attribute};
      assert (style.attributes + {c.attribute}) - {c.attribute} == without;
      assert c.attribute !in style.attributes ==> without == style.attributes;
    }
  }
}
