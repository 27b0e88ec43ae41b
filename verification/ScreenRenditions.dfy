/** What each rendition code sets, one code to a sequence; ScreenColors says how lists of codes are
    read. */
module ScreenRenditions {
  import opened Cells
  import opened ScreenModel
  import opened ScreenEdits

  function Rendition(value: nat): Input {
    Plain('m', [Parameter(value, true, false)])
  }

  /** The style becomes this, and nothing else changes. */
  function Styled(s: State, style: Cell): State {
    s.(pen := s.pen.(style := style))
  }

  lemma OneCode(s: State, p: Parameter)
    requires Geometry(s)
    ensures var value := if p.present then p.value else 0;
            value != 38 && value != 48 ==>
              Step(s, Plain('m', [p])) ==
              match ChangeOf(s.profile.xterm, value)
              case Some(change) => Styled(s, Restyled(s.pen.style, change))
              case None => Ignore(s, IgnoredRendition(value))
  {
    var next := RenditionAt(s, [p], 0).0;
    assert RenditionFrom(next, [p], 1) == next;
  }

  /** 30 to 37 and 40 to 47 set the colours 0 to 7 of text and ground; on XTerm, 90 to 97 and 100
      to 107 set the colours 8 to 15; 39 and 49 set the default ones. */
  lemma ColorCodes(s: State, k: nat)
    requires Geometry(s) && k <= 7
    ensures var style := s.pen.style;
            && Step(s, Rendition(30 + k)) == Styled(s, style.(foreground := k))
            && Step(s, Rendition(40 + k)) == Styled(s, style.(background := k))
            && (s.profile.xterm ==> Step(s, Rendition(90 + k)) == Styled(s, style.(foreground := k + 8)))
            && (s.profile.xterm ==> Step(s, Rendition(100 + k)) == Styled(s, style.(background := k + 8)))
            && Step(s, Rendition(39)) == Styled(s, style.(foreground := -1))
            && Step(s, Rendition(49)) == Styled(s, style.(background := -1))
  {
    forall value: nat {
      OneCode(s, Parameter(value, true, false));
    }
  }

  /** 1, 4, 5, 7 and 8 add exactly bold, underline, blink, reverse and conceal. */
  lemma AttributeCodes(s: State)
    requires Geometry(s)
    ensures var (style, have) := (s.pen.style, s.pen.style.attributes);
            && Step(s, Rendition(1)) == Styled(s, style.(attributes := have + {Bold}))
            && Step(s, Rendition(4)) == Styled(s, style.(attributes := have + {Underline}))
            && Step(s, Rendition(5)) == Styled(s, style.(attributes := have + {Blink}))
            && Step(s, Rendition(7)) == Styled(s, style.(attributes := have + {Reverse}))
            && Step(s, Rendition(8)) == Styled(s, style.(attributes := have + {Conceal}))
  {
    forall value: nat {
      OneCode(s, Parameter(value, true, false));
    }
  }

  /** 22, 24, 25, 27 and 28 take exactly those away again. */
  lemma AttributesOff(s: State)
    requires Geometry(s)
    ensures var (style, have) := (s.pen.style, s.pen.style.attributes);
            && Step(s, Rendition(22)) == Styled(s, style.(attributes := have - {Bold}))
            && Step(s, Rendition(24)) == Styled(s, style.(attributes := have - {Underline}))
            && Step(s, Rendition(25)) == Styled(s, style.(attributes := have - {Blink}))
            && Step(s, Rendition(27)) == Styled(s, style.(attributes := have - {Reverse}))
            && Step(s, Rendition(28)) == Styled(s, style.(attributes := have - {Conceal}))
  {
    forall value: nat {
      OneCode(s, Parameter(value, true, false));
    }
  }

  /** 0, a code left out and no code at all clear everything. */
  lemma ClearingCodes(s: State, p: Parameter)
    requires Geometry(s) && (p.present ==> p.value == 0)
    ensures var plain := Styled(s, Cell(" ", 1, -1, -1, {}));
            Step(s, Plain('m', [p])) == plain && Step(s, Plain('m', [])) == plain
  {
    OneCode(s, p);
    OneCode(s, Parameter(0, true, false));
    assert Step(s, Plain('m', [])) == Step(s, Plain('m', [Parameter(0, true, false)]));
  }

  predicate KnownCode(xterm: bool, value: nat) {
    || value == 0 || value == 1 || value == 4 || value == 5 || value == 7 || value == 8
    || value == 22 || value == 24 || value == 25 || value == 27 || value == 28
    || 30 <= value <= 37 || value == 39 || 40 <= value <= 47 || value == 49
    || (xterm && (90 <= value <= 97 || 100 <= value <= 107))
  }

  /** Any other code is reported, and changes nothing; a selector without a colour changes nothing on
      XTerm, and is reported elsewhere. */
  lemma OtherCodes(s: State, value: nat)
    requires Geometry(s) && !KnownCode(s.profile.xterm, value)
    ensures Step(s, Rendition(value)) ==
            if s.profile.xterm && (value == 38 || value == 48) then s
            else s.(log := s.log.(events := s.log.events + [Unsupported(IgnoredRendition(value))]))
  {
    var p := Parameter(value, true, false);
    if value == 38 || value == 48 {
      var next := RenditionAt(s, [p], 0).0;
      assert RenditionFrom(next, [p], 1) == next;
    } else {
      OneCode(s, p);
    }
  }
}
