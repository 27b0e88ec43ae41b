/** What is reported of every event, and the title. */
module ScreenReports {
  import opened Cells
  import opened ScreenModel
  import opened ScreenSettings
  import ScreenColors

  /** Mode 4, and the private modes, of which XTerm has more. */
  predicate KnownMode(private: bool, xterm: bool, mode: nat) {
    if private then
      || mode == 1 || mode == 7 || mode == 12 || mode == 25
      || mode == 1000 || 1002 <= mode <= 1006 || mode == 1015 || mode == 2004
      || (xterm && (mode == 47 || mode == 1047 || mode == 1049))
    else mode == 4
  }

  function ModeReport(command: Command, p: Parameter, private: bool, xterm: bool): seq<TerminalEvent> {
    if p.present && !KnownMode(private, xterm, p.value) then [Unsupported(IgnoredCsi(command, [p]))] else []
  }

  /** Each mode that is not known is reported on its own. */
  function ModeReports(command: Command, parameters: seq<Parameter>, private: bool, xterm: bool): seq<TerminalEvent> {
    if parameters == [] then [] else ModeReport(command, parameters[0], private, xterm)
                                     + ModeReports(command, parameters[1..], private, xterm)
  }

  predicate KnownEscape(intermediate: char, final: char) {
    || ((intermediate == '(' || intermediate == ')') && (final == '0' || final == 'B'))
    || (intermediate == '\0'
        && (final == '7' || final == '8' || final == 'D' || final == 'E' || final == 'M' || final == 'c'
            || final == '=' || final == '>' || final == '\\'))
  }

  /** Those with neither prefix nor intermediate byte, besides modes and renditions. */
  predicate KnownControl(final: char) {
    || 'A' <= final <= 'D' || final == 'G' || final == 'H' || final == 'f' || final == 'J' || final == 'K'
    || final == 'L' || final == 'M' || final == 'P' || final == 'X' || final == '@' || final == 'r'
  }

  function CsiReports(xterm: bool, command: Command, parameters: seq<Parameter>): seq<TerminalEvent> {
    var mode := command.final == 'h' || command.final == 'l';
    if command.prefix == '?' && command.intermediate == '\0' && mode then
      ModeReports(command, parameters, true, xterm)
    else if command.prefix != '\0' || command.intermediate != '\0' then [Unsupported(IgnoredCsi(command, parameters))]
    else if mode then ModeReports(command, parameters, false, xterm)
    else if command.final == 'm' then ScreenColors.Events(xterm, parameters)
    else if KnownControl(command.final) then []
    else [Unsupported(IgnoredCsi(command, parameters))]
  }

  /** What an event makes the terminal report: ENQ and BEL, and whatever it does not know. */
  function Reports(profile: Profile, input: Input): seq<TerminalEvent> {
    match input
    case Print(_, _) => []
    case Execute(control) =>
      if control == 0x05 then [Enquiry(profile.answerback)]
      else if control == 0x07 then [Bell]
      else if control >= 0x80 then [Unsupported(IgnoredC1(control))]
      else []
    case Csi(command, parameters) => CsiReports(profile.xterm, command, parameters)
    case Escape(command) =>
      if KnownEscape(command.intermediate, command.final) then [] else [Unsupported(IgnoredEscape(command))]
    case Osc(id, _) =>
      if profile.xterm && 0 <= id <= 2 then []
      else if id < 0 then [Unsupported(IgnoredTextOsc)]
      else [Unsupported(IgnoredOsc(id))]
    case Dcs(command, parameters) => [Unsupported(IgnoredDcs(command, parameters))]
    case ControlString(kind) => [Unsupported(IgnoredString(kind))]
  }

  /** The title after an event; only XTerm has one. */
  function TitleAfter(profile: Profile, title: string, input: Input): string {
    if input.Osc? && profile.xterm && (input.id == 0 || input.id == 2) then input.text else title
  }

  /** From s to t exactly these events have been reported, and the title is this one. */
  predicate Logs(s: State, t: State, events: seq<TerminalEvent>, title: string) {
    t.profile == s.profile && t.log.events == s.log.events + events && t.log.title == title
  }

  lemma ScreenLogsNothing(s: State, t: State)
    requires OnlyScreen(s, t)
    ensures Logs(s, t, [], s.log.title)
  {
  }

  lemma LogsAdd(s: State, t: State, u: State, first: seq<TerminalEvent>, second: seq<TerminalEvent>, last: string)
    requires Logs(s, t, first, t.log.title) && Logs(t, u, second, last)
    ensures Logs(s, u, first + second, last)
  {
  }

  lemma ModeLogs(s: State, command: Command, p: Parameter)
    requires Geometry(s)
    ensures Logs(s, SetMode(s, command, p), ModeReport(command, p, false, s.profile.xterm), s.log.title)
    ensures Logs(s, SetPrivateMode(s, command, p), ModeReport(command, p, true, s.profile.xterm), s.log.title)
  {
  }

  lemma {:induction false} ModesLog(s: State, command: Command, parameters: seq<Parameter>)
    requires Geometry(s)
    ensures Logs(s, SetModes(s, command, parameters),
                 ModeReports(command, parameters, false, s.profile.xterm), s.log.title)
    decreases |parameters|
  {
    if parameters != [] {
      var next := SetMode(s, command, parameters[0]);
      ModeLogs(s, command, parameters[0]);
      ModesLog(next, command, parameters[1..]);
      LogsAdd(s, next, SetModes(next, command, parameters[1..]),
              ModeReport(command, parameters[0], false, s.profile.xterm),
              ModeReports(command, parameters[1..], false, s.profile.xterm), s.log.title);
    }
  }

  lemma {:induction false} PrivateModesLog(s: State, command: Command, parameters: seq<Parameter>)
    requires Geometry(s)
    ensures Logs(s, SetPrivateModes(s, command, parameters),
                 ModeReports(command, parameters, true, s.profile.xterm), s.log.title)
    decreases |parameters|
  {
    if parameters != [] {
      var next := SetPrivateMode(s, command, parameters[0]);
      ModeLogs(s, command, parameters[0]);
      PrivateModesLog(next, command, parameters[1..]);
      LogsAdd(s, next, SetPrivateModes(next, command, parameters[1..]),
              ModeReport(command, parameters[0], true, s.profile.xterm),
              ModeReports(command, parameters[1..], true, s.profile.xterm), s.log.title);
    }
  }

  lemma RenditionLogs(s: State, parameters: seq<Parameter>)
    requires Geometry(s)
    ensures Logs(s, SetRendition(s, parameters), ScreenColors.Events(s.profile.xterm, parameters), s.log.title)
  {
    if parameters == [] {
      assert RenditionFrom(WithStyle(s, DEFAULT_CELL), [Parameter(0, true, false)], 1) == WithStyle(s, DEFAULT_CELL);
    } else {
      ScreenColors.RenditionReads(s, parameters);
    }
  }

  lemma DispatchLogs(s: State, command: Command, parameters: seq<Parameter>)
    requires Geometry(s) && command.prefix == '\0' && command.intermediate == '\0'
    ensures Logs(s, DispatchCsi(s, command, parameters), CsiReports(s.profile.xterm, command, parameters), s.log.title)
  {
    var t := DispatchCsi(s, command, parameters);
    if command.final == 'h' || command.final == 'l' {
      ModesLog(s, command, parameters);
    } else if command.final == 'm' {
      RenditionLogs(s, parameters);
    } else if command.final == 'r' {
      RegionKeeps(s, parameters);
    } else if IsMovement(command.final) || IsEdit(command.final) {
      PlainOnlyScreen(s, command.final, parameters);
      ScreenLogsNothing(s, t);
    }
  }

  lemma ControlLogs(s: State, control: nat)
    requires Geometry(s)
    ensures Logs(s, ExecuteControl(s, control), Reports(s.profile, Execute(control)), s.log.title)
  {
    if 0x08 <= control <= 0x0D {
      ControlOnlyScreen(s, control);
      ScreenLogsNothing(s, ExecuteControl(s, control));
    }
  }

  lemma EscapeLogs(s: State, command: Command)
    requires Geometry(s)
    ensures Logs(s, HandleEscape(s, command), Reports(s.profile, Escape(command)), s.log.title)
  {
    if command.intermediate == '\0' && command.final != 'c' && KnownEscape('\0', command.final) {
      EscapeOnlyScreen(s, command);
      ScreenLogsNothing(s, SimpleEscape(s, command));
    }
  }

  /** Every event is reported if and only if it should be, and the title is the one set last. */
  lemma StepLogs(s: State, input: Input)
    requires Geometry(s)
    ensures Logs(s, Step(s, input), Reports(s.profile, input), TitleAfter(s.profile, s.log.title, input))
  {
    match input
    case Print(rune, measured) =>
      PrintOnlyScreen(s, rune, measured);
      ScreenLogsNothing(s, PrintRune(s, rune, measured));
    case Execute(control) => ControlLogs(s, control);
    case Csi(command, parameters) =>
      if command.prefix == '\0' && command.intermediate == '\0' {
        DispatchLogs(s, command, parameters);
      } else {
        PrivateModesLog(s, command, parameters);
      }
    case Escape(command) => EscapeLogs(s, command);
    case _ =>
  }

  function AllReports(profile: Profile, inputs: seq<Input>): seq<TerminalEvent>
    decreases |inputs|
  {
    if inputs == [] then [] else Reports(profile, inputs[0]) + AllReports(profile, inputs[1..])
  }

  function TitleAfterAll(profile: Profile, title: string, inputs: seq<Input>): string
    decreases |inputs|
  {
    if inputs == [] then title else TitleAfterAll(profile, TitleAfter(profile, title, inputs[0]), inputs[1..])
  }

  /** So it is over any events, in their order. */
  lemma {:induction false} FeedLogs(s: State, inputs: seq<Input>)
    requires Geometry(s)
    ensures Logs(s, Feed(s, inputs), AllReports(s.profile, inputs), TitleAfterAll(s.profile, s.log.title, inputs))
    decreases |inputs|
  {
    if inputs != [] {
      StepLogs(s, inputs[0]);
      var next := Step(s, inputs[0]);
      FeedLogs(next, inputs[1..]);
      LogsAdd(s, next, Feed(next, inputs[1..]), Reports(s.profile, inputs[0]), AllReports(s.profile, inputs[1..]),
              TitleAfterAll(s.profile, s.log.title, inputs));
    }
  }

  // ------------------------------------------------------------- what has no other effect

  /** Modes that are not known, and private ones about input that the library never sends. */
  predicate IdleMode(private: bool, xterm: bool, mode: nat) {
    || !KnownMode(private, xterm, mode)
    || (private && (mode == 12 || mode >= 1000) && mode != 1047 && mode != 1049)
  }

  predicate IdleModes(parameters: seq<Parameter>, private: bool, xterm: bool) {
    forall i | 0 <= i < |parameters| :: parameters[i].present ==> IdleMode(private, xterm, parameters[i].value)
  }

  predicate IdleCsi(xterm: bool, command: Command, parameters: seq<Parameter>) {
    var mode := command.final == 'h' || command.final == 'l';
    if command.prefix == '?' && command.intermediate == '\0' && mode then IdleModes(parameters, true, xterm)
    else if command.prefix != '\0' || command.intermediate != '\0' then true
    else if mode then IdleModes(parameters, false, xterm)
    else command.final != 'm' && !KnownControl(command.final)
  }

  /** Events that have no effect but for what is reported of them. */
  predicate Idle(xterm: bool, input: Input) {
    match input
    case Print(_, _) => false
    case Execute(control) => control < 0x08 || control > 0x0F
    case Csi(command, parameters) => IdleCsi(xterm, command, parameters)
    case Escape(Command(_, intermediate, final)) =>
      !KnownEscape(intermediate, final) || (intermediate == '\0' && (final == '=' || final == '>' || final == '\\'))
    case Osc(id, _) => !xterm || (id != 0 && id != 2)
    case Dcs(_, _) => true
    case ControlString(_) => true
  }

  function Reporting(s: State, events: seq<TerminalEvent>): State {
    s.(log := s.log.(events := s.log.events + events))
  }

  lemma ReportingAdds(s: State, first: seq<TerminalEvent>, second: seq<TerminalEvent>)
    ensures Reporting(Reporting(s, first), second) == Reporting(s, first + second)
    ensures Reporting(s, []) == s
  {
    assert s.log.events + first + second == s.log.events + (first + second);
  }

  lemma IdleModeReports(s: State, command: Command, p: Parameter, private: bool)
    requires Geometry(s) && (p.present ==> IdleMode(private, s.profile.xterm, p.value))
    ensures (if private then SetPrivateMode(s, command, p) else SetMode(s, command, p)) ==
            Reporting(s, ModeReport(command, p, private, s.profile.xterm))
  {
    ReportingAdds(s, [], []);
  }

  lemma {:induction false} IdleModesReport(s: State, command: Command, parameters: seq<Parameter>, private: bool)
    requires Geometry(s) && IdleModes(parameters, private, s.profile.xterm)
    ensures (if private then SetPrivateModes(s, command, parameters) else SetModes(s, command, parameters)) ==
            Reporting(s, ModeReports(command, parameters, private, s.profile.xterm))
    decreases |parameters|
  {
    ReportingAdds(s, [], []);
    if parameters != [] {
      var first := ModeReport(command, parameters[0], private, s.profile.xterm);
      IdleModeReports(s, command, parameters[0], private);
      IdleModesReport(Reporting(s, first), command, parameters[1..], private);
      ReportingAdds(s, first, ModeReports(command, parameters[1..], private, s.profile.xterm));
    }
  }

  lemma IdleCsiReports(s: State, command: Command, parameters: seq<Parameter>)
    requires Geometry(s) && IdleCsi(s.profile.xterm, command, parameters)
    ensures HandleCsi(s, command, parameters) == Reporting(s, CsiReports(s.profile.xterm, command, parameters))
  {
    if command.final == 'h' || command.final == 'l' {
      if command.prefix == '?' && command.intermediate == '\0' {
        IdleModesReport(s, command, parameters, true);
      } else if command.prefix == '\0' && command.intermediate == '\0' {
        IdleModesReport(s, command, parameters, false);
      }
    }
  }

  /** They have none: no cell, cursor, pending wrap, mode or revision changes. */
  lemma IdleReports(s: State, input: Input)
    requires Geometry(s) && Idle(s.profile.xterm, input)
    ensures Step(s, input) == s.(log := s.log.(events := s.log.events + Reports(s.profile, input)))
  {
    ReportingAdds(s, [], []);
    match input
    case Csi(command, parameters) => IdleCsiReports(s, command, parameters);
    case _ =>
  }

  /** OSC 0 and 2 set the title on XTerm, with a new revision if it is another one. */
  lemma TitleSets(s: State, id: int, text: string)
    requires Geometry(s) && s.profile.xterm && (id == 0 || id == 2)
    ensures Step(s, Osc(id, text)) ==
            if text == s.log.title then s
            else s.(log := Log(s.log.revision + 1, s.log.events, text))
  {
  }
}
