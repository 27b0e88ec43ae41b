/** Opening and closing of connections and sessions, under every interleaving of Connect,
    NewSession, Session.Close, Connection.Close, Server.Close and read loops ending. A connection is
    named by the transport opener it wraps and a session by its stream. An atomic step is what
    happens under one lock, or one call into the transport. */
module Lifecycle {

  type Opener = nat
  type Stream = nat

  datatype Loop = Unstarted | Running | StreamClosed | Finished | Removed

  datatype Phase = Open | Closing | OpenerClosed | Done | Forgotten

  /** `sessions` is the map of sessions not yet removed, and `todo` what is left of the copy of it
      that Close works through. */
  datatype Connection = Connection(phase: Phase, sessions: set<Stream>, todo: set<Stream>)

  /** A stream ever obtained: its connection, whether Close was called on it, whether it is still in
      the hands of the NewSession that obtained it, and the read loop of its session. */
  datatype Session = Session(opener: Opener, closed: bool, inHand: bool, loop: Loop)

  /** `inHand` holds the openers whose Connect has not returned, `closedOpeners` those on which
      Close was called, and `finished` every closing of a session's done channel. */
  datatype State = State(
    serverClosed: bool,
    serverDone: bool,
    registered: set<Opener>,
    serverTodo: set<Opener>,
    nextOpener: nat,
    inHand: set<Opener>,
    closedOpeners: set<Opener>,
    connections: map<Opener, Connection>,
    sessions: map<Stream, Session>,
    finished: seq<Stream>)

  const INITIAL := State(false, false, {}, {}, 0, {}, {}, map[], map[], [])

  datatype Step =
    // Server.Connect
    | ObtainOpener
    | AdmitOpener(o: Opener)
    | RejectOpener(o: Opener)
    // Connection.NewSession
    | ObtainStream(o: Opener, st: Stream)
    | AdmitStream(st: Stream)
    | RejectStream(st: Stream)
    | StartLoop(st: Stream)
    // the read loop
    | EndLoop(st: Stream)
    | FinishSession(st: Stream)
    | RemoveSession(st: Stream)
    // Session.Close
    | CloseSession(st: Stream)
    // Connection.Close
    | BeginClose(o: Opener)
    | SessionEnded(o: Opener, st: Stream)
    | CloseOpener(o: Opener)
    | EndClose(o: Opener)
    | Forget(o: Opener)
    // Server.Close
    | BeginServerClose
    | ConnectionEnded(o: Opener)
    | EndServerClose

  // --------------------------------------------------------------------------- steps

  predicate HasLoop(s: State, st: Stream, loop: Loop) {
    st in s.sessions && !s.sessions[st].inHand && s.sessions[st].loop == loop
  }

  predicate InPhase(s: State, o: Opener, phase: Phase) {
    o in s.connections && s.connections[o].phase == phase
  }

  predicate Ended(s: State, st: Stream) {
    st in s.sessions && (s.sessions[st].loop.Finished? || s.sessions[st].loop.Removed?)
  }

  predicate Enabled(s: State, step: Step) {
    match step
    case ObtainOpener => true
    case AdmitOpener(o) => o in s.inHand && !s.serverClosed
    case RejectOpener(o) => o in s.inHand && s.serverClosed
    case ObtainStream(o, st) => o in s.connections && st !in s.sessions
    case AdmitStream(st) => st in s.sessions && s.sessions[st].inHand && InPhase(s, s.sessions[st].opener, Open)
    case RejectStream(st) => st in s.sessions && s.sessions[st].inHand && !InPhase(s, s.sessions[st].opener, Open)
    case StartLoop(st) => HasLoop(s, st, Unstarted)
    case EndLoop(st) => HasLoop(s, st, Running)
    case FinishSession(st) => HasLoop(s, st, StreamClosed)
    case RemoveSession(st) => HasLoop(s, st, Finished) && s.sessions[st].opener in s.connections
    case CloseSession(st) => st in s.sessions && !s.sessions[st].inHand
    case BeginClose(o) => InPhase(s, o, Open)
    case SessionEnded(o, st) => InPhase(s, o, Closing) && st in s.connections[o].todo && Ended(s, st)
    case CloseOpener(o) => InPhase(s, o, Closing) && s.connections[o].todo == {}
    case EndClose(o) => InPhase(s, o, OpenerClosed)
    case Forget(o) => InPhase(s, o, Done)
    case BeginServerClose => !s.serverClosed
    case ConnectionEnded(o) => o in s.serverTodo && (InPhase(s, o, Done) || InPhase(s, o, Forgotten))
    case EndServerClose => s.serverClosed && !s.serverDone && s.serverTodo == {}
  }

  function SetSession(s: State, st: Stream, to: Session): State {
    s.(sessions := s.sessions[st := to])
  }

  function SetConnection(s: State, o: Opener, to: Connection): State {
    s.(connections := s.connections[o := to])
  }

  function SetPhase(s: State, o: Opener, phase: Phase): State
    requires o in s.connections
  {
    SetConnection(s, o, s.connections[o].(phase := phase))
  }

  function StreamNext(s: State, st: Stream, step: Step): Session
    requires st in s.sessions
  {
    var x := s.sessions[st];
    match step
    case AdmitStream(_) => x.(inHand := false)
    case RejectStream(_) => x.(inHand := false, closed := true, loop := Removed)
    case StartLoop(_) => x.(loop := Running)
    case EndLoop(_) => x.(loop := StreamClosed, closed := true)
    case FinishSession(_) => x.(loop := Finished)
    case RemoveSession(_) => x.(loop := Removed)
    case CloseSession(_) => x.(closed := true)
    case _ => x
  }

  function Next(s: State, step: Step): State
    requires Enabled(s, step)
  {
    match step
    case ObtainOpener => s.(nextOpener := s.nextOpener + 1, inHand := s.inHand + {s.nextOpener})
    case AdmitOpener(o) =>
      SetConnection(s, o, Connection(Open, {}, {})).(inHand := s.inHand - {o}, registered := s.registered + {o})
    case RejectOpener(o) => s.(inHand := s.inHand - {o}, closedOpeners := s.closedOpeners + {o})
    case ObtainStream(o, st) => SetSession(s, st, Session(o, false, true, Unstarted))
    case AdmitStream(st) =>
      var o := s.sessions[st].opener;
      SetConnection(SetSession(s, st, StreamNext(s, st, step)), o,
                    s.connections[o].(sessions := s.connections[o].sessions + {st}))
    case RejectStream(st) => SetSession(s, st, StreamNext(s, st, step))
    case StartLoop(st) => SetSession(s, st, StreamNext(s, st, step))
    case EndLoop(st) => SetSession(s, st, StreamNext(s, st, step))
    case FinishSession(st) => SetSession(s, st, StreamNext(s, st, step)).(finished := s.finished + [st])
    case RemoveSession(st) =>
      var o := s.sessions[st].opener;
      SetConnection(SetSession(s, st, StreamNext(s, st, step)), o,
                    s.connections[o].(sessions := s.connections[o].sessions - {st}))
    case CloseSession(st) => SetSession(s, st, StreamNext(s, st, step))
    case BeginClose(o) =>
      SetConnection(s, o, s.connections[o].(phase := Closing, todo := s.connections[o].sessions))
    case SessionEnded(o, st) => SetConnection(s, o, s.connections[o].(todo := s.connections[o].todo - {st}))
    case CloseOpener(o) => SetPhase(s, o, OpenerClosed).(closedOpeners := s.closedOpeners + {o})
    case EndClose(o) => SetPhase(s, o, Done)
    case Forget(o) => SetPhase(s, o, Forgotten).(registered := s.registered - {o})
    case BeginServerClose => s.(serverClosed := true, serverTodo := s.registered)
    case ConnectionEnded(o) => s.(serverTodo := s.serverTodo - {o})
    case EndServerClose => s.(serverDone := true)
  }

  predicate IsRun(s: State, steps: seq<Step>)
    decreases |steps|
  {
    steps == [] || (Enabled(s, steps[0]) && IsRun(Next(s, steps[0]), steps[1..]))
  }

  function Run(s: State, steps: seq<Step>): State
    requires IsRun(s, steps)
    decreases |steps|
  {
    if steps == [] then s else Run(Next(s, steps[0]), steps[1..])
  }

  // ---------------------------------------------------------------------- invariant

  predicate ClosedPhase(p: Phase) {
    p.Done? || p.Forgotten?
  }

  predicate ConnectionOk(s: State, o: Opener, c: Connection) {
    && (!c.phase.Forgotten? ==> o in s.registered)
    && (c.phase != Open && c.phase != Closing ==> o in s.closedOpeners && c.todo == {})
    && (s.serverClosed && !ClosedPhase(c.phase) ==> o in s.serverTodo)
  }

  /** Every opener obtained is in someone's hand, closed, or wrapped in a connection; a connection
      that is not done is registered, and on the list of a server that is closing. */
  predicate OpenersOk(s: State) {
    && (forall o | o in s.inHand :: o < s.nextOpener && o !in s.connections)
    && (forall o: nat | o < s.nextOpener :: o in s.inHand || o in s.closedOpeners || o in s.connections)
    && (forall o | o in s.connections :: o < s.nextOpener && ConnectionOk(s, o, s.connections[o]))
    && (s.serverDone ==> s.serverClosed && s.serverTodo == {})
  }

  /** Every stream obtained is in someone's hand, closed, or among its connection's sessions and, if
      the connection is closing, on its list; a read loop that has ended has closed its stream. */
  predicate SessionOk(s: State, st: Stream, x: Session) {
    && x.opener in s.connections
    && (x.loop != Unstarted && x.loop != Running ==> x.closed)
    && (x.inHand ==> x.loop == Unstarted)
    && (!x.inHand && !x.closed ==>
          && st in s.connections[x.opener].sessions
          && (s.connections[x.opener].phase != Open ==> st in s.connections[x.opener].todo))
  }

  predicate SessionsOk(s: State) {
    forall st | st in s.sessions :: SessionOk(s, st, s.sessions[st])
  }

  /** The done channels closed so far, each once. */
  predicate FinishedOk(s: State) {
    && (forall i | 0 <= i < |s.finished| :: Ended(s, s.finished[i]))
    && (forall i, j | 0 <= i < j < |s.finished| :: s.finished[i] != s.finished[j])
  }

  predicate Inv(s: State) {
    OpenersOk(s) && SessionsOk(s) && FinishedOk(s)
  }

  // --------------------------------------------------------------------------- proof

  lemma OpenersStep(s: State, step: Step)
    requires Inv(s) && Enabled(s, step)
    ensures OpenersOk(Next(s, step))
  {
    var t := Next(s, step);
    forall o | o in t.connections ensures o < t.nextOpener && ConnectionOk(t, o, t.connections[o]) {
      if o in s.connections {
        assert ConnectionOk(s, o, s.connections[o]);
      }
    }
  }

  /** Steps of sessions. */
  lemma StreamStep(s: State, step: Step, st: Stream)
    requires Inv(s) && Enabled(s, step) && st in Next(s, step).sessions
    requires step.AdmitStream? || step.RejectStream? || step.RemoveSession? || step.StartLoop? || step.EndLoop?
             || step.FinishSession? || step.CloseSession? || step.ObtainStream?
    ensures SessionOk(Next(s, step), st, Next(s, step).sessions[st])
  {
    if st in s.sessions {
      assert SessionOk(s, st, s.sessions[st]);
    }
  }

  /** Steps of connections and of the server, which leave every session as it is. */
  lemma ConnectionStep(s: State, step: Step, st: Stream)
    requires Inv(s) && Enabled(s, step) && Next(s, step).sessions == s.sessions && st in s.sessions
    ensures SessionOk(Next(s, step), st, s.sessions[st])
  {
    assert SessionOk(s, st, s.sessions[st]);
  }

  lemma SessionStep(s: State, step: Step, st: Stream)
    requires Inv(s) && Enabled(s, step) && st in Next(s, step).sessions
    ensures SessionOk(Next(s, step), st, Next(s, step).sessions[st])
  {
    if step.AdmitStream? || step.RejectStream? || step.RemoveSession? || step.StartLoop? || step.EndLoop?
       || step.FinishSession? || step.CloseSession? || step.ObtainStream?
    {
      StreamStep(s, step, st);
    } else {
      ConnectionStep(s, step, st);
    }
  }

  lemma FinishedStep(s: State, step: Step)
    requires Inv(s) && Enabled(s, step)
    ensures FinishedOk(Next(s, step))
  {
    var t := Next(s, step);
    forall i | 0 <= i < |t.finished| ensures Ended(t, t.finished[i]) {
      if i < |s.finished| { assert Ended(s, s.finished[i]); }
    }
  }

  lemma StepKeepsInv(s: State, step: Step)
    requires Inv(s) && Enabled(s, step)
    ensures Inv(Next(s, step))
  {
    OpenersStep(s, step);
    FinishedStep(s, step);
    forall st | st in Next(s, step).sessions ensures SessionOk(Next(s, step), st, Next(s, step).sessions[st]) {
      SessionStep(s, step, st);
    }
  }

  lemma {:induction false} RunKeepsInv(s: State, steps: seq<Step>)
    requires Inv(s) && IsRun(s, steps)
    ensures Inv(Run(s, steps))
    decreases |steps|
  {
    if steps != [] {
      StepKeepsInv(s, steps[0]);
      RunKeepsInv(Next(s, steps[0]), steps[1..]);
    }
  }

  /** Once Server.Close has returned and no Connect or NewSession is under way, every opener and
      every stream ever obtained has been closed. */
  lemma NothingOrphaned(steps: seq<Step>)
    requires IsRun(INITIAL, steps)
    requires Run(INITIAL, steps).serverDone && Run(INITIAL, steps).inHand == {}
    requires forall st | st in Run(INITIAL, steps).sessions :: !Run(INITIAL, steps).sessions[st].inHand
    ensures var s := Run(INITIAL, steps);
            && (forall o: nat | o < s.nextOpener :: o in s.closedOpeners)
            && (forall st | st in s.sessions :: s.sessions[st].closed)
  {
    RunKeepsInv(INITIAL, steps);
    var s := Run(INITIAL, steps);
    forall st | st in s.sessions ensures s.sessions[st].closed {
      assert SessionOk(s, st, s.sessions[st]);
      assert ConnectionOk(s, s.sessions[st].opener, s.connections[s.sessions[st].opener]);
    }
  }

  /** The same for one connection: once its Close is done, its opener is closed, and so is every
      stream ever obtained from it but those still in the hands of a NewSession, which will close
      them. */
  lemma ConnectionClosesItsSessions(steps: seq<Step>, o: Opener, st: Stream)
    requires IsRun(INITIAL, steps)
    requires InPhase(Run(INITIAL, steps), o, Done) || InPhase(Run(INITIAL, steps), o, Forgotten)
    requires st in Run(INITIAL, steps).sessions && Run(INITIAL, steps).sessions[st].opener == o
    ensures var s := Run(INITIAL, steps);
            && o in s.closedOpeners
            && (s.sessions[st].closed || (s.sessions[st].inHand && !Enabled(s, AdmitStream(st))))
  {
    RunKeepsInv(INITIAL, steps);
    var s := Run(INITIAL, steps);
    assert SessionOk(s, st, s.sessions[st]) && ConnectionOk(s, o, s.connections[o]);
  }

  /** No session's done channel is closed twice. */
  lemma DoneClosedOnce(steps: seq<Step>)
    requires IsRun(INITIAL, steps)
    ensures var finished := Run(INITIAL, steps).finished;
            forall i, j | 0 <= i < j < |finished| :: finished[i] != finished[j]
  {
    RunKeepsInv(INITIAL, steps);
  }

  // -------------------------------------------------------------------- what is registered

  /** A session is in its connection's map exactly from its admission to its removal, and what a
      closing connection has left to do is among its sessions. */
  predicate SessionListed(s: State, o: Opener, st: Stream) {
    && (o in s.connections ==>
          (st in s.connections[o].sessions <==>
             st in s.sessions && s.sessions[st].opener == o && !s.sessions[st].inHand
             && s.sessions[st].loop != Removed))
    && (o in s.connections && st in s.connections[o].todo ==>
          st in s.sessions && s.sessions[st].opener == o && !s.sessions[st].inHand)
  }

  /** A connection is registered exactly until it is forgotten. */
  predicate ConnectionListed(s: State, o: Opener) {
    && (o in s.registered <==> o in s.connections && s.connections[o].phase != Forgotten)
    && (o in s.serverTodo ==> o in s.connections)
  }

  ghost predicate Listed(s: State) {
    && (forall o: Opener, st: Stream :: SessionListed(s, o, st))
    && (forall o: Opener :: ConnectionListed(s, o))
  }

  /** Steps of sessions. */
  lemma StreamStaysListed(s: State, step: Step, o: Opener, st: Stream)
    requires Inv(s) && Listed(s) && Enabled(s, step)
    requires step.AdmitStream? || step.RejectStream? || step.RemoveSession? || step.StartLoop? || step.EndLoop?
             || step.FinishSession? || step.CloseSession? || step.ObtainStream?
    ensures SessionListed(Next(s, step), o, st)
  {
    assert SessionListed(s, o, st);
    if st in s.sessions {
      assert SessionOk(s, st, s.sessions[st]);
      assert SessionListed(s, s.sessions[st].opener, st);
    }
  }

  /** Steps of connections and of the server. */
  lemma SessionStaysListed(s: State, step: Step, o: Opener, st: Stream)
    requires Inv(s) && Listed(s) && Enabled(s, step) && Next(s, step).sessions == s.sessions
    ensures SessionListed(Next(s, step), o, st)
  {
    assert SessionListed(s, o, st);
    if st in s.sessions {
      assert SessionOk(s, st, s.sessions[st]);
    }
  }

  lemma ConnectionStaysListed(s: State, step: Step, o: Opener)
    requires Inv(s) && Listed(s) && Enabled(s, step)
    ensures ConnectionListed(Next(s, step), o)
  {
    assert ConnectionListed(s, o);
    if step.AdmitStream? || step.RemoveSession? {
      assert SessionOk(s, step.st, s.sessions[step.st]);
      assert ConnectionListed(s, s.sessions[step.st].opener);
    }
  }

  lemma StepKeepsListed(s: State, step: Step)
    requires Inv(s) && Listed(s) && Enabled(s, step)
    ensures Listed(Next(s, step))
  {
    forall o: Opener, st: Stream ensures SessionListed(Next(s, step), o, st) {
      if step.AdmitStream? || step.RejectStream? || step.RemoveSession? || step.StartLoop? || step.EndLoop?
         || step.FinishSession? || step.CloseSession? || step.ObtainStream?
      {
        StreamStaysListed(s, step, o, st);
      } else {
        SessionStaysListed(s, step, o, st);
      }
    }
    forall o: Opener {
      ConnectionStaysListed(s, step, o);
    }
  }

  lemma {:induction false} RunKeepsListed(s: State, steps: seq<Step>)
    requires Inv(s) && Listed(s) && IsRun(s, steps)
    ensures Listed(Run(s, steps))
    decreases |steps|
  {
    if steps != [] {
      StepKeepsInv(s, steps[0]);
      StepKeepsListed(s, steps[0]);
      RunKeepsListed(Next(s, steps[0]), steps[1..]);
    }
  }

  /** Over every run, a connection is registered from its admission until it is forgotten, and a
      session from its admission until its read loop removes it. */
  lemma RegisteredIff(steps: seq<Step>, o: Opener, st: Stream)
    requires IsRun(INITIAL, steps)
    ensures var s := Run(INITIAL, steps);
            && (o in s.registered <==> o in s.connections && s.connections[o].phase != Forgotten)
            && (o in s.connections ==>
                  (st in s.connections[o].sessions <==>
                     st in s.sessions && s.sessions[st].opener == o && !s.sessions[st].inHand
                     && s.sessions[st].loop != Removed))
  {
    RunKeepsListed(INITIAL, steps);
    var s := Run(INITIAL, steps);
    assert SessionListed(s, o, st) && ConnectionListed(s, o);
  }

  // ----------------------------------------------------------------- closed for a reason

  /** Is this a step that closes the stream, or the opener? */
  predicate ClosesStream(step: Step, st: Stream) {
    step == CloseSession(st) || step == RejectStream(st) || step == EndLoop(st)
  }

  predicate ClosesOpener(step: Step, o: Opener) {
    step == CloseOpener(o) || step == RejectOpener(o)
  }

  predicate IsClosed(s: State, st: Stream) {
    st in s.sessions && s.sessions[st].closed
  }

  lemma StepCloses(s: State, step: Step, st: Stream, o: Opener)
    requires Enabled(s, step)
    ensures IsClosed(Next(s, step), st) <==> IsClosed(s, st) || ClosesStream(step, st)
    ensures o in Next(s, step).closedOpeners <==> o in s.closedOpeners || ClosesOpener(step, o)
  {
  }

  /** A stream is closed exactly if its session was closed, it was refused or its read loop ended,
      and an opener exactly if it was refused or its connection closed it. */
  lemma {:induction false} ClosedIff(s: State, steps: seq<Step>, st: Stream, o: Opener)
    requires IsRun(s, steps)
    ensures IsClosed(Run(s, steps), st) <==>
            IsClosed(s, st) || exists i :: 0 <= i < |steps| && ClosesStream(steps[i], st)
    ensures o in Run(s, steps).closedOpeners <==>
            o in s.closedOpeners || exists i :: 0 <= i < |steps| && ClosesOpener(steps[i], o)
    decreases |steps|
  {
    if steps != [] {
      StepCloses(s, steps[0], st, o);
      ClosedIff(Next(s, steps[0]), steps[1..], st, o);
      assert forall i :: 0 <= i < |steps| - 1 ==> steps[1..][i] == steps[i + 1];
      if exists i :: 0 <= i < |steps| && ClosesStream(steps[i], st) {
        var i :| 0 <= i < |steps| && ClosesStream(steps[i], st);
        assert i > 0 ==> steps[1..][i - 1] == steps[i];
      }
      if exists i :: 0 <= i < |steps| && ClosesOpener(steps[i], o) {
        var i :| 0 <= i < |steps| && ClosesOpener(steps[i], o);
        assert i > 0 ==> steps[1..][i - 1] == steps[i];
      }
    }
  }

  // ------------------------------------------------------------- opening and closing succeed

  lemma Nothing(s: State)
    ensures IsRun(s, []) && Run(s, []) == s
  {
  }

  lemma {:induction false} OneMore(s: State, steps: seq<Step>, step: Step)
    requires IsRun(s, steps) && Enabled(Run(s, steps), step)
    ensures IsRun(s, steps + [step]) && Run(s, steps + [step]) == Next(Run(s, steps), step)
    decreases |steps|
  {
    if steps == [] {
      assert [] + [step] == [step] && [step][1..] == [];
      Nothing(Next(s, step));
    } else {
      OneMore(Next(s, steps[0]), steps[1..], step);
      assert (steps + [step])[1..] == steps[1..] + [step];
    }
  }

  /** As long as the server is not closed, Connect gives an open connection, which is registered. */
  lemma Connects(s: State)
    requires Inv(s) && !s.serverClosed
    ensures var (o, steps) := (s.nextOpener, [ObtainOpener, AdmitOpener(s.nextOpener)]);
            && IsRun(s, steps)
            && Run(s, steps) == s.(nextOpener := o + 1, registered := s.registered + {o},
                                   connections := s.connections[o := Connection(Open, {}, {})])
  {
    var (o, t) := (s.nextOpener, Next(s, ObtainOpener));
    Nothing(s);
    OneMore(s, [], ObtainOpener);
    assert [] + [ObtainOpener] == [ObtainOpener];
    OneMore(s, [ObtainOpener], AdmitOpener(o));
    assert [ObtainOpener] + [AdmitOpener(o)] == [ObtainOpener, AdmitOpener(o)];
    assert t.inHand - {o} == s.inHand;
  }

  /** As long as the connection is open, NewSession gives a session of its own, with an open stream
      and a read loop that runs. */
  lemma OpensSession(s: State, o: Opener, st: Stream)
    requires InPhase(s, o, Open) && st !in s.sessions
    ensures var steps := [ObtainStream(o, st), AdmitStream(st), StartLoop(st)];
            && IsRun(s, steps)
            && Run(s, steps) ==
               s.(sessions := s.sessions[st := Session(o, false, false, Running)],
                  connections := s.connections[o := s.connections[o].(sessions := s.connections[o].sessions + {st})])
  {
    var first := Next(s, ObtainStream(o, st));
    var second := Next(first, AdmitStream(st));
    Nothing(s);
    OneMore(s, [], ObtainStream(o, st));
    assert [] + [ObtainStream(o, st)] == [ObtainStream(o, st)];
    OneMore(s, [ObtainStream(o, st)], AdmitStream(st));
    assert [ObtainStream(o, st)] + [AdmitStream(st)] == [ObtainStream(o, st), AdmitStream(st)];
    OneMore(s, [ObtainStream(o, st), AdmitStream(st)], StartLoop(st));
    assert [ObtainStream(o, st), AdmitStream(st)] + [StartLoop(st)] ==
           [ObtainStream(o, st), AdmitStream(st), StartLoop(st)];
    assert second.sessions == s.sessions[st := Session(o, false, false, Unstarted)];
    assert Next(second, StartLoop(st)).sessions == s.sessions[st := Session(o, false, false, Running)];
  }

  lemma {:induction false} RunAppend(s: State, first: seq<Step>, second: seq<Step>)
    requires IsRun(s, first) && IsRun(Run(s, first), second)
    ensures IsRun(s, first + second) && Run(s, first + second) == Run(Run(s, first), second)
    decreases |first|
  {
    if first == [] {
      assert first + second == second;
    } else {
      RunAppend(Next(s, first[0]), first[1..], second);
      assert (first + second)[1..] == first[1..] + second;
    }
  }

  /** From s to t only session st and the done channels closed have changed. */
  predicate OnlySession(s: State, t: State, st: Stream) {
    && st in s.sessions && st in t.sessions
    && t == s.(sessions := s.sessions[st := t.sessions[st]], finished := t.finished)
  }

  /** The read loop of a session that has been admitted can run to its end. */
  lemma LoopEnds(s: State, st: Stream) returns (steps: seq<Step>)
    requires st in s.sessions && !s.sessions[st].inHand
    ensures IsRun(s, steps) && OnlySession(s, Run(s, steps), st) && Ended(Run(s, steps), st)
  {
    steps := [];
    Nothing(s);
    assert OnlySession(s, s, st);
    if s.sessions[st].loop.Unstarted? {
      OneMore(s, steps, StartLoop(st));
      steps := steps + [StartLoop(st)];
    }
    if Run(s, steps).sessions[st].loop.Running? {
      OneMore(s, steps, EndLoop(st));
      steps := steps + [EndLoop(st)];
    }
    if Run(s, steps).sessions[st].loop.StreamClosed? {
      OneMore(s, steps, FinishSession(st));
      steps := steps + [FinishSession(st)];
    }
  }

  /** From s to t only connection o, its sessions and what has been closed have changed. */
  predicate OnlyConnection(s: State, t: State, o: Opener) {
    && o in s.connections && o in t.connections
    && t == s.(sessions := t.sessions, finished := t.finished, closedOpeners := t.closedOpeners,
               connections := s.connections[o := t.connections[o]])
  }

  lemma SessionDone(s: State, o: Opener, st: Stream) returns (steps: seq<Step>)
    requires Listed(s) && InPhase(s, o, Closing) && st in s.connections[o].todo
    ensures IsRun(s, steps) && OnlyConnection(s, Run(s, steps), o)
    ensures Run(s, steps).connections[o] == s.connections[o].(todo := s.connections[o].todo - {st})
  {
    assert SessionListed(s, o, st);
    steps := LoopEnds(s, st);
    OneMore(s, steps, SessionEnded(o, st));
    steps := steps + [SessionEnded(o, st)];
  }

  lemma LastTwo(s: State, o: Opener) returns (steps: seq<Step>)
    requires InPhase(s, o, Closing) && s.connections[o].todo == {}
    ensures IsRun(s, steps) && OnlyConnection(s, Run(s, steps), o) && InPhase(Run(s, steps), o, Done)
  {
    Nothing(s);
    OneMore(s, [], CloseOpener(o));
    steps := [] + [CloseOpener(o)];
    OneMore(s, steps, EndClose(o));
    steps := steps + [EndClose(o)];
  }

  /** A Connection.Close that is under way can be completed, whatever its sessions are doing. */
  lemma {:induction false} CloseCompletes(s: State, o: Opener) returns (steps: seq<Step>)
    requires Inv(s) && Listed(s) && InPhase(s, o, Closing)
    ensures IsRun(s, steps) && OnlyConnection(s, Run(s, steps), o) && InPhase(Run(s, steps), o, Done)
    decreases |s.connections[o].todo|
  {
    var todo := s.connections[o].todo;
    if todo == {} {
      steps := LastTwo(s, o);
    } else {
      var st :| st in todo;
      var first := SessionDone(s, o, st);
      var t := Run(s, first);
      RunKeepsInv(s, first);
      RunKeepsListed(s, first);
      assert |todo - {st}| < |todo|;
      var rest := CloseCompletes(t, o);
      RunAppend(s, first, rest);
      steps := first + rest;
    }
  }

  /** A connection can be closed from every phase. */
  lemma ConnectionCloses(s: State, o: Opener) returns (steps: seq<Step>)
    requires Inv(s) && Listed(s) && o in s.connections
    ensures IsRun(s, steps) && OnlyConnection(s, Run(s, steps), o)
    ensures ClosedPhase(Run(s, steps).connections[o].phase)
  {
    steps := [];
    Nothing(s);
    match s.connections[o].phase {
      case Open =>
        OneMore(s, [], BeginClose(o));
        var first := [] + [BeginClose(o)];
        RunKeepsInv(s, first);
        RunKeepsListed(s, first);
        var rest := CloseCompletes(Run(s, first), o);
        RunAppend(s, first, rest);
        steps := first + rest;
      case Closing => steps := CloseCompletes(s, o);
      case OpenerClosed =>
        OneMore(s, [], EndClose(o));
        steps := [] + [EndClose(o)];
      case _ =>
    }
  }

  lemma {:induction false} ServerCloses(s: State) returns (steps: seq<Step>)
    requires Inv(s) && Listed(s) && s.serverClosed
    ensures IsRun(s, steps) && Run(s, steps).serverDone
    decreases |s.serverTodo|
  {
    if s.serverDone {
      steps := [];
    } else if s.serverTodo == {} {
      Nothing(s);
      OneMore(s, [], EndServerClose);
      steps := [] + [EndServerClose];
    } else {
      var o :| o in s.serverTodo;
      assert ConnectionListed(s, o);
      var first := ConnectionCloses(s, o);
      OneMore(s, first, ConnectionEnded(o));
      first := first + [ConnectionEnded(o)];
      RunKeepsInv(s, first);
      RunKeepsListed(s, first);
      assert |s.serverTodo - {o}| < |s.serverTodo|;
      var rest := ServerCloses(Run(s, first));
      RunAppend(s, first, rest);
      steps := first + rest;
    }
  }

  /** A Server.Close that has begun can be completed from wherever it stands, whatever connections
      and sessions are doing. */
  lemma ServerCloseCompletes(steps: seq<Step>) returns (more: seq<Step>)
    requires IsRun(INITIAL, steps) && Run(INITIAL, steps).serverClosed
    ensures IsRun(INITIAL, steps + more) && Run(INITIAL, steps + more).serverDone
  {
    RunKeepsInv(INITIAL, steps);
    RunKeepsListed(INITIAL, steps);
    more := ServerCloses(Run(INITIAL, steps));
    RunAppend(INITIAL, steps, more);
  }
}
