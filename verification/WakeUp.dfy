/** Waiting for a screen under every interleaving of the read loop, resizes and any number of
    waiters. A waiter takes the current `changed` channel, looks at the screen, and sleeps on the
    channel; whoever changes the terminal afterwards closes the channel and puts a new one in its
    place. Channels are numbered in the order they are made. */
module WakeUp {

  type Screen = string

  /** The read loop between two of its atomic steps. */
  datatype Reader =
    | Reading
    | Announced                  // output counted and signalled, terminal not yet written
    | Applied                    // terminal written, change not yet signalled
    | Reporting                  // events and answerbacks
    | Stopping(changed: bool)    // leaving the loop, perhaps with an unsignalled change
    | Finished

  /** A resize changes the terminal and then signals; resizes exclude one another. */
  datatype Resizer = Idle | Changed

  datatype Verdict = Matched(screen: Screen) | Failed(screen: Screen)

  /** `epoch` is the channel taken. `since` counts the output signalled since the output counter was
      first read, and stops counting at its second reading. */
  datatype Progress =
    | Starting
    | Captured(epoch: nat, finished: bool, output: nat, since: nat)
    | Blocked(epoch: nat, screen: Screen)
    | Quiet(epoch: nat, screen: Screen, output: nat, since: nat)
    | Elapsed(output: nat, since: nat)
    | Rechecking(output: nat, current: nat, finished: bool, since: nat)
    | Returned(verdict: Verdict, since: nat)

  /** `stable` tells WaitForStable from WaitFor. */
  datatype Waiter = Waiter(stable: bool, matcher: Screen -> bool, progress: Progress)

  datatype Closing = ClosedChanged(epoch: nat) | ClosedDone

  /** `closings` lists every channel close, in order. */
  datatype State = State(
    terminal: Screen,
    epoch: nat,
    done: bool,
    output: nat,
    reader: Reader,
    resizer: Resizer,
    waiters: map<nat, Waiter>,
    closings: seq<Closing>)

  datatype Move =
    | Capture
    | Look
    | Wake
    | Expire
    | Timer
    | Recount
    | LookAgain

  datatype Step =
    | Receive                       // signalOutput
    | Apply(screen: Screen, ok: bool)
    | SignalRead
    | Continue
    | Stop
    | Finish
    | Resize(screen: Screen)
    | SignalResize
    | Enter(id: nat, stable: bool, matcher: Screen -> bool)
    | Wait(id: nat, move: Move)

  predicate IsOpen(s: State, epoch: nat) {
    epoch == s.epoch && !s.done
  }

  // --------------------------------------------------------------------------- steps

  predicate CanMove(s: State, p: Progress, stable: bool, move: Move) {
    match move
    case Capture => p.Starting?
    case Look => p.Captured?
    case Wake => (p.Blocked? || p.Quiet?) && !IsOpen(s, p.epoch)
    case Expire => p.Blocked? || p.Quiet?
    case Timer => p.Quiet?
    case Recount => p.Elapsed?
    case LookAgain => p.Rechecking?
  }

  predicate Enabled(s: State, step: Step) {
    match step
    case Receive => s.reader.Reading?
    case Apply(_, _) => s.reader.Announced?
    case SignalRead => s.reader.Applied?
    case Continue => s.reader.Reporting?
    case Stop => s.reader.Reading? || s.reader.Reporting?
    case Finish => s.reader.Stopping?
    case Resize(_) => s.resizer.Idle?
    case SignalResize => s.resizer.Changed?
    case Enter(id, _, _) => id !in s.waiters
    case Wait(id, move) => id in s.waiters && CanMove(s, s.waiters[id].progress, s.waiters[id].stable, move)
  }

  /** signalChange: closes the current channel and makes a new one, unless the session is done. */
  function Signal(s: State): State {
    if s.done then s else s.(closings := s.closings + [ClosedChanged(s.epoch)], epoch := s.epoch + 1)
  }

  function Counted(p: Progress): Progress {
    match p
    case Captured(epoch, finished, output, since) => Captured(epoch, finished, output, since + 1)
    case Quiet(epoch, screen, output, since) => Quiet(epoch, screen, output, since + 1)
    case Elapsed(output, since) => Elapsed(output, since + 1)
    case _ => p
  }

  /** signalOutput: also counts the output. */
  function SignalOutput(s: State): State {
    if s.done then s
    else
      Signal(s.(output := s.output + 1,
                waiters := map id | id in s.waiters :: s.waiters[id].(progress := Counted(s.waiters[id].progress))))
  }

  function LookAt(s: State, w: Waiter): Progress
    requires w.progress.Captured?
  {
    var p := w.progress;
    if w.stable then
      if p.finished then Returned(Failed(s.terminal), p.since)
      else if !w.matcher(s.terminal) then Blocked(p.epoch, s.terminal)
      else Quiet(p.epoch, s.terminal, p.output, p.since)
    else if w.matcher(s.terminal) then Returned(Matched(s.terminal), p.since)
    else if p.finished then Returned(Failed(s.terminal), p.since)
    else Blocked(p.epoch, s.terminal)
  }

  function Moved(s: State, w: Waiter, move: Move): Progress
    requires CanMove(s, w.progress, w.stable, move)
  {
    var p := w.progress;
    match move
    case Capture => Captured(s.epoch, s.done, s.output, 0)
    case Look => LookAt(s, w)
    case Wake => Starting
    case Expire => Returned(Failed(p.screen), 0)
    case Timer => Elapsed(p.output, p.since)
    case Recount => Rechecking(p.output, s.output, s.done, p.since)
    case LookAgain =>
      if !p.finished && p.current == p.output && w.matcher(s.terminal) then Returned(Matched(s.terminal), p.since)
      else if p.finished then Returned(Failed(s.terminal), p.since)
      else Starting
  }

  function Next(s: State, step: Step): State
    requires Enabled(s, step)
  {
    match step
    case Receive => SignalOutput(s).(reader := Announced)
    case Apply(screen, ok) => s.(terminal := screen, reader := if ok then Applied else Stopping(true))
    case SignalRead => Signal(s).(reader := Reporting)
    case Continue => s.(reader := Reading)
    case Stop => s.(reader := Stopping(false))
    case Finish =>
      s.(reader := Finished, done := true, closings := s.closings + [ClosedChanged(s.epoch), ClosedDone])
    case Resize(screen) => s.(terminal := screen, resizer := Changed)
    case SignalResize => Signal(s).(resizer := Idle)
    case Enter(id, stable, matcher) => s.(waiters := s.waiters[id := Waiter(stable, matcher, Starting)])
    case Wait(id, move) =>
      s.(waiters := s.waiters[id := s.waiters[id].(progress := Moved(s, s.waiters[id], move))])
  }

  predicate IsRun(s: State, steps: seq<Step>)
    decreases |steps|
  {
    steps == [] || (Enabled(s, steps[0]) && IsRun(Next(s, steps[0]), steps[1..]))
  }

  function Run(s: State, steps: seq<Step>): State
    requires IsRun(s, steps)
    decreases |steps|
  {
    if steps == [] then s else Run(Next(s, steps[0]), steps[1..])
  }

  function Initial(screen: Screen): State {
    State(screen, 0, false, 0, Reading, Idle, map[], [])
  }

  // ----------------------------------------------------------------------- invariant

  /** Someone has changed the terminal and will still close the current channel. */
  predicate SignalPending(s: State) {
    s.reader.Applied? || s.reader == Stopping(true) || s.resizer.Changed?
  }

  predicate WaiterOk(s: State, w: Waiter) {
    match w.progress
    case Starting => true
    case Captured(epoch, finished, output, since) =>
      && epoch <= s.epoch && (finished ==> s.done) && s.output == output + since
      && (IsOpen(s, epoch) ==> since == 0)
    case Blocked(epoch, screen) =>
      epoch <= s.epoch && !w.matcher(screen) && (IsOpen(s, epoch) ==> s.terminal == screen || SignalPending(s))
    case Quiet(epoch, screen, output, since) =>
      && epoch <= s.epoch && w.stable && w.matcher(screen) && s.output == output + since
      && (IsOpen(s, epoch) ==> since == 0 && (s.terminal == screen || SignalPending(s)))
    case Elapsed(output, since) => w.stable && s.output == output + since
    case Rechecking(output, current, finished, since) =>
      w.stable && current == output + since && (finished ==> s.done)
    case Returned(verdict, since) =>
      && (verdict.Matched? ==> w.matcher(verdict.screen) && (w.stable ==> since == 0))
      && (!w.stable ==> (verdict.Matched? <==> w.matcher(verdict.screen)))
  }

  /** Which channels have been closed: every one before the current, and the current one and `done`
      once the session is done. */
  predicate ClosingsOk(s: State) {
    && (s.done <==> s.reader.Finished?)
    && |s.closings| == s.epoch + (if s.done then 2 else 0)
    && (forall i | 0 <= i < s.epoch :: s.closings[i] == ClosedChanged(i))
    && (s.done ==> s.closings[s.epoch] == ClosedChanged(s.epoch) && s.closings[s.epoch + 1] == ClosedDone)
  }

  predicate Inv(s: State) {
    ClosingsOk(s) && forall id | id in s.waiters :: WaiterOk(s, s.waiters[id])
  }

  // --------------------------------------------------------------------------- proof

  /** A new channel leaves no waiter on the one that is open. */
  lemma SignalKeepsWaiter(s: State, w: Waiter, reader: Reader, resizer: Resizer)
    requires WaiterOk(s, w) && ClosingsOk(s)
    requires s.done || reader == s.reader || reader == Reporting
    ensures WaiterOk(Signal(s).(reader := reader, resizer := resizer), w)
  {
  }

  lemma OutputKeepsWaiter(s: State, w: Waiter)
    requires WaiterOk(s, w) && !s.done
    ensures WaiterOk(SignalOutput(s).(reader := Announced), w.(progress := Counted(w.progress)))
  {
  }

  lemma MoveKeepsWaiter(s: State, w: Waiter, move: Move)
    requires WaiterOk(s, w) && CanMove(s, w.progress, w.stable, move)
    ensures WaiterOk(s, w.(progress := Moved(s, w, move)))
  {
  }

  lemma StepKeepsWaiter(s: State, step: Step, w: Waiter)
    requires Inv(s) && Enabled(s, step) && WaiterOk(s, w) && !step.Wait? && !step.Receive?
    ensures WaiterOk(Next(s, step), w)
  {
    match step
    case SignalRead => SignalKeepsWaiter(s, w, Reporting, s.resizer);
    case SignalResize => SignalKeepsWaiter(s, w, s.reader, Idle);
    case _ =>
  }

  lemma StepKeepsClosings(s: State, step: Step)
    requires ClosingsOk(s) && Enabled(s, step)
    ensures ClosingsOk(Next(s, step))
  {
  }

  lemma SameWaiters(s: State, t: State, w: Waiter)
    requires WaiterOk(s, w) && t == s.(waiters := t.waiters)
    ensures WaiterOk(t, w)
  {
  }

  lemma StepKeepsInv(s: State, step: Step)
    requires Inv(s) && Enabled(s, step)
    ensures Inv(Next(s, step))
  {
    StepKeepsClosings(s, step);
    var t := Next(s, step);
    forall id | id in t.waiters ensures WaiterOk(t, t.waiters[id]) {
      match step {
        case Receive => OutputKeepsWaiter(s, s.waiters[id]);
        case Enter(entered, _, _) =>
          if id != entered { SameWaiters(s, t, s.waiters[id]); }
        case Wait(waiting, move) =>
          if id == waiting { MoveKeepsWaiter(s, s.waiters[id], move); }
          SameWaiters(s, t, t.waiters[id]);
        case _ => StepKeepsWaiter(s, step, s.waiters[id]);
      }
    }
  }

  lemma {:induction false} RunKeepsInv(s: State, steps: seq<Step>)
    requires Inv(s) && IsRun(s, steps)
    ensures Inv(Run(s, steps))
    decreases |steps|
  {
    if steps != [] {
      StepKeepsInv(s, steps[0]);
      RunKeepsInv(Next(s, steps[0]), steps[1..]);
    }
  }

  /** No lost wake-up: a waiter asleep on a channel that is still open either saw the screen as it
      is, or someone has yet to signal. Once nobody has, a waiter that sleeps for a match has none,
      and one that sleeps out its quiet period still has one and no output has come. */
  lemma NoLostWakeUp(screen: Screen, steps: seq<Step>, id: nat)
    requires IsRun(Initial(screen), steps)
    requires id in Run(Initial(screen), steps).waiters
    requires var s := Run(Initial(screen), steps);
             var p := s.waiters[id].progress;
             (p.Blocked? || p.Quiet?) && IsOpen(s, p.epoch)
    ensures var s := Run(Initial(screen), steps);
            var w := s.waiters[id];
            && (s.terminal == w.progress.screen || SignalPending(s))
            && (!SignalPending(s) ==> (w.matcher(s.terminal) <==> w.progress.Quiet?))
            && (w.progress.Quiet? ==> s.output == w.progress.output)
  {
    RunKeepsInv(Initial(screen), steps);
  }

  /** WaitFor succeeds with exactly the screens that match; a WaitForStable that succeeds does so
      too, and saw no output signalled between its two readings of the output counter. */
  lemma SuccessIsStable(screen: Screen, steps: seq<Step>, id: nat)
    requires IsRun(Initial(screen), steps)
    requires id in Run(Initial(screen), steps).waiters
    requires Run(Initial(screen), steps).waiters[id].progress.Returned?
    ensures var w := Run(Initial(screen), steps).waiters[id];
            && (w.progress.verdict.Matched? ==> w.matcher(w.progress.verdict.screen))
            && (w.progress.verdict.Matched? && w.stable ==> w.progress.since == 0)
            && (!w.stable && w.matcher(w.progress.verdict.screen) ==> w.progress.verdict.Matched?)
  {
    RunKeepsInv(Initial(screen), steps);
  }

  /** No channel is ever closed twice. */
  lemma ClosedOnce(screen: Screen, steps: seq<Step>)
    requires IsRun(Initial(screen), steps)
    ensures var closings := Run(Initial(screen), steps).closings;
            forall i, j | 0 <= i < j < |closings| :: closings[i] != closings[j]
  {
    RunKeepsInv(Initial(screen), steps);
  }

  // ------------------------------------------------------------------ waits that return

  /** None of the steps is one of waiter `id`. */
  predicate Others(steps: seq<Step>, id: nat) {
    forall i | 0 <= i < |steps| :: !(steps[i].Wait? && steps[i].id == id)
  }

  /** The same place in the code with the same values read, whatever output has come since. */
  predicate SamePlace(p: Progress, q: Progress) {
    match p
    case Captured(epoch, finished, output, _) =>
      q.Captured? && q.epoch == epoch && q.finished == finished && q.output == output
    case Quiet(epoch, screen, output, _) =>
      q.Quiet? && q.epoch == epoch && q.screen == screen && q.output == output
    case Elapsed(output, _) => q.Elapsed? && q.output == output
    case _ => p == q
  }

  /** A step of anyone else leaves a waiter where it is. */
  lemma OtherStepKeeps(s: State, step: Step, id: nat)
    requires Enabled(s, step) && id in s.waiters && !(step.Wait? && step.id == id)
    ensures id in Next(s, step).waiters
    ensures var (w, w') := (s.waiters[id], Next(s, step).waiters[id]);
            w' == w.(progress := w'.progress) && SamePlace(w.progress, w'.progress)
    ensures s.done ==> Next(s, step).done && Next(s, step).waiters[id] == s.waiters[id]
  {
  }

  lemma {:induction false} OthersKeep(s: State, steps: seq<Step>, id: nat)
    requires IsRun(s, steps) && id in s.waiters && Others(steps, id)
    ensures id in Run(s, steps).waiters
    ensures var (w, w') := (s.waiters[id], Run(s, steps).waiters[id]);
            w' == w.(progress := w'.progress) && SamePlace(w.progress, w'.progress)
    decreases |steps|
  {
    if steps != [] {
      OtherStepKeeps(s, steps[0], id);
      OthersKeep(Next(s, steps[0]), steps[1..], id);
    }
  }

  /** From s, waiter `id` makes a move, others run, and t is reached. */
  ghost predicate MovesThen(s: State, id: nat, move: Move, others: seq<Step>, t: State) {
    && Enabled(s, Wait(id, move)) && Others(others, id)
    && IsRun(Next(s, Wait(id, move)), others) && t == Run(Next(s, Wait(id, move)), others)
  }

  lemma AfterMove(s: State, id: nat, move: Move, others: seq<Step>, t: State)
    requires MovesThen(s, id, move, others, t)
    ensures id in t.waiters
    ensures var (w, w') := (s.waiters[id], t.waiters[id]);
            w' == w.(progress := w'.progress) && SamePlace(Moved(s, w, move), w'.progress)
  {
    OthersKeep(Next(s, Wait(id, move)), others, id);
  }

  /** WaitFor looks once it has the channel: it returns a screen that matches, even of a finished
      session, fails on another of a session that was finished before, and sleeps otherwise. */
  lemma WaitForLooks(s: State, id: nat, others: seq<Step>, t: State)
    requires MovesThen(s, id, Capture, others, t) && !s.waiters[id].stable
    ensures Enabled(t, Wait(id, Look))
    ensures var p := Next(t, Wait(id, Look)).waiters[id].progress;
            if s.waiters[id].matcher(t.terminal) then p.Returned? && p.verdict == Matched(t.terminal)
            else if s.done then p.Returned? && p.verdict == Failed(t.terminal)
            else p == Blocked(s.epoch, t.terminal)
  {
    AfterMove(s, id, Capture, others, t);
  }

  /** WaitForStable on a screen that matches, of a session that is not finished: the quiet period
      runs out at u, and it looks again at w. Whatever others do meanwhile, it succeeds exactly if at
      its second reading, at v, the session is not finished and the counter is as it was, and the
      screen it then looks at still matches. It fails if the session is finished, and otherwise it
      starts again. */
  lemma StableWaitIff(s: State, id: nat, a: seq<Step>, t: State, b: seq<Step>, u: State,
                      c: seq<Step>, v: State, d: seq<Step>, w: State)
    requires MovesThen(s, id, Capture, a, t) && s.waiters[id].stable && !s.done
    requires s.waiters[id].matcher(t.terminal)
    requires MovesThen(t, id, Look, b, u) && MovesThen(u, id, Timer, c, v) && MovesThen(v, id, Recount, d, w)
    ensures Enabled(w, Wait(id, LookAgain))
    ensures var p := Next(w, Wait(id, LookAgain)).waiters[id].progress;
            if v.done then p.Returned? && p.verdict == Failed(w.terminal)
            else if v.output == s.output && s.waiters[id].matcher(w.terminal) then
              p.Returned? && p.verdict == Matched(w.terminal)
            else p == Starting
  {
    AfterMove(s, id, Capture, a, t);
    AfterMove(t, id, Look, b, u);
    AfterMove(u, id, Timer, c, v);
    AfterMove(v, id, Recount, d, w);
  }

  /** The steps of one waiter alone. */
  function Alone(id: nat, moves: seq<Move>): (r: seq<Step>)
    ensures |r| == |moves|
  {
    seq(|moves|, i requires 0 <= i < |moves| => Wait(id, moves[i]))
  }

  lemma MoveAhead(s: State, id: nat, move: Move, moves: seq<Move>)
    requires Enabled(s, Wait(id, move)) && IsRun(Next(s, Wait(id, move)), Alone(id, moves))
    ensures IsRun(s, Alone(id, [move] + moves))
    ensures Run(s, Alone(id, [move] + moves)) == Run(Next(s, Wait(id, move)), Alone(id, moves))
  {
    assert Alone(id, [move] + moves)[1..] == Alone(id, moves);
  }

  function WithProgress(s: State, id: nat, p: Progress): State
    requires id in s.waiters
  {
    s.(waiters := s.waiters[id := s.waiters[id].(progress := p)])
  }

  /** The moves take waiter `id` from one place to the other, and change nothing else. */
  ghost predicate Leads(s: State, id: nat, from: Progress, moves: seq<Move>, to: Progress)
    requires id in s.waiters
  {
    && IsRun(WithProgress(s, id, from), Alone(id, moves))
    && Run(WithProgress(s, id, from), Alone(id, moves)) == WithProgress(s, id, to)
  }

  lemma NoMove(s: State, id: nat, p: Progress)
    requires id in s.waiters
    ensures Leads(s, id, p, [], p)
  {
  }

  lemma MoveThen(s: State, id: nat, from: Progress, move: Move, p: Progress, moves: seq<Move>, to: Progress)
    requires id in s.waiters && CanMove(s, from, s.waiters[id].stable, move)
    requires Moved(s, s.waiters[id].(progress := from), move) == p && Leads(s, id, p, moves, to)
    ensures Leads(s, id, from, [move] + moves, to)
  {
    assert WithProgress(s, id, from).waiters[id] == s.waiters[id].(progress := from);
    assert Next(WithProgress(s, id, from), Wait(id, move)).waiters == WithProgress(s, id, p).waiters;
    MoveAhead(WithProgress(s, id, from), id, move, moves);
  }

  /** On a screen that matches WaitFor returns it at its first look. */
  lemma WaitForReturns(s: State, id: nat)
    requires id in s.waiters && !s.waiters[id].stable && s.waiters[id].matcher(s.terminal)
    ensures Leads(s, id, Starting, [Capture, Look], Returned(Matched(s.terminal), 0))
  {
    var (captured, last) := (Captured(s.epoch, s.done, s.output, 0), Returned(Matched(s.terminal), 0));
    NoMove(s, id, last);
    MoveThen(s, id, captured, Look, last, [], last);
    assert [Look] + [] == [Look];
    MoveThen(s, id, Starting, Capture, captured, [Look], last);
    assert [Capture] + [Look] == [Capture, Look];
  }

  lemma QuietFirst(s: State, id: nat, moves: seq<Move>, last: Progress)
    requires id in s.waiters && s.waiters[id].stable && s.waiters[id].matcher(s.terminal) && !s.done
    requires Leads(s, id, Elapsed(s.output, 0), moves, last)
    ensures Leads(s, id, Starting, [Capture, Look, Timer] + moves, last)
  {
    var captured := Captured(s.epoch, false, s.output, 0);
    var quiet := Quiet(s.epoch, s.terminal, s.output, 0);
    MoveThen(s, id, quiet, Timer, Elapsed(s.output, 0), moves, last);
    MoveThen(s, id, captured, Look, quiet, [Timer] + moves, last);
    MoveThen(s, id, Starting, Capture, captured, [Look] + ([Timer] + moves), last);
    assert [Capture] + ([Look] + ([Timer] + moves)) == [Capture, Look, Timer] + moves;
  }

  /** On a screen that matches, of a session that is not finished, WaitForStable returns it when
      nothing happens. */
  lemma StableReturns(s: State, id: nat)
    requires id in s.waiters && s.waiters[id].stable && s.waiters[id].matcher(s.terminal) && !s.done
    ensures Leads(s, id, Starting, [Capture, Look, Timer, Recount, LookAgain], Returned(Matched(s.terminal), 0))
  {
    var (elapsed, last) := (Elapsed(s.output, 0), Returned(Matched(s.terminal), 0));
    var rechecking := Rechecking(s.output, s.output, false, 0);
    NoMove(s, id, last);
    MoveThen(s, id, rechecking, LookAgain, last, [], last);
    assert [LookAgain] + [] == [LookAgain];
    MoveThen(s, id, elapsed, Recount, rechecking, [LookAgain], last);
    assert [Recount] + [LookAgain] == [Recount, LookAgain];
    QuietFirst(s, id, [Recount, LookAgain], last);
    assert [Capture, Look, Timer] + [Recount, LookAgain] == [Capture, Look, Timer, Recount, LookAgain];
  }

  // ------------------------------------------------------------------ a finished session

  /** How many moves a waiter of a finished session has left, at most. */
  function MovesLeft(p: Progress): nat {
    match p
    case Starting => 2
    case Captured(_, finished, _, _) => if finished then 1 else 4
    case Blocked(_, _) => 3
    case Quiet(_, _, _, _) => 3
    case Elapsed(_, _) => 2
    case Rechecking(_, _, finished, _) => if finished then 1 else 3
    case Returned(_, _) => 0
  }

  function OwnMoves(steps: seq<Step>, id: nat): nat {
    if steps == [] then 0
    else (if steps[0].Wait? && steps[0].id == id then 1 else 0) + OwnMoves(steps[1..], id)
  }

  lemma FinishedStep(s: State, step: Step, id: nat)
    requires Enabled(s, step) && s.done && s.reader.Finished? && id in s.waiters
    ensures var t := Next(s, step);
            && id in t.waiters && t.done && t.reader.Finished?
            && (if step.Wait? && step.id == id
                then MovesLeft(t.waiters[id].progress) < MovesLeft(s.waiters[id].progress)
                else t.waiters[id] == s.waiters[id])
  {
  }

  lemma {:induction false} FinishedRun(s: State, steps: seq<Step>, id: nat)
    requires IsRun(s, steps) && s.done && s.reader.Finished? && id in s.waiters
    ensures id in Run(s, steps).waiters
    ensures OwnMoves(steps, id) + MovesLeft(Run(s, steps).waiters[id].progress) <= MovesLeft(s.waiters[id].progress)
    decreases |steps|
  {
    if steps != [] {
      FinishedStep(s, steps[0], id);
      FinishedRun(Next(s, steps[0]), steps[1..], id);
    }
  }

  lemma {:induction false} FinishedStays(s: State, steps: seq<Step>)
    requires IsRun(s, steps) && s.done
    ensures Run(s, steps).done
    decreases |steps|
  {
    if steps != [] {
      FinishedStays(Next(s, steps[0]), steps[1..]);
    }
  }

  /** Every wait on a finished session, wherever it stood when the session finished, is over after
      at most four moves of its own, and until then it is never left without one. */
  lemma FinishedReturns(screen: Screen, before: seq<Step>, steps: seq<Step>, id: nat)
    requires IsRun(Initial(screen), before) && Run(Initial(screen), before).done
    requires id in Run(Initial(screen), before).waiters && IsRun(Run(Initial(screen), before), steps)
    ensures var t := Run(Run(Initial(screen), before), steps);
            && OwnMoves(steps, id) <= 4 && id in t.waiters
            && (OwnMoves(steps, id) == 4 ==> t.waiters[id].progress.Returned?)
            && (t.waiters[id].progress.Returned? || exists move :: move != Expire && Enabled(t, Wait(id, move)))
  {
    var s := Run(Initial(screen), before);
    RunKeepsInv(Initial(screen), before);
    FinishedRun(s, steps, id);
    var t := Run(s, steps);
    FinishedStays(s, steps);
    var p := t.waiters[id].progress;
    var move := match p
      case Starting => Capture
      case Captured(_, _, _, _) => Look
      case Blocked(_, _) => Wake
      case Quiet(_, _, _, _) => Timer
      case Elapsed(_, _) => Recount
      case _ => LookAgain;
    assert p.Returned? || Enabled(t, Wait(id, move));
  }

  predicate Patient(steps: seq<Step>, id: nat) {
    forall i | 0 <= i < |steps| :: steps[i] != Wait(id, Expire)
  }

  predicate FailedFinished(s: State, id: nat) {
    id in s.waiters ==>
      match s.waiters[id].progress
      case Captured(_, finished, _, _) => finished ==> s.done
      case Rechecking(_, _, finished, _) => finished ==> s.done
      case Returned(verdict, _) => verdict.Failed? ==> s.done
      case _ => true
  }

  lemma StepKeepsFailed(s: State, step: Step, id: nat)
    requires FailedFinished(s, id) && Enabled(s, step) && step != Wait(id, Expire)
    ensures FailedFinished(Next(s, step), id)
  {
  }

  lemma {:induction false} RunKeepsFailed(s: State, steps: seq<Step>, id: nat)
    requires FailedFinished(s, id) && IsRun(s, steps) && Patient(steps, id)
    ensures FailedFinished(Run(s, steps), id)
    decreases |steps|
  {
    if steps != [] {
      StepKeepsFailed(s, steps[0], id);
      RunKeepsFailed(Next(s, steps[0]), steps[1..], id);
    }
  }

  /** A wait that nobody gives up on fails only when the session has finished. */
  lemma FailureMeansFinished(screen: Screen, steps: seq<Step>, id: nat)
    requires IsRun(Initial(screen), steps) && Patient(steps, id)
    requires id in Run(Initial(screen), steps).waiters
    requires var p := Run(Initial(screen), steps).waiters[id].progress; p.Returned? && p.verdict.Failed?
    ensures Run(Initial(screen), steps).done
  {
    RunKeepsFailed(Initial(screen), steps, id);
  }

  // ------------------------------------------------------------------ what there is to see

  /** The screen the terminal shows after some steps, by what the read loop and resizes do to it. */
  function ShownAfter(screen: Screen, steps: seq<Step>): Screen
    decreases |steps|
  {
    if steps == [] then screen
    else
      var next := match steps[0]
        case Apply(changed, _) => changed
        case Resize(changed) => changed
        case _ => screen;
      ShownAfter(next, steps[1..])
  }

  function OutputsAmong(steps: seq<Step>): nat {
    if steps == [] then 0 else (if steps[0].Receive? then 1 else 0) + OutputsAmong(steps[1..])
  }

  lemma {:induction false} SeenAfter(s: State, steps: seq<Step>)
    requires Inv(s) && IsRun(s, steps)
    ensures Run(s, steps).terminal == ShownAfter(s.terminal, steps)
    ensures Run(s, steps).output == s.output + OutputsAmong(steps)
    decreases |steps|
  {
    if steps != [] {
      StepKeepsInv(s, steps[0]);
      SeenAfter(Next(s, steps[0]), steps[1..]);
    }
  }

  /** The terminal shows what was last written or resized to, and the counter counts every output. */
  lemma TerminalFollows(screen: Screen, steps: seq<Step>)
    requires IsRun(Initial(screen), steps)
    ensures Run(Initial(screen), steps).terminal == ShownAfter(screen, steps)
    ensures Run(Initial(screen), steps).output == OutputsAmong(steps)
  {
    SeenAfter(Initial(screen), steps);
  }
}
