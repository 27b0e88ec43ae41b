/** What a flight recording says about a screen its taker has seen, under every interleaving of the
    read loop, resizes, and callers who look at the screen and then take a recording.

    The read loop writes to the terminal while it holds the recorder's lock, and a recording is taken
    under that lock. A resize changes the terminal first and is recorded afterwards. */
module RecordingOrder {
  import opened FlightRecorder

  /** The read loop: holding the recorder's lock before and after it writes to the terminal. */
  datatype Reader = Idle | Locked | Written(record: Record)

  /** A resize that the terminal has and the recorder has not; `at` is its place in `applied`. */
  datatype Resizer = Quiet | Unrecorded(record: Record, at: nat)

  /** `seen` is how many changes the terminal had had when the caller looked; `log` is everything
      recorded when it took its recording, and `resizer` where a resize was then. */
  datatype Caller = Saw(seen: nat) | Got(seen: nat, log: seq<Record>, resizer: Resizer)

  /** `applied` lists the changes the terminal has had, in order; `log` those recorded. */
  datatype State = State(
    applied: seq<Record>,
    log: seq<Record>,
    reader: Reader,
    resizer: Resizer,
    callers: map<nat, Caller>)

  const INITIAL := State([], [], Idle, Quiet, map[])

  datatype Step =
    | Lock
    | Write(offset: int, data: seq<Byte>, revision: nat)
    | Record
    | Resize(offset: int, width: int, height: int)
    | RecordResize
    | Look(id: nat)
    | TakeRecording(id: nat)

  predicate Enabled(s: State, step: Step) {
    match step
    case Lock => s.reader.Idle?
    case Write(_, _, _) => s.reader.Locked?
    case Record => s.reader.Written?
    case Resize(_, _, _) => s.resizer.Quiet?
    case RecordResize => s.resizer.Unrecorded? && s.reader.Idle?
    case Look(_) => true
    case TakeRecording(id) => id in s.callers && s.callers[id].Saw? && s.reader.Idle?
  }

  function Next(s: State, step: Step): State
    requires Enabled(s, step)
  {
    match step
    case Lock => s.(reader := Locked)
    case Write(offset, data, revision) =>
      var record := Output(offset, data, revision);
      s.(applied := s.applied + [record], reader := Written(record))
    case Record => s.(log := s.log + [s.reader.record], reader := Idle)
    case Resize(offset, width, height) =>
      var record := Resized(offset, width, height);
      s.(applied := s.applied + [record], resizer := Unrecorded(record, |s.applied|))
    case RecordResize => s.(log := s.log + [s.resizer.record], resizer := Quiet)
    case Look(id) => s.(callers := s.callers[id := Saw(|s.applied|)])
    case TakeRecording(id) => s.(callers := s.callers[id := Got(s.callers[id].seen, s.log, s.resizer)])
  }

  predicate IsRun(s: State, steps: seq<Step>)
    decreases |steps|
  {
    steps == [] || (Enabled(s, steps[0]) && IsRun(Next(s, steps[0]), steps[1..]))
  }

  function Run(s: State, steps: seq<Step>): State
    requires IsRun(s, steps)
    decreases |steps|
  {
    if steps == [] then s else Run(Next(s, steps[0]), steps[1..])
  }

  // ---------------------------------------------------------------------- invariant

  /** The output among some changes. */
  function Outputs(log: seq<Record>): seq<Record> {
    if log == [] then []
    else
      var last := log[|log| - 1];
      Outputs(log[..|log| - 1]) + if last.Output? then [last] else []
  }

  /** The resizes. */
  function Sizes(log: seq<Record>): seq<Record> {
    if log == [] then []
    else
      var last := log[|log| - 1];
      Sizes(log[..|log| - 1]) + if last.Resized? then [last] else []
  }

  function BeingWritten(r: Reader): seq<Record> {
    if r.Written? then [r.record] else []
  }

  function BeingResized(r: Resizer): seq<Record> {
    if r.Unrecorded? then [r.record] else []
  }

  predicate RecordedOk(s: State) {
    && Outputs(s.applied) == Outputs(s.log) + BeingWritten(s.reader)
    && Sizes(s.applied) == Sizes(s.log) + BeingResized(s.resizer)
    && (s.reader.Written? ==> s.reader.record.Output?)
    && (s.resizer.Unrecorded? ==>
          && s.resizer.record.Resized? && s.resizer.at < |s.applied|
          && Sizes(s.applied[..s.resizer.at]) == Sizes(s.log)
          && Sizes(s.applied[..s.resizer.at + 1]) == Sizes(s.applied))
  }

  /** A resize was under way that the caller had seen. */
  predicate SawUnrecorded(c: Caller)
    requires c.Got?
  {
    c.resizer.Unrecorded? && c.resizer.at < c.seen
  }

  predicate CallerOk(applied: seq<Record>, c: Caller) {
    && c.seen <= |applied|
    && (c.Got? ==>
          && Outputs(applied[..c.seen]) <= Outputs(c.log)
          && (Sizes(applied[..c.seen]) <= Sizes(c.log) <==> !SawUnrecorded(c)))
  }

  predicate Inv(s: State) {
    RecordedOk(s) && forall id | id in s.callers :: CallerOk(s.applied, s.callers[id])
  }

  // --------------------------------------------------------------------------- proof

  lemma AppendOne(log: seq<Record>, r: Record)
    ensures Outputs(log + [r]) == Outputs(log) + if r.Output? then [r] else []
    ensures Sizes(log + [r]) == Sizes(log) + if r.Resized? then [r] else []
  {
    assert (log + [r])[..|log|] == log;
  }

  lemma {:induction false} PartsOfPrefix(log: seq<Record>, k: nat)
    requires k <= |log|
    ensures Outputs(log[..k]) <= Outputs(log) && Sizes(log[..k]) <= Sizes(log)
    decreases |log|
  {
    if k < |log| {
      var start := log[..|log| - 1];
      PartsOfPrefix(start, k);
      assert start[..k] == log[..k];
    } else {
      assert log[..k] == log;
    }
  }

  lemma CallerGrows(applied: seq<Record>, r: Record, c: Caller)
    requires CallerOk(applied, c)
    ensures CallerOk(applied + [r], c)
  {
    assert (applied + [r])[..c.seen] == applied[..c.seen];
  }

  /** Taking a recording while the lock is free. */
  lemma TakenOk(s: State, seen: nat)
    requires RecordedOk(s) && s.reader.Idle? && seen <= |s.applied|
    ensures CallerOk(s.applied, Got(seen, s.log, s.resizer))
  {
    PartsOfPrefix(s.applied, seen);
    if s.resizer.Unrecorded? {
      var at := s.resizer.at;
      if seen <= at {
        PartsOfPrefix(s.applied[..at], seen);
        assert s.applied[..at][..seen] == s.applied[..seen];
      } else {
        PartsOfPrefix(s.applied[..seen], at + 1);
        assert s.applied[..seen][..at + 1] == s.applied[..at + 1];
      }
    }
  }

  lemma WrittenOk(s: State, r: Record)
    requires RecordedOk(s) && s.reader.Locked? && r.Output?
    ensures RecordedOk(s.(applied := s.applied + [r], reader := Written(r)))
  {
    AppendOne(s.applied, r);
    if s.resizer.Unrecorded? {
      assert (s.applied + [r])[..s.resizer.at] == s.applied[..s.resizer.at];
      assert (s.applied + [r])[..s.resizer.at + 1] == s.applied[..s.resizer.at + 1];
    }
  }

  lemma ResizedOk(s: State, r: Record)
    requires RecordedOk(s) && s.resizer.Quiet? && r.Resized?
    ensures RecordedOk(s.(applied := s.applied + [r], resizer := Unrecorded(r, |s.applied|)))
  {
    AppendOne(s.applied, r);
    assert (s.applied + [r])[..|s.applied|] == s.applied && (s.applied + [r])[..|s.applied| + 1] == s.applied + [r];
  }

  lemma StepKeepsRecorded(s: State, step: Step)
    requires RecordedOk(s) && Enabled(s, step)
    ensures RecordedOk(Next(s, step))
  {
    match step
    case Write(offset, data, revision) => WrittenOk(s, Output(offset, data, revision));
    case Record => AppendOne(s.log, s.reader.record);
    case Resize(offset, width, height) => ResizedOk(s, Resized(offset, width, height));
    case RecordResize => AppendOne(s.log, s.resizer.record);
    case _ =>
  }

  lemma StepKeepsInv(s: State, step: Step)
    requires Inv(s) && Enabled(s, step)
    ensures Inv(Next(s, step))
  {
    StepKeepsRecorded(s, step);
    var t := Next(s, step);
    forall id | id in t.callers ensures CallerOk(t.applied, t.callers[id]) {
      match step {
        case Write(offset, data, revision) => CallerGrows(s.applied, Output(offset, data, revision), s.callers[id]);
        case Resize(offset, width, height) => CallerGrows(s.applied, Resized(offset, width, height), s.callers[id]);
        case TakeRecording(taker) => if id == taker { TakenOk(s, s.callers[id].seen); }
        case _ =>
      }
    }
  }

  lemma {:induction false} RunKeepsInv(s: State, steps: seq<Step>)
    requires Inv(s) && IsRun(s, steps)
    ensures Inv(Run(s, steps))
    decreases |steps|
  {
    if steps != [] {
      StepKeepsInv(s, steps[0]);
      RunKeepsInv(Next(s, steps[0]), steps[1..]);
    }
  }

  // ------------------------------------------------------------------------ results

  /** In every interleaving, all output behind a screen that a caller has seen is recorded when it
      takes a recording afterwards; and so is every resize behind it, exactly if none was under way
      that the caller had seen and that was not yet recorded. */
  lemma SeenIsRecorded(steps: seq<Step>, id: nat)
    requires IsRun(INITIAL, steps) && id in Run(INITIAL, steps).callers && Run(INITIAL, steps).callers[id].Got?
    ensures var s := Run(INITIAL, steps);
            var c := s.callers[id];
            && c.seen <= |s.applied|
            && Outputs(s.applied[..c.seen]) <= Outputs(c.log)
            && (Sizes(s.applied[..c.seen]) <= Sizes(c.log) <==> !SawUnrecorded(c))
  {
    RunKeepsInv(INITIAL, steps);
    var s := Run(INITIAL, steps);
    assert CallerOk(s.applied, s.callers[id]);
  }

  /** Output does not change the dimensions. */
  lemma {:induction false} AfterSizes(log: seq<Record>, initial: Dimensions)
    ensures After(log, initial) == After(Sizes(log), initial)
    decreases |log|
  {
    if log != [] {
      var start := log[..|log| - 1];
      AfterSizes(start, initial);
      assert Sizes(start) + [] == Sizes(start);
      assert (Sizes(start) + [log[|log| - 1]])[..|Sizes(start)|] == Sizes(start);
    }
  }

  /** While no resize is under way, the dimensions a recording leads to are the terminal's. */
  lemma DimensionsAgree(steps: seq<Step>, initial: Dimensions)
    requires IsRun(INITIAL, steps) && Run(INITIAL, steps).resizer.Quiet?
    ensures var s := Run(INITIAL, steps);
            var r := RecordingOf(s.log, initial);
            After(r.records, r.dimensions) == After(s.applied, initial)
  {
    RunKeepsInv(INITIAL, steps);
    var s := Run(INITIAL, steps);
    RecordingIsFaithful(s.log, initial);
    AfterSizes(s.log, initial);
    AfterSizes(s.applied, initial);
    assert Sizes(s.applied) == Sizes(s.log);
  }

  lemma OneStep(s: State, step: Step)
    requires Enabled(s, step)
    ensures IsRun(s, [step]) && Run(s, [step]) == Next(s, step)
  {
    assert [step][1..] == [] && Run(Next(s, step), []) == Next(s, step);
  }

  lemma OneMore(s: State, step: Step, rest: seq<Step>)
    requires Enabled(s, step) && IsRun(Next(s, step), rest)
    ensures IsRun(s, [step] + rest) && Run(s, [step] + rest) == Run(Next(s, step), rest)
  {
    assert ([step] + rest)[1..] == rest;
  }

  /** A resize can be recorded behind output that the terminal got after it: the recording has both,
      in another order than the terminal. */
  lemma OrderCanDiffer(resize: Record, output: Record)
    requires resize.Resized? && output.Output?
    ensures var steps := [Resize(resize.offset, resize.width, resize.height), Lock,
                          Write(output.offset, output.data, output.revision), Record, RecordResize];
            && IsRun(INITIAL, steps)
            && Run(INITIAL, steps).applied == [resize, output] && Run(INITIAL, steps).log == [output, resize]
  {
    var (a, b, c) := (Resize(resize.offset, resize.width, resize.height), Lock,
                      Write(output.offset, output.data, output.revision));
    var one := Next(INITIAL, a);
    var two := Next(one, b);
    var three := Next(two, c);
    var four := Next(three, Record);
    var five := Next(four, RecordResize);
    OneStep(four, RecordResize);
    OneMore(three, Record, [RecordResize]);
    OneMore(two, c, [Record, RecordResize]);
    OneMore(one, b, [c, Record, RecordResize]);
    OneMore(INITIAL, a, [b, c, Record, RecordResize]);
    assert one.applied == [resize] && three.applied == [resize, output] && four.log == [output];
  }

  /** What a step changes on the terminal. */
  function ChangeOf(step: Step): seq<Record> {
    match step
    case Write(offset, data, revision) => [Output(offset, data, revision)]
    case Resize(offset, width, height) => [Resized(offset, width, height)]
    case _ => []
  }

  function ChangesOf(steps: seq<Step>): seq<Record> {
    if steps == [] then [] else ChangeOf(steps[0]) + ChangesOf(steps[1..])
  }

  lemma StepApplies(s: State, step: Step, later: seq<Record>)
    requires Enabled(s, step)
    ensures Next(s, step).applied + later == s.applied + (ChangeOf(step) + later)
  {
    assert Next(s, step).applied == s.applied + ChangeOf(step);
  }

  lemma {:induction false} ChangesApplied(s: State, steps: seq<Step>)
    requires IsRun(s, steps)
    ensures Run(s, steps).applied == s.applied + ChangesOf(steps)
    decreases |steps|
  {
    if steps == [] {
      assert s.applied + [] == s.applied;
    } else {
      ChangesApplied(Next(s, steps[0]), steps[1..]);
      StepApplies(s, steps[0], ChangesOf(steps[1..]));
    }
  }

  /** The terminal gets every output and every resize, in the order they come; and when nothing is
      under way, all the output and all the resizes have been recorded, each in their order. */
  lemma EverythingRecorded(steps: seq<Step>)
    requires IsRun(INITIAL, steps)
    ensures var s := Run(INITIAL, steps);
            && s.applied == ChangesOf(steps)
            && (!s.reader.Written? ==> Outputs(s.log) == Outputs(ChangesOf(steps)))
            && (s.resizer.Quiet? ==> Sizes(s.log) == Sizes(ChangesOf(steps)))
  {
    RunKeepsInv(INITIAL, steps);
    ChangesApplied(INITIAL, steps);
    assert INITIAL.applied + ChangesOf(steps) == ChangesOf(steps);
  }
}
