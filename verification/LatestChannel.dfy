/** A channel with room for one value that its writer keeps up to date: when the value before is still
    there, the writer takes it out and puts the new one in, while a reader may take from the channel
    at any time. There is one writer.

    A writer that drains patiently waits for a value to take out; one that does not goes on if the
    reader has been faster. The observer of a session's screens does not wait, the reference server's
    window sizes do. */
module LatestChannel {
  import opened Options

  type Value = nat

  /** Where the writer is: between values, about to take the old value out, or about to put its own in. */
  datatype Writer = Idle | Draining(value: Value) | Sending(value: Value)

  /** `offered` lists the values the writer started on, `taken` those the reader got. */
  datatype State = State(patient: bool, slot: Option<Value>, writer: Writer, offered: seq<Value>, taken: seq<Value>)

  datatype Step = Offer(value: Value) | Drain | Send | Take

  predicate Enabled(s: State, step: Step) {
    match step
    case Offer(_) => s.writer.Idle?
    case Drain => s.writer.Draining? && (s.patient ==> s.slot.Some?)
    case Send => s.writer.Sending? && s.slot.None?
    case Take => s.slot.Some?
  }

  function Next(s: State, step: Step): State
    requires Enabled(s, step)
  {
    match step
    case Offer(value) =>
      var t := s.(offered := s.offered + [value]);
      if s.slot.None? then t.(slot := Some(value)) else t.(writer := Draining(value))
    case Drain => s.(slot := None, writer := Sending(s.writer.value))
    case Send => s.(slot := Some(s.writer.value), writer := Idle)
    case Take => s.(slot := None, taken := s.taken + [s.slot.value])
  }

  predicate IsRun(s: State, steps: seq<Step>)
    decreases |steps|
  {
    steps == [] || (Enabled(s, steps[0]) && IsRun(Next(s, steps[0]), steps[1..]))
  }

  function Run(s: State, steps: seq<Step>): State
    requires IsRun(s, steps)
    decreases |steps|
  {
    if steps == [] then s else Run(Next(s, steps[0]), steps[1..])
  }

  function Initial(patient: bool): State {
    State(patient, None, Idle, [], [])
  }

  // ---------------------------------------------------------------------- invariant

  /** Some of the values of `b`, in their order. */
  predicate IsSubsequence(a: seq<Value>, b: seq<Value>)
    decreases |b|
  {
    if a == [] then true
    else if b == [] then false
    else
      var (start, last) := (b[..|b| - 1], b[|b| - 1]);
      IsSubsequence(a, start) || (a[|a| - 1] == last && IsSubsequence(a[..|a| - 1], start))
  }

  /** What the reader has or can take now. */
  function Reached(s: State): seq<Value> {
    s.taken + (if s.slot.Some? then [s.slot.value] else [])
  }

  /** What the writer has started on, but for the value it has not put in yet. */
  function Settled(s: State): seq<Value> {
    if s.writer.Idle? || s.offered == [] then s.offered else s.offered[..|s.offered| - 1]
  }

  predicate Inv(s: State) {
    && IsSubsequence(Reached(s), Settled(s))
    && (!s.writer.Idle? ==> s.offered != [] && s.offered[|s.offered| - 1] == s.writer.value)
    && (s.writer.Sending? ==> s.slot.None?)
    && (s.writer.Idle? && s.offered != [] ==>
          Reached(s) != [] && Reached(s)[|Reached(s)| - 1] == s.offered[|s.offered| - 1])
  }

  lemma Longer(a: seq<Value>, b: seq<Value>, x: Value)
    requires IsSubsequence(a, b)
    ensures IsSubsequence(a, b + [x]) && IsSubsequence(a + [x], b + [x])
  {
    assert (b + [x])[..|b|] == b && (a + [x])[..|a|] == a;
  }

  lemma {:induction false} Shorter(a: seq<Value>, b: seq<Value>)
    requires a != [] && IsSubsequence(a, b)
    ensures IsSubsequence(a[..|a| - 1], b)
    decreases |b|
  {
    var start := b[..|b| - 1];
    if IsSubsequence(a, start) {
      Shorter(a, start);
    }
  }

  lemma OfferKeepsInv(s: State, value: Value)
    requires Inv(s) && Enabled(s, Offer(value))
    ensures Inv(Next(s, Offer(value)))
  {
    var t := Next(s, Offer(value));
    Longer(Reached(s), s.offered, value);
    if s.slot.None? {
      assert Reached(t) == Reached(s) + [value];
    } else {
      assert Reached(t) == Reached(s) && Settled(t) == s.offered;
    }
  }

  lemma DrainKeepsInv(s: State)
    requires Inv(s) && Enabled(s, Drain)
    ensures Inv(Next(s, Drain))
  {
    var t := Next(s, Drain);
    if s.slot.Some? {
      Shorter(Reached(s), Settled(s));
      assert Reached(t) == Reached(s)[..|Reached(s)| - 1];
    } else {
      assert Reached(t) == Reached(s);
    }
  }

  lemma SendKeepsInv(s: State)
    requires Inv(s) && Enabled(s, Send)
    ensures Inv(Next(s, Send))
  {
    var t := Next(s, Send);
    Longer(Reached(s), Settled(s), s.writer.value);
    assert Settled(s) + [s.writer.value] == s.offered == Settled(t);
    assert Reached(t) == Reached(s) + [s.writer.value];
  }

  lemma TakeKeepsInv(s: State)
    requires Inv(s) && Enabled(s, Take)
    ensures Inv(Next(s, Take))
  {
    assert Reached(Next(s, Take)) == Reached(s);
  }

  lemma StepKeepsInv(s: State, step: Step)
    requires Inv(s) && Enabled(s, step)
    ensures Inv(Next(s, step))
  {
    match step
    case Offer(value) => OfferKeepsInv(s, value);
    case Drain => DrainKeepsInv(s);
    case Send => SendKeepsInv(s);
    case Take => TakeKeepsInv(s);
  }

  lemma {:induction false} RunKeepsInv(s: State, steps: seq<Step>)
    requires Inv(s) && IsRun(s, steps)
    ensures Inv(Run(s, steps)) && Run(s, steps).patient == s.patient
    decreases |steps|
  {
    if steps != [] {
      StepKeepsInv(s, steps[0]);
      RunKeepsInv(Next(s, steps[0]), steps[1..]);
    }
  }

  // ------------------------------------------------------------------------ results

  /** In every interleaving the reader gets some of the values, in their order; and whenever the
      writer is between values, the newest one is in the channel or is what the reader took last. */
  lemma NewestReachesReader(patient: bool, steps: seq<Step>)
    requires IsRun(Initial(patient), steps)
    ensures var s := Run(Initial(patient), steps);
            && IsSubsequence(s.taken, s.offered)
            && (s.writer.Idle? && s.offered != [] ==>
                  var newest := s.offered[|s.offered| - 1];
                  if s.slot.Some? then s.slot.value == newest else s.taken != [] && s.taken[|s.taken| - 1] == newest)
  {
    RunKeepsInv(Initial(patient), steps);
    var s := Run(Initial(patient), steps);
    if s.slot.Some? {
      Shorter(Reached(s), Settled(s));
      assert Reached(s)[..|Reached(s)| - 1] == s.taken;
    } else {
      assert Reached(s) == s.taken;
    }
    if !s.writer.Idle? {
      Longer(s.taken, Settled(s), s.writer.value);
      assert Settled(s) + [s.writer.value] == s.offered;
    }
  }

  /** The writer has a value on its hands and can do nothing about it. */
  predicate Stuck(s: State) {
    !s.writer.Idle? && !Enabled(s, Drain) && !Enabled(s, Send)
  }

  /** In every interleaving the writer is stuck exactly when it waits to take the old value out and the
      reader was faster; and then nobody can ever do anything. */
  lemma StuckIff(patient: bool, steps: seq<Step>)
    requires IsRun(Initial(patient), steps)
    ensures var s := Run(Initial(patient), steps);
            && (Stuck(s) <==> patient && s.writer.Draining? && s.slot.None?)
            && (Stuck(s) ==> forall step :: !Enabled(s, step))
  {
    RunKeepsInv(Initial(patient), steps);
  }

  /** A patient writer gets stuck when its reader takes a value between its finding the channel full
      and its taking that value out. */
  lemma PatientWriterSticks(a: Value, b: Value)
    ensures var steps := [Offer(a), Offer(b), Take];
            IsRun(Initial(true), steps) && Stuck(Run(Initial(true), steps))
  {
    var first := Next(Initial(true), Offer(a));
    var second := Next(first, Offer(b));
    var third := Next(second, Take);
    assert [Offer(a), Offer(b), Take][1..] == [Offer(b), Take] && [Offer(b), Take][1..] == [Take] && [Take][1..] == [];
    assert IsRun(second, [Take]) && Run(second, [Take]) == third;
  }
}
