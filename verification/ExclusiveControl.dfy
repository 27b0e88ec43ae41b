/** Exclusive input control of a session, under every interleaving of client operations, of
    acquiring, using and releasing control, and of opening and closing sessions. Each session has a
    gate (a mutex), each control object a readers-writer lock; an atomic step is what happens under
    the registry's mutex, or taking or giving up one of those locks. Session numbers are never
    reused. */
module ExclusiveControl {
  import opened Options

  type Session = nat
  type Control = nat
  type Thread = nat

  /** Where a thread is in the code. */
  datatype Place =
    | ClientAtGate(session: Session)        // found the session
    | ClientChecking(session: Session)      // holds the gate
    | ClientOperating(session: Session)     // holds the gate
    | AcquireAtGate(session: Session)
    | AcquireChecking(session: Session)     // holds the gate
    | AcquireLeaving(session: Session)      // holds the gate
    | UseChecking(control: Control)         // holds the control's lock for reading
    | UseRunning(control: Control)          // holds the control's lock for reading
    | ReleaseAtLock(control: Control)
    | ReleaseAtGate(control: Control)       // holds the control's lock for writing
    | ReleaseChecking(control: Control)     // holds the lock for writing and the gate
    | ReleaseLeaving(control: Control)      // holds the lock for writing and the gate

  /** `controls` says which control object is registered for a session, `owners` which session a
      control object was made for. */
  datatype Registry = Registry(
    sessions: set<Session>,
    nextSession: nat,
    nextControl: nat,
    controls: map<Session, Control>,
    owners: map<Control, Session>)

  datatype Locks = Locks(gates: map<Session, Thread>, readers: set<(Control, Thread)>, writers: map<Control, Thread>)

  datatype State = State(
    registry: Registry,
    locks: Locks,
    released: set<Control>,
    threads: map<Thread, Place>,
    closed: bool)

  const INITIAL := State(Registry({}, 0, 0, map[], map[]), Locks(map[], {}, map[]), {}, map[], false)

  datatype Step =
    | OpenSession
    | CloseSessions(sessions: set<Session>)   // closeSession, or closeConnection for all of its sessions
    | CloseDriver
    | Operate(t: Thread, session: Session)    // a client sends, presses or resizes
    | Acquire(t: Thread, session: Session)
    | Use(t: Thread, control: Control)        // a controller sends, presses or waits
    | Release(t: Thread, control: Control)
    | Proceed(t: Thread)

  // --------------------------------------------------------------------------- steps

  predicate Registered(r: Registry, c: Control) {
    c in r.owners && r.owners[c] in r.controls && r.controls[r.owners[c]] == c
  }

  predicate Free(r: Registry, session: Session) {
    session in r.sessions && session !in r.controls
  }

  predicate NoReaders(l: Locks, c: Control) {
    forall r | r in l.readers :: r.0 != c
  }

  /** Does the lock the thread is waiting for, if any, let it in? */
  predicate CanProceed(s: State, place: Place) {
    match place
    case ClientAtGate(session) => session !in s.locks.gates
    case AcquireAtGate(session) => session !in s.locks.gates
    case ReleaseAtLock(c) => c in s.registry.owners && c !in s.locks.writers && NoReaders(s.locks, c)
    case ReleaseAtGate(c) => c in s.registry.owners && s.registry.owners[c] !in s.locks.gates
    case ReleaseLeaving(c) => c in s.registry.owners
    case _ => true
  }

  predicate Enabled(s: State, step: Step) {
    match step
    case OpenSession => true
    case CloseSessions(_) => true
    case CloseDriver => true
    case Operate(t, session) => t !in s.threads && session in s.registry.sessions
    case Acquire(t, session) => t !in s.threads && session in s.registry.sessions
    case Use(t, c) => t !in s.threads && c in s.registry.owners && c !in s.locks.writers
    case Release(t, c) => t !in s.threads && c in s.registry.owners && c !in s.released
    case Proceed(t) => t in s.threads && CanProceed(s, s.threads[t])
  }

  /** Where the thread goes from `place`. */
  function PlaceAfter(s: State, place: Place): Option<Place> {
    match place
    case ClientAtGate(session) => Some(ClientChecking(session))
    case ClientChecking(session) => if Free(s.registry, session) then Some(ClientOperating(session)) else None
    case ClientOperating(_) => None
    case AcquireAtGate(session) => Some(AcquireChecking(session))
    case AcquireChecking(session) => Some(AcquireLeaving(session))
    case AcquireLeaving(_) => None
    case UseChecking(c) => if Registered(s.registry, c) then Some(UseRunning(c)) else None
    case UseRunning(_) => None
    case ReleaseAtLock(c) => Some(ReleaseAtGate(c))
    case ReleaseAtGate(c) => Some(ReleaseChecking(c))
    case ReleaseChecking(c) => Some(ReleaseLeaving(c))
    case ReleaseLeaving(_) => None
  }

  /** The locks it takes or gives up on the way. */
  function LocksAfter(s: State, t: Thread, place: Place): Locks
    requires CanProceed(s, place)
  {
    var l := s.locks;
    match place
    case ClientAtGate(session) => l.(gates := l.gates[session := t])
    case ClientChecking(session) => if Free(s.registry, session) then l else l.(gates := l.gates - {session})
    case ClientOperating(session) => l.(gates := l.gates - {session})
    case AcquireAtGate(session) => l.(gates := l.gates[session := t])
    case AcquireChecking(_) => l
    case AcquireLeaving(session) => l.(gates := l.gates - {session})
    case UseChecking(c) => if Registered(s.registry, c) then l else l.(readers := l.readers - {(c, t)})
    case UseRunning(c) => l.(readers := l.readers - {(c, t)})
    case ReleaseAtLock(c) => l.(writers := l.writers[c := t])
    case ReleaseAtGate(c) => l.(gates := l.gates[s.registry.owners[c] := t])
    case ReleaseChecking(_) => l
    case ReleaseLeaving(c) => l.(gates := l.gates - {s.registry.owners[c]}, writers := l.writers - {c})
  }

  /** What it does to the registry. */
  function RegistryAfter(r: Registry, place: Place): Registry {
    match place
    case AcquireChecking(session) =>
      if Free(r, session) then
        r.(controls := r.controls[session := r.nextControl], owners := r.owners[r.nextControl := session],
           nextControl := r.nextControl + 1)
      else r
    case ReleaseChecking(c) => if Registered(r, c) then r.(controls := r.controls - {r.owners[c]}) else r
    case _ => r
  }

  function Starting(s: State, t: Thread, place: Place): State {
    s.(threads := s.threads[t := place])
  }

  function Proceeding(s: State, t: Thread, place: Place): State
    requires CanProceed(s, place)
  {
    var after := PlaceAfter(s, place);
    State(RegistryAfter(s.registry, place), LocksAfter(s, t, place), s.released,
          if after.Some? then s.threads[t := after.value] else s.threads - {t}, s.closed)
  }

  function Next(s: State, step: Step): State
    requires Enabled(s, step)
  {
    var r := s.registry;
    match step
    case OpenSession =>
      s.(registry := r.(sessions := r.sessions + {r.nextSession + 1}, nextSession := r.nextSession + 1))
    case CloseSessions(gone) => s.(registry := r.(sessions := r.sessions - gone, controls := r.controls - gone))
    case CloseDriver => s.(registry := r.(controls := map[]), closed := true)
    case Operate(t, session) => Starting(s, t, ClientAtGate(session))
    case Acquire(t, session) => Starting(s, t, AcquireAtGate(session))
    case Use(t, c) => Starting(s.(locks := s.locks.(readers := s.locks.readers + {(c, t)})), t, UseChecking(c))
    case Release(t, c) => Starting(s.(released := s.released + {c}), t, ReleaseAtLock(c))
    case Proceed(t) => Proceeding(s, t, s.threads[t])
  }

  predicate IsRun(s: State, steps: seq<Step>)
    decreases |steps|
  {
    steps == [] || (Enabled(s, steps[0]) && IsRun(Next(s, steps[0]), steps[1..]))
  }

  function Run(s: State, steps: seq<Step>): State
    requires IsRun(s, steps)
    decreases |steps|
  {
    if steps == [] then s else Run(Next(s, steps[0]), steps[1..])
  }

  // ---------------------------------------------------------------------- invariant

  /** Control objects are numbered, and registered only for a registered session of theirs. */
  predicate RegistryOk(r: Registry) {
    && (forall c | c in r.owners :: c < r.nextControl && r.owners[c] <= r.nextSession)
    && (forall x | x in r.sessions :: x <= r.nextSession)
    && (forall x | x in r.controls :: x in r.sessions && r.controls[x] in r.owners && r.owners[r.controls[x]] == x)
  }

  predicate Writing(place: Place) {
    place.ReleaseAtGate? || place.ReleaseChecking? || place.ReleaseLeaving?
  }

  predicate Reading(place: Place) {
    place.UseChecking? || place.UseRunning?
  }

  predicate AboutControl(place: Place) {
    Reading(place) || Writing(place) || place.ReleaseAtLock?
  }

  /** The gate a thread holds. */
  function GateHeld(r: Registry, place: Place): Option<Session> {
    match place
    case ClientChecking(session) => Some(session)
    case ClientOperating(session) => Some(session)
    case AcquireChecking(session) => Some(session)
    case AcquireLeaving(session) => Some(session)
    case ReleaseChecking(c) => if c in r.owners then Some(r.owners[c]) else None
    case ReleaseLeaving(c) => if c in r.owners then Some(r.owners[c]) else None
    case _ => None
  }

  /** A thread holds the locks its place in the code says it holds. */
  predicate Holds(r: Registry, l: Locks, t: Thread, place: Place) {
    var gate := GateHeld(r, place);
    && (AboutControl(place) ==> place.control in r.owners)
    && (gate.Some? ==> gate.value in l.gates && l.gates[gate.value] == t)
    && (Reading(place) ==> (place.control, t) in l.readers)
    && (Writing(place) ==> place.control in l.writers && l.writers[place.control] == t)
  }

  predicate WritersAlone(l: Locks) {
    forall c | c in l.writers :: NoReaders(l, c)
  }

  predicate LocksOk(s: State) {
    && (forall t | t in s.threads :: Holds(s.registry, s.locks, t, s.threads[t]))
    && WritersAlone(s.locks)
  }

  /** A client operates only on a session without a control; a control that is in use is the
      registered one as long as its session is. */
  predicate PlaceOk(r: Registry, place: Place) {
    && (place.ClientOperating? ==> place.session !in r.controls)
    && (place.UseRunning? && place.control in r.owners && r.owners[place.control] in r.sessions ==>
          Registered(r, place.control))
  }

  /** Two threads that operate on the same session do so through the same control object. */
  predicate Compatible(r: Registry, p: Place, q: Place) {
    && (p.ClientOperating? && q.UseRunning? && q.control in r.owners ==> r.owners[q.control] != p.session)
    && ((p.UseRunning? && q.UseRunning? && p.control in r.owners && q.control in r.owners
         && r.owners[p.control] == r.owners[q.control]) ==> p.control == q.control)
  }

  predicate Exclusive(s: State) {
    && (forall t | t in s.threads :: PlaceOk(s.registry, s.threads[t]))
    && (forall t, u | t in s.threads && u in s.threads :: Compatible(s.registry, s.threads[t], s.threads[u]))
  }

  predicate Inv(s: State) {
    LocksOk(s) && RegistryOk(s.registry) && (!s.closed ==> Exclusive(s))
  }

  // ------------------------------------------------------------------ the locks are kept

  lemma RegistryStep(r: Registry, place: Place)
    requires RegistryOk(r)
    ensures RegistryOk(RegistryAfter(r, place))
    ensures var after := RegistryAfter(r, place);
            forall c | c in r.owners :: c in after.owners && after.owners[c] == r.owners[c]
  {
  }

  /** A thread's own step leaves it with the locks its new place calls for. */
  lemma OwnLocks(s: State, t: Thread, place: Place)
    requires RegistryOk(s.registry) && CanProceed(s, place) && Holds(s.registry, s.locks, t, place)
    ensures var after := PlaceAfter(s, place);
            after.Some? ==> Holds(RegistryAfter(s.registry, place), LocksAfter(s, t, place), t, after.value)
  {
    RegistryStep(s.registry, place);
  }

  /** It takes no lock away from another thread. */
  lemma OtherLocks(s: State, t: Thread, place: Place, u: Thread, other: Place)
    requires RegistryOk(s.registry) && CanProceed(s, place) && t != u
    requires Holds(s.registry, s.locks, t, place) && Holds(s.registry, s.locks, u, other)
    ensures Holds(s.registry, LocksAfter(s, t, place), u, other)
  {
  }

  /** More control objects make no difference to what a thread holds. */
  lemma MoreControls(r: Registry, r': Registry, l: Locks, t: Thread, place: Place)
    requires Holds(r, l, t, place)
    requires forall c | c in r.owners :: c in r'.owners && r'.owners[c] == r.owners[c]
    ensures Holds(r', l, t, place)
  {
  }

  lemma WritersStep(s: State, t: Thread, place: Place)
    requires CanProceed(s, place) && WritersAlone(s.locks)
    ensures WritersAlone(LocksAfter(s, t, place))
  {
  }

  lemma ProceedKeepsLocks(s: State, t: Thread)
    requires LocksOk(s) && RegistryOk(s.registry) && Enabled(s, Proceed(t))
    ensures LocksOk(Next(s, Proceed(t)))
  {
    var place := s.threads[t];
    var next := Next(s, Proceed(t));
    RegistryStep(s.registry, place);
    WritersStep(s, t, place);
    OwnLocks(s, t, place);
    forall u | u in next.threads ensures Holds(next.registry, next.locks, u, next.threads[u]) {
      if u != t {
        OtherLocks(s, t, place, u, s.threads[u]);
        MoreControls(s.registry, next.registry, next.locks, u, s.threads[u]);
      }
    }
  }

  lemma StartKeepsLocks(s: State, step: Step)
    requires LocksOk(s) && RegistryOk(s.registry) && Enabled(s, step) && !step.Proceed?
    ensures LocksOk(Next(s, step)) && RegistryOk(Next(s, step).registry)
  {
    var next := Next(s, step);
    forall u | u in next.threads ensures Holds(next.registry, next.locks, u, next.threads[u]) {
      if u in s.threads && next.threads[u] == s.threads[u] {
        MoreControls(s.registry, next.registry, s.locks, u, s.threads[u]);
      }
    }
  }

  // ------------------------------------------------------------ operations stay exclusive

  /** Two threads at least one of which holds the gate of a session do not both hold it. */
  lemma OneHolder(s: State, t: Thread, u: Thread)
    requires LocksOk(s) && t in s.threads && u in s.threads && t != u
    requires GateHeld(s.registry, s.threads[t]).Some?
    ensures GateHeld(s.registry, s.threads[u]) != GateHeld(s.registry, s.threads[t])
  {
    assert Holds(s.registry, s.locks, t, s.threads[t]) && Holds(s.registry, s.locks, u, s.threads[u]);
  }

  /** While one thread has a control's lock for writing, no thread uses the control. */
  lemma WriterAlone(s: State, t: Thread, u: Thread)
    requires LocksOk(s) && t in s.threads && u in s.threads
    requires Writing(s.threads[t]) && Reading(s.threads[u])
    ensures s.threads[t].control != s.threads[u].control
  {
    assert Holds(s.registry, s.locks, t, s.threads[t]) && Holds(s.registry, s.locks, u, s.threads[u]);
  }

  /** What a thread's step does to the registry leaves another thread's operation in order: it
      registers no control under a client's feet and removes none that is in use. */
  lemma RegistryKeepsPlace(s: State, t: Thread, u: Thread)
    requires LocksOk(s) && RegistryOk(s.registry) && Exclusive(s)
    requires t in s.threads && u in s.threads && t != u
    ensures PlaceOk(RegistryAfter(s.registry, s.threads[t]), s.threads[u])
  {
    var (p, q) := (s.threads[t], s.threads[u]);
    assert PlaceOk(s.registry, q) && Holds(s.registry, s.locks, u, q);
    if p.AcquireChecking? {
      OneHolder(s, t, u);
    } else if p.ReleaseChecking? && Reading(q) {
      WriterAlone(s, t, u);
    }
  }

  lemma OwnPlace(s: State, t: Thread)
    requires t in s.threads && CanProceed(s, s.threads[t])
    ensures var after := PlaceAfter(s, s.threads[t]);
            after.Some? ==> PlaceOk(RegistryAfter(s.registry, s.threads[t]), after.value)
  {
  }

  /** Whoever starts to operate is compatible with whoever already does. */
  lemma OwnCompatible(s: State, t: Thread, u: Thread)
    requires LocksOk(s) && RegistryOk(s.registry) && Exclusive(s) && Enabled(s, Proceed(t))
    requires u in s.threads && t != u
    ensures var after := PlaceAfter(s, s.threads[t]);
            after.Some? ==>
              && Compatible(s.registry, after.value, s.threads[u])
              && Compatible(s.registry, s.threads[u], after.value)
  {
    assert PlaceOk(s.registry, s.threads[u]) && Holds(s.registry, s.locks, u, s.threads[u]);
  }

  /** More control objects make no difference to compatibility. */
  lemma CompatibleGrows(r: Registry, r': Registry, p: Place, q: Place)
    requires Compatible(r, p, q)
    requires AboutControl(p) ==> p.control in r.owners
    requires AboutControl(q) ==> q.control in r.owners
    requires forall c | c in r.owners :: c in r'.owners && r'.owners[c] == r.owners[c]
    ensures Compatible(r', p, q)
  {
  }

  lemma ProceedKeepsPlaces(s: State, t: Thread)
    requires Inv(s) && !s.closed && Enabled(s, Proceed(t))
    ensures var next := Next(s, Proceed(t));
            forall u | u in next.threads :: PlaceOk(next.registry, next.threads[u])
  {
    OwnPlace(s, t);
    var next := Next(s, Proceed(t));
    forall u | u in next.threads ensures PlaceOk(next.registry, next.threads[u]) {
      if u != t { RegistryKeepsPlace(s, t, u); }
    }
  }

  lemma PairStaysCompatible(s: State, t: Thread, u: Thread, v: Thread)
    requires Inv(s) && !s.closed && Enabled(s, Proceed(t))
    requires u in Next(s, Proceed(t)).threads && v in Next(s, Proceed(t)).threads
    ensures var next := Next(s, Proceed(t));
            Compatible(next.registry, next.threads[u], next.threads[v])
  {
    var next := Next(s, Proceed(t));
    RegistryStep(s.registry, s.threads[t]);
    if u != t { OwnCompatible(s, t, u); }
    if v != t { OwnCompatible(s, t, v); }
    assert Holds(s.registry, s.locks, u, s.threads[u]) && Holds(s.registry, s.locks, v, s.threads[v]);
    assert Holds(s.registry, s.locks, t, s.threads[t]);
    assert Compatible(s.registry, next.threads[u], next.threads[v]);
    CompatibleGrows(s.registry, next.registry, next.threads[u], next.threads[v]);
  }

  lemma ProceedKeepsExclusive(s: State, t: Thread)
    requires Inv(s) && !s.closed && Enabled(s, Proceed(t))
    ensures Exclusive(Next(s, Proceed(t)))
  {
    ProceedKeepsPlaces(s, t);
    var next := Next(s, Proceed(t));
    forall u, v | u in next.threads && v in next.threads
      ensures Compatible(next.registry, next.threads[u], next.threads[v])
    {
      PairStaysCompatible(s, t, u, v);
    }
  }

  lemma StartKeepsExclusive(s: State, step: Step)
    requires Inv(s) && Enabled(s, step) && !step.Proceed? && !Next(s, step).closed
    ensures Exclusive(Next(s, step))
  {
    var next := Next(s, step);
    forall u | u in next.threads ensures PlaceOk(next.registry, next.threads[u]) {
      if u in s.threads && next.threads[u] == s.threads[u] {
        assert PlaceOk(s.registry, s.threads[u]) && Holds(s.registry, s.locks, u, s.threads[u]);
      }
    }
  }

  lemma StepKeepsInv(s: State, step: Step)
    requires Inv(s) && Enabled(s, step)
    ensures Inv(Next(s, step))
  {
    if step.Proceed? {
      RegistryStep(s.registry, s.threads[step.t]);
      ProceedKeepsLocks(s, step.t);
      if !s.closed { ProceedKeepsExclusive(s, step.t); }
    } else {
      StartKeepsLocks(s, step);
      if !Next(s, step).closed { StartKeepsExclusive(s, step); }
    }
  }

  lemma {:induction false} RunKeepsInv(s: State, steps: seq<Step>)
    requires Inv(s) && IsRun(s, steps)
    ensures Inv(Run(s, steps))
    decreases |steps|
  {
    if steps != [] {
      StepKeepsInv(s, steps[0]);
      RunKeepsInv(Next(s, steps[0]), steps[1..]);
    }
  }

  /** A client's operation and a controller's on the same session. */
  predicate Overlap(s: State, t: Thread, u: Thread) {
    && t in s.threads && u in s.threads && s.threads[t].ClientOperating? && s.threads[u].UseRunning?
    && s.threads[u].control in s.registry.owners
    && s.registry.owners[s.threads[u].control] == s.threads[t].session
  }

  /** Controllers' operations on the same session through different control objects. */
  predicate TwoControllers(s: State, t: Thread, u: Thread) {
    && t in s.threads && u in s.threads && s.threads[t].UseRunning? && s.threads[u].UseRunning?
    && s.threads[t].control != s.threads[u].control
    && s.threads[t].control in s.registry.owners && s.threads[u].control in s.registry.owners
    && s.registry.owners[s.threads[t].control] == s.registry.owners[s.threads[u].control]
  }

  /** Until the driver is closed, a client's operation on a session never overlaps a controller's,
      and at most one control object operates it. */
  lemma ControlIsExclusive(steps: seq<Step>, t: Thread, u: Thread)
    requires IsRun(INITIAL, steps) && !Run(INITIAL, steps).closed
    ensures !Overlap(Run(INITIAL, steps), t, u)
    ensures !TwoControllers(Run(INITIAL, steps), t, u)
  {
    RunKeepsInv(INITIAL, steps);
    var s := Run(INITIAL, steps);
    if t in s.threads && u in s.threads {
      assert Compatible(s.registry, s.threads[t], s.threads[u]);
    }
  }

  /** Two clients never operate on the same session at once, and while a control is being acquired
      or released no client does; closing the driver changes nothing about that. */
  lemma GateIsExclusive(steps: seq<Step>, t: Thread, u: Thread)
    requires IsRun(INITIAL, steps) && t != u
    requires t in Run(INITIAL, steps).threads && u in Run(INITIAL, steps).threads
    ensures var s := Run(INITIAL, steps);
            var (p, q) := (GateHeld(s.registry, s.threads[t]), GateHeld(s.registry, s.threads[u]));
            p.Some? && q.Some? ==> p.value != q.value
  {
    RunKeepsInv(INITIAL, steps);
    var s := Run(INITIAL, steps);
    if GateHeld(s.registry, s.threads[t]).Some? {
      OneHolder(s, t, u);
    }
  }

  // ------------------------------------------------------------- closing the driver

  lemma {:induction false} RunAppend(s: State, first: seq<Step>, second: seq<Step>)
    requires IsRun(s, first) && IsRun(Run(s, first), second)
    ensures IsRun(s, first + second) && Run(s, first + second) == Run(Run(s, first), second)
    decreases |first|
  {
    if first == [] {
      assert first + second == second;
    } else {
      RunAppend(Next(s, first[0]), first[1..], second);
      assert (first + second)[1..] == first[1..] + second;
    }
  }

  lemma OneStep(s: State, step: Step)
    requires Enabled(s, step)
    ensures IsRun(s, [step]) && Run(s, [step]) == Next(s, step)
  {
    assert [step][1..] == [];
    assert Run(Next(s, step), []) == Next(s, step);
  }

  lemma OneMore(s: State, steps: seq<Step>, step: Step)
    requires IsRun(s, steps) && Enabled(Run(s, steps), step)
    ensures IsRun(s, steps + [step]) && Run(s, steps + [step]) == Next(Run(s, steps), step)
  {
    OneStep(Run(s, steps), step);
    RunAppend(s, steps, [step]);
  }

  /** A controller is at work on session x, whose gate is free. */
  predicate AtWork(s: State, u: Thread, x: Session) {
    && u in s.threads && s.threads[u].UseRunning?
    && s.threads[u].control in s.registry.owners && s.registry.owners[s.threads[u].control] == x
    && x in s.registry.sessions && x !in s.locks.gates
  }

  /** A controller is at work only on a session that has a control, unless the driver is closed. */
  lemma ControlMissing(s: State, u: Thread, x: Session)
    requires Inv(s) && AtWork(s, u, x) && x !in s.registry.controls
    ensures s.closed
  {
    assert !s.closed ==> PlaceOk(s.registry, s.threads[u]);
  }

  /** A client that comes now operates beside the controller exactly if the session's control has
      been forgotten, which only closing the driver does. */
  lemma OverlapIff(s: State, t: Thread, u: Thread, x: Session)
    requires Inv(s) && AtWork(s, u, x) && t !in s.threads
    ensures var steps := [Operate(t, x), Proceed(t), Proceed(t)];
            && IsRun(s, steps)
            && (Overlap(Run(s, steps), t, u) <==> x !in s.registry.controls)
            && (x !in s.registry.controls ==> s.closed)
  {
    var first := Next(s, Operate(t, x));
    var second := Next(first, Proceed(t));
    OneStep(s, Operate(t, x));
    OneMore(s, [Operate(t, x)], Proceed(t));
    OneMore(s, [Operate(t, x), Proceed(t)], Proceed(t));
    assert [Operate(t, x)] + [Proceed(t)] == [Operate(t, x), Proceed(t)];
    assert [Operate(t, x), Proceed(t)] + [Proceed(t)] == [Operate(t, x), Proceed(t), Proceed(t)];
    assert second.threads == s.threads[t := ClientChecking(x)] && second.registry == s.registry;
    if x !in s.registry.controls {
      ControlMissing(s, u, x);
    }
  }

  // ------------------------------------------------------------ a second controller

  /** Only control objects that exist are locked for writing. */
  predicate WritersKnown(s: State) {
    forall c | c in s.locks.writers :: c in s.registry.owners
  }

  lemma StepKeepsWritersKnown(s: State, step: Step)
    requires WritersKnown(s) && Enabled(s, step)
    ensures WritersKnown(Next(s, step))
  {
  }

  lemma {:induction false} RunKeepsWritersKnown(s: State, steps: seq<Step>)
    requires WritersKnown(s) && IsRun(s, steps)
    ensures WritersKnown(Run(s, steps))
    decreases |steps|
  {
    if steps != [] {
      StepKeepsWritersKnown(s, steps[0]);
      RunKeepsWritersKnown(Next(s, steps[0]), steps[1..]);
    }
  }

  /** Acquiring control of a session takes these steps. */
  function Acquiring(t: Thread, x: Session): seq<Step> {
    [Acquire(t, x), Proceed(t), Proceed(t), Proceed(t)]
  }

  /** Where the session's gate leads a thread that acquires control. */
  lemma AcquirePlaces(s: State, t: Thread, x: Session)
    requires x in s.registry.sessions && x !in s.locks.gates && t !in s.threads
    ensures var first := Next(s, Acquire(t, x));
            var second := Next(first, Proceed(t));
            && Enabled(first, Proceed(t))
            && second == s.(threads := s.threads[t := AcquireChecking(x)],
                            locks := s.locks.(gates := s.locks.gates[x := t]))
  {
    assert s.threads[t := AcquireAtGate(x)][t := AcquireChecking(x)] == s.threads[t := AcquireChecking(x)];
  }

  lemma AcquireLeaves(s: State, second: State, t: Thread, x: Session)
    requires x !in s.locks.gates && t !in s.threads
    requires second == s.(threads := s.threads[t := AcquireChecking(x)],
                          locks := s.locks.(gates := s.locks.gates[x := t]))
    ensures var third := Next(second, Proceed(t));
            && Enabled(third, Proceed(t))
            && Next(third, Proceed(t)) == s.(registry := RegistryAfter(s.registry, AcquireChecking(x)))
  {
    var third := Next(second, Proceed(t));
    assert third.threads == s.threads[t := AcquireLeaving(x)];
    assert third.threads - {t} == s.threads && third.locks.gates - {x} == s.locks.gates;
  }

  lemma FourSteps(s: State, a: Step, b: Step, c: Step, d: Step)
    requires Enabled(s, a) && Enabled(Next(s, a), b) && Enabled(Next(Next(s, a), b), c)
    requires Enabled(Next(Next(Next(s, a), b), c), d)
    ensures IsRun(s, [a, b, c, d]) && Run(s, [a, b, c, d]) == Next(Next(Next(Next(s, a), b), c), d)
  {
    var third := Next(Next(Next(s, a), b), c);
    OneStep(third, d);
    assert [a, b, c, d][1..] == [b, c, d] && [b, c, d][1..] == [c, d] && [c, d][1..] == [d];
    assert IsRun(Next(Next(s, a), b), [c, d]) && Run(Next(Next(s, a), b), [c, d]) == Next(third, d);
    assert IsRun(Next(s, a), [b, c, d]) && Run(Next(s, a), [b, c, d]) == Next(third, d);
  }

  lemma AcquiringRuns(s: State, t: Thread, x: Session)
    requires x in s.registry.sessions && x !in s.locks.gates && t !in s.threads
    ensures IsRun(s, Acquiring(t, x))
    ensures Run(s, Acquiring(t, x)) == s.(registry := RegistryAfter(s.registry, AcquireChecking(x)))
  {
    AcquirePlaces(s, t, x);
    AcquireLeaves(s, Next(Next(s, Acquire(t, x)), Proceed(t)), t, x);
    FourSteps(s, Acquire(t, x), Proceed(t), Proceed(t), Proceed(t));
  }

  /** Thread t acquires session x and uses the control it should have got. */
  function AcquireAndUse(s: State, t: Thread, x: Session): seq<Step> {
    Acquiring(t, x) + [Use(t, s.registry.nextControl), Proceed(t)]
  }

  lemma UseRuns(s: State, t: Thread, c: Control)
    requires t !in s.threads && c !in s.locks.writers && Registered(s.registry, c)
    ensures var steps := [Use(t, c), Proceed(t)];
            && IsRun(s, steps) && Run(s, steps).threads == s.threads[t := UseRunning(c)]
            && Run(s, steps).registry == s.registry
  {
    OneStep(s, Use(t, c));
    OneMore(s, [Use(t, c)], Proceed(t));
    assert [Use(t, c)] + [Proceed(t)] == [Use(t, c), Proceed(t)];
  }

  /** A run ends where a step is not enabled. */
  lemma {:induction false} StopsThere(s: State, first: seq<Step>, step: Step, rest: seq<Step>)
    requires IsRun(s, first) && !Enabled(Run(s, first), step)
    ensures !IsRun(s, first + [step] + rest)
    decreases |first|
  {
    if first != [] {
      StopsThere(Next(s, first[0]), first[1..], step, rest);
      assert (first + [step] + rest)[1..] == first[1..] + [step] + rest;
    }
  }

  /** Another caller gets a control of its own beside the controller, and uses it, exactly if the
      session's control has been forgotten, which only closing the driver does. */
  lemma SecondControllerIff(steps: seq<Step>, t: Thread, u: Thread, x: Session)
    requires IsRun(INITIAL, steps) && AtWork(Run(INITIAL, steps), u, x) && t !in Run(INITIAL, steps).threads
    ensures var s := Run(INITIAL, steps);
            var more := AcquireAndUse(s, t, x);
            && (IsRun(s, more) <==> x !in s.registry.controls)
            && (IsRun(s, more) ==> TwoControllers(Run(s, more), t, u) && s.closed)
  {
    RunKeepsInv(INITIAL, steps);
    RunKeepsWritersKnown(INITIAL, steps);
    var s := Run(INITIAL, steps);
    AcquiringRuns(s, t, x);
    var after := Run(s, Acquiring(t, x));
    if x !in s.registry.controls {
      ControlMissing(s, u, x);
      UseRuns(after, t, s.registry.nextControl);
      RunAppend(s, Acquiring(t, x), [Use(t, s.registry.nextControl), Proceed(t)]);
    } else {
      assert after.registry == s.registry && s.registry.nextControl !in s.registry.owners;
      StopsThere(s, Acquiring(t, x), Use(t, s.registry.nextControl), [Proceed(t)]);
      assert Acquiring(t, x) + [Use(t, s.registry.nextControl)] + [Proceed(t)] == AcquireAndUse(s, t, x);
    }
  }

  const ONE_CONTROL := Registry({1}, 1, 1, map[1 := 0], map[0 := 1])

  /** Thread 1 is about to register a control for session 1. */
  lemma ControlWanted() returns (steps: seq<Step>)
    ensures IsRun(INITIAL, steps)
    ensures Run(INITIAL, steps) ==
            State(Registry({1}, 1, 0, map[], map[]), Locks(map[1 := 1], {}, map[]), {},
                  map[1 := AcquireChecking(1)], false)
  {
    assert Run(INITIAL, []) == INITIAL;
    OneMore(INITIAL, [], OpenSession);
    steps := [] + [OpenSession];
    assert Run(INITIAL, steps).registry == Registry({1}, 1, 0, map[], map[]);
    OneMore(INITIAL, steps, Acquire(1, 1));
    steps := steps + [Acquire(1, 1)];
    OneMore(INITIAL, steps, Proceed(1));
    steps := steps + [Proceed(1)];
  }

  lemma ControlAcquired() returns (steps: seq<Step>)
    ensures IsRun(INITIAL, steps)
    ensures Run(INITIAL, steps) == State(ONE_CONTROL, Locks(map[], {}, map[]), {}, map[], false)
  {
    steps := ControlWanted();
    OneMore(INITIAL, steps, Proceed(1));
    steps := steps + [Proceed(1)];
    assert Run(INITIAL, steps).registry == ONE_CONTROL;
    OneMore(INITIAL, steps, Proceed(1));
    steps := steps + [Proceed(1)];
    assert Run(INITIAL, steps).threads == map[] && Run(INITIAL, steps).locks == Locks(map[], {}, map[]);
  }

  /** Thread 1 operates session 1 through control 0. */
  lemma ControllerRuns() returns (steps: seq<Step>)
    ensures IsRun(INITIAL, steps)
    ensures Run(INITIAL, steps) ==
            State(ONE_CONTROL, Locks(map[], {(0, 1)}, map[]), {}, map[1 := UseRunning(0)], false)
  {
    steps := ControlAcquired();
    OneMore(INITIAL, steps, Use(1, 0));
    steps := steps + [Use(1, 0)];
    OneMore(INITIAL, steps, Proceed(1));
    steps := steps + [Proceed(1)];
    assert Run(INITIAL, steps).threads == map[1 := UseRunning(0)];
  }

  /** Closing the driver forgets the controls without taking any gate, so a client that comes later
      operates beside a controller that is still at work, and so does another controller. */
  lemma ClosingAllowsOverlap() returns (overlapping: seq<Step>, doubled: seq<Step>)
    ensures IsRun(INITIAL, overlapping) && Overlap(Run(INITIAL, overlapping), 2, 1)
    ensures IsRun(INITIAL, doubled) && TwoControllers(Run(INITIAL, doubled), 2, 1)
  {
    var steps := ControllerRuns();
    OneMore(INITIAL, steps, CloseDriver);
    steps := steps + [CloseDriver];
    var s := Run(INITIAL, steps);
    RunKeepsInv(INITIAL, steps);
    OverlapIff(s, 2, 1, 1);
    overlapping := steps + [Operate(2, 1), Proceed(2), Proceed(2)];
    RunAppend(INITIAL, steps, [Operate(2, 1), Proceed(2), Proceed(2)]);
    SecondControllerIff(steps, 2, 1, 1);
    doubled := steps + AcquireAndUse(s, 2, 1);
    RunAppend(INITIAL, steps, AcquireAndUse(s, 2, 1));
  }

  // ---------------------------------------------------------------- releasing control

  /** Releasing a control takes these steps. */
  function Releasing(t: Thread, c: Control): seq<Step> {
    [Release(t, c), Proceed(t), Proceed(t), Proceed(t), Proceed(t)]
  }

  /** Nothing stands in the way of a thread that releases control c of session x. */
  predicate CanRelease(s: State, t: Thread, c: Control, x: Session) {
    && t !in s.threads && c in s.registry.owners && s.registry.owners[c] == x && c !in s.released
    && c !in s.locks.writers && NoReaders(s.locks, c) && x !in s.locks.gates
  }

  lemma ReleasePlaces(s: State, t: Thread, c: Control, x: Session)
    requires CanRelease(s, t, c, x)
    ensures Enabled(s, Release(t, c))
    ensures var first := Next(s, Release(t, c));
            && Enabled(first, Proceed(t)) && Enabled(Next(first, Proceed(t)), Proceed(t))
            && Next(Next(first, Proceed(t)), Proceed(t)) ==
               State(s.registry,
                     s.locks.(writers := s.locks.writers[c := t], gates := s.locks.gates[x := t]),
                     s.released + {c}, s.threads[t := ReleaseChecking(c)], s.closed)
  {
    var second := Next(Next(s, Release(t, c)), Proceed(t));
    assert second.threads == s.threads[t := ReleaseAtGate(c)];
    assert Next(second, Proceed(t)).threads == s.threads[t := ReleaseChecking(c)];
  }

  /** The controls without the one that is given back. */
  function Without(r: Registry, c: Control, x: Session): map<Session, Control> {
    if x in r.controls && r.controls[x] == c then r.controls - {x} else r.controls
  }

  lemma ReleaseLeaves(s: State, third: State, t: Thread, c: Control, x: Session)
    requires CanRelease(s, t, c, x)
    requires third == State(s.registry,
                            s.locks.(writers := s.locks.writers[c := t], gates := s.locks.gates[x := t]),
                            s.released + {c}, s.threads[t := ReleaseChecking(c)], s.closed)
    ensures var fourth := Next(third, Proceed(t));
            && Enabled(fourth, Proceed(t))
            && Next(fourth, Proceed(t)) ==
               s.(registry := s.registry.(controls := Without(s.registry, c, x)), released := s.released + {c})
  {
    var fourth := Next(third, Proceed(t));
    assert fourth.threads == s.threads[t := ReleaseLeaving(c)];
    assert fourth.threads - {t} == s.threads;
    assert fourth.locks.gates - {x} == s.locks.gates && fourth.locks.writers - {c} == s.locks.writers;
  }

  /** A control that is given back is taken from the registry, if it was still the session's; and
      nothing else changes: all locks are as before. */
  lemma ReleaseGivesBack(s: State, t: Thread, c: Control, x: Session)
    requires CanRelease(s, t, c, x)
    ensures IsRun(s, Releasing(t, c))
    ensures Run(s, Releasing(t, c)) ==
            s.(registry := s.registry.(controls := Without(s.registry, c, x)), released := s.released + {c})
  {
    ReleasePlaces(s, t, c, x);
    var first := Next(s, Release(t, c));
    ReleaseLeaves(s, Next(Next(first, Proceed(t)), Proceed(t)), t, c, x);
    FourSteps(first, Proceed(t), Proceed(t), Proceed(t), Proceed(t));
    assert Releasing(t, c)[1..] == [Proceed(t), Proceed(t), Proceed(t), Proceed(t)];
  }

  /** A client that finds the gate free operates exactly if the session is open and has no control;
      otherwise it is refused and leaves no trace. */
  lemma OperatesIff(s: State, t: Thread, x: Session)
    requires t !in s.threads && x in s.registry.sessions && x !in s.locks.gates
    ensures var steps := [Operate(t, x), Proceed(t), Proceed(t)];
            && IsRun(s, steps)
            && Run(s, steps) ==
               if x in s.registry.controls then s
               else s.(threads := s.threads[t := ClientOperating(x)],
                       locks := s.locks.(gates := s.locks.gates[x := t]))
  {
    var first := Next(s, Operate(t, x));
    var second := Next(first, Proceed(t));
    assert second.threads == s.threads[t := ClientChecking(x)];
    assert second.threads - {t} == s.threads && second.locks.gates - {x} == s.locks.gates;
    assert second.threads[t := ClientOperating(x)] == s.threads[t := ClientOperating(x)];
    OneStep(second, Proceed(t));
    assert [Operate(t, x), Proceed(t), Proceed(t)][1..] == [Proceed(t), Proceed(t)];
    assert [Proceed(t), Proceed(t)][1..] == [Proceed(t)];
    assert IsRun(first, [Proceed(t), Proceed(t)]);
  }

  /** One that finds the gate free acquires control exactly if the session has none; it then is a
      new one, and the only one registered for the session. */
  lemma AcquiresIff(s: State, t: Thread, x: Session)
    requires t !in s.threads && x in s.registry.sessions && x !in s.locks.gates
    ensures IsRun(s, Acquiring(t, x))
    ensures Run(s, Acquiring(t, x)) ==
            if x in s.registry.controls then s
            else
              var (r, c) := (s.registry, s.registry.nextControl);
              s.(registry := r.(controls := r.controls[x := c], owners := r.owners[c := x], nextControl := c + 1))
  {
    AcquiringRuns(s, t, x);
  }

  /** A controller that nobody is releasing operates exactly if its control is the one registered. */
  lemma UsesIff(s: State, t: Thread, c: Control)
    requires t !in s.threads && c in s.registry.owners && c !in s.locks.writers && NoReaders(s.locks, c)
    ensures var (steps, x) := ([Use(t, c), Proceed(t)], s.registry.owners[c]);
            && IsRun(s, steps)
            && Run(s, steps) ==
               if x in s.registry.controls && s.registry.controls[x] == c
               then s.(threads := s.threads[t := UseRunning(c)],
                       locks := s.locks.(readers := s.locks.readers + {(c, t)}))
               else s
  {
    var first := Next(s, Use(t, c));
    assert first.threads[t := UseRunning(c)] == s.threads[t := UseRunning(c)] && first.threads - {t} == s.threads;
    assert first.locks.readers - {(c, t)} == s.locks.readers;
    OneStep(first, Proceed(t));
    assert [Use(t, c), Proceed(t)][1..] == [Proceed(t)];
  }

  /** What releasing is for: when a session's control has been given back, a client operates on the
      session again, another caller gets a control of its own, and the old one is of no use. */
  lemma ReleaseFrees(steps: seq<Step>, t: Thread, c: Control, x: Session)
    requires IsRun(INITIAL, steps) && CanRelease(Run(INITIAL, steps), t, c, x)
    requires Registered(Run(INITIAL, steps).registry, c)
    ensures IsRun(INITIAL, steps + Releasing(t, c))
    ensures var s := Run(INITIAL, steps + Releasing(t, c));
            && s.locks == Run(INITIAL, steps).locks && x in s.registry.sessions
            && IsRun(s, [Operate(t, x), Proceed(t), Proceed(t)])
            && t in Run(s, [Operate(t, x), Proceed(t), Proceed(t)]).threads
            && Run(s, [Operate(t, x), Proceed(t), Proceed(t)]).threads[t] == ClientOperating(x)
            && IsRun(s, Acquiring(t, x))
            && Run(s, Acquiring(t, x)).registry.controls ==
               s.registry.controls[x := Run(INITIAL, steps).registry.nextControl]
            && IsRun(s, [Use(t, c), Proceed(t)]) && Run(s, [Use(t, c), Proceed(t)]) == s
  {
    var before := Run(INITIAL, steps);
    RunKeepsInv(INITIAL, steps);
    ReleaseGivesBack(before, t, c, x);
    RunAppend(INITIAL, steps, Releasing(t, c));
    var s := Run(INITIAL, steps + Releasing(t, c));
    OperatesIff(s, t, x);
    AcquiresIff(s, t, x);
    UsesIff(s, t, c);
  }

  lemma ClientLeaves(s: State, t: Thread, x: Session)
    requires t !in s.threads && x !in s.locks.gates
    ensures Next(s.(threads := s.threads[t := ClientOperating(x)],
                    locks := s.locks.(gates := s.locks.gates[x := t])), Proceed(t)) == s
  {
    assert s.threads[t := ClientOperating(x)] - {t} == s.threads && s.locks.gates[x := t] - {x} == s.locks.gates;
  }

  lemma ControllerLeaves(s: State, t: Thread, c: Control)
    requires t !in s.threads && NoReaders(s.locks, c)
    ensures Next(s.(threads := s.threads[t := UseRunning(c)],
                    locks := s.locks.(readers := s.locks.readers + {(c, t)})), Proceed(t)) == s
  {
    assert s.threads[t := UseRunning(c)] - {t} == s.threads;
    assert s.locks.readers + {(c, t)} - {(c, t)} == s.locks.readers;
  }

  /** An operation that is over leaves no trace of it: client or controller, it gives up its lock. */
  lemma OperationEnds(s: State, t: Thread, x: Session, c: Control)
    requires t !in s.threads
    ensures x in s.registry.sessions && x !in s.locks.gates && x !in s.registry.controls ==>
              var steps := [Operate(t, x), Proceed(t), Proceed(t)] + [Proceed(t)];
              IsRun(s, steps) && Run(s, steps) == s
    ensures Registered(s.registry, c) && c !in s.locks.writers && NoReaders(s.locks, c) ==>
              var steps := [Use(t, c), Proceed(t)] + [Proceed(t)];
              IsRun(s, steps) && Run(s, steps) == s
  {
    if x in s.registry.sessions && x !in s.locks.gates && x !in s.registry.controls {
      OperatesIff(s, t, x);
      ClientLeaves(s, t, x);
      OneMore(s, [Operate(t, x), Proceed(t), Proceed(t)], Proceed(t));
    }
    if Registered(s.registry, c) && c !in s.locks.writers && NoReaders(s.locks, c) {
      UsesIff(s, t, c);
      ControllerLeaves(s, t, c);
      OneMore(s, [Use(t, c), Proceed(t)], Proceed(t));
    }
  }

  /** Closing sessions ends all of this for them, and for no other session: they are not found any
      more, and a control of theirs is of no use. */
  lemma ClosingEnds(s: State, gone: set<Session>, t: Thread, x: Session, c: Control)
    requires t !in s.threads && c in s.registry.owners && c !in s.locks.writers && NoReaders(s.locks, c)
    ensures var after := Next(s, CloseSessions(gone));
            && (x in after.registry.sessions <==> x in s.registry.sessions && x !in gone)
            && (Enabled(after, Operate(t, x)) <==> x in s.registry.sessions && x !in gone)
            && (Enabled(after, Acquire(t, x)) <==> x in s.registry.sessions && x !in gone)
            && IsRun(after, [Use(t, c), Proceed(t)])
            && (t in Run(after, [Use(t, c), Proceed(t)]).threads <==>
                Registered(s.registry, c) && s.registry.owners[c] !in gone)
  {
    UsesIff(Next(s, CloseSessions(gone)), t, c);
  }
}
