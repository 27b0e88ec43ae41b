/** Observing the screens of a session, under every interleaving with the read loop, resizes and
    waiters of module WakeUp. The observer takes a snapshot, and only then the current `changed`
    channel: a change that is signalled in between goes unseen until the next signal.

    A screen stands here for its revision, by which the observer tells screens apart. */
module ScreenObserver {
  import opened WakeUp

  /** `seen` is the channel that was current at the snapshot, `shown` the screen when the channel
      `epoch` was taken. */
  datatype Observer =
    | Entering
    | Looked(last: Screen, seen: nat)
    | Asleep(epoch: nat, last: Screen, seen: nat, shown: Screen)
    | Woken(last: Screen)
    | Ended

  datatype Observing = Snapshot | TakeChannel | WakeOnChange | SeeEnd | Cancel

  /** `offered` lists every screen the observer has put into its channel. */
  datatype World = World(session: State, observer: Observer, offered: seq<Screen>)

  datatype Event = Session(step: Step) | Observe(what: Observing)

  // --------------------------------------------------------------------------- steps

  predicate CanObserve(w: World, what: Observing) {
    match what
    case Snapshot => w.observer.Entering? || w.observer.Woken?
    case TakeChannel => w.observer.Looked?
    case WakeOnChange => w.observer.Asleep? && !IsOpen(w.session, w.observer.epoch)
    case SeeEnd => w.observer.Asleep? && w.session.done
    case Cancel => !w.observer.Ended?
  }

  predicate Possible(w: World, e: Event) {
    match e
    case Session(step) => Enabled(w.session, step)
    case Observe(what) => CanObserve(w, what)
  }

  /** The current screen is offered if it is not the one offered last. */
  function Offer(w: World, last: Screen): seq<Screen> {
    if w.session.terminal == last then w.offered else w.offered + [w.session.terminal]
  }

  function After(w: World, e: Event): World
    requires Possible(w, e)
  {
    var s := w.session;
    match e
    case Session(step) => w.(session := Next(s, step))
    case Observe(Snapshot) =>
      World(s, Looked(s.terminal, s.epoch),
            if w.observer.Entering? then w.offered + [s.terminal] else Offer(w, w.observer.last))
    case Observe(TakeChannel) => w.(observer := Asleep(s.epoch, w.observer.last, w.observer.seen, s.terminal))
    case Observe(WakeOnChange) => w.(observer := Woken(w.observer.last))
    case Observe(SeeEnd) => World(s, Ended, Offer(w, w.observer.last))
    case Observe(Cancel) => w.(observer := Ended)
  }

  predicate IsHistory(w: World, events: seq<Event>)
    decreases |events|
  {
    events == [] || (Possible(w, events[0]) && IsHistory(After(w, events[0]), events[1..]))
  }

  function End(w: World, events: seq<Event>): World
    requires IsHistory(w, events)
    decreases |events|
  {
    if events == [] then w else End(After(w, events[0]), events[1..])
  }

  function Start(screen: Screen): World {
    World(Initial(screen), Entering, [])
  }

  // ---------------------------------------------------------------------- invariant

  /** A screen seen when channel `epoch` was current: while that channel is open, it is the screen
      there is, or someone has yet to signal. It is what a waiter asleep on the channel knows. */
  predicate Watches(s: State, epoch: nat, screen: Screen) {
    WaiterOk(s, Waiter(false, (x: Screen) => false, Blocked(epoch, screen)))
  }

  predicate OfferedOk(w: World, last: Screen) {
    w.offered != [] && w.offered[|w.offered| - 1] == last
  }

  predicate ObserverOk(w: World) {
    match w.observer
    case Entering => w.offered == []
    case Looked(last, seen) => OfferedOk(w, last) && Watches(w.session, seen, last)
    case Asleep(epoch, last, seen, shown) =>
      && OfferedOk(w, last) && seen <= epoch && Watches(w.session, epoch, shown)
      && (seen == epoch ==> Watches(w.session, epoch, last))
    case Woken(last) => OfferedOk(w, last)
    case Ended => true
  }

  predicate NoRepeats(screens: seq<Screen>) {
    forall i | 0 <= i < |screens| - 1 :: screens[i] != screens[i + 1]
  }

  predicate WorldOk(w: World) {
    Inv(w.session) && ObserverOk(w) && NoRepeats(w.offered)
  }

  lemma WatchKept(s: State, step: Step, epoch: nat, screen: Screen)
    requires Inv(s) && Enabled(s, step) && Watches(s, epoch, screen)
    ensures Watches(Next(s, step), epoch, screen)
  {
    var w := Waiter(false, (x: Screen) => false, Blocked(epoch, screen));
    match step
    case Receive => OutputKeepsWaiter(s, w);
    case Enter(_, _, _) => SameWaiters(s, Next(s, step), w);
    case Wait(_, _) => SameWaiters(s, Next(s, step), w);
    case _ => StepKeepsWaiter(s, step, w);
  }

  lemma SessionKeepsWorld(w: World, step: Step)
    requires WorldOk(w) && Enabled(w.session, step)
    ensures WorldOk(After(w, Session(step)))
  {
    StepKeepsInv(w.session, step);
    match w.observer
    case Looked(last, seen) => WatchKept(w.session, step, seen, last);
    case Asleep(epoch, last, seen, shown) =>
      WatchKept(w.session, step, epoch, shown);
      if seen == epoch { WatchKept(w.session, step, epoch, last); }
    case _ =>
  }

  lemma ObserveKeepsWorld(w: World, what: Observing)
    requires WorldOk(w) && CanObserve(w, what)
    ensures WorldOk(After(w, Observe(what)))
  {
  }

  lemma {:induction false} HistoryKeepsWorld(w: World, events: seq<Event>)
    requires WorldOk(w) && IsHistory(w, events)
    ensures WorldOk(End(w, events))
    decreases |events|
  {
    if events != [] {
      match events[0] {
        case Session(step) => SessionKeepsWorld(w, step);
        case Observe(what) => ObserveKeepsWorld(w, what);
      }
      HistoryKeepsWorld(After(w, events[0]), events[1..]);
    }
  }

  // ------------------------------------------------------------------------ results

  /** Asleep, with nobody about to signal, and the screen is not the one offered last. */
  predicate Stale(w: World) {
    && w.observer.Asleep? && IsOpen(w.session, w.observer.epoch) && !SignalPending(w.session)
    && w.session.terminal != w.observer.last
  }

  /** In every history, an observer that sleeps on an open channel while nobody is about to signal
      has missed a screen exactly if the screen had changed when it took the channel; and then a
      signal came between its snapshot and that. */
  lemma StaleIff(screen: Screen, events: seq<Event>)
    requires IsHistory(Start(screen), events)
    requires var w := End(Start(screen), events);
             w.observer.Asleep? && IsOpen(w.session, w.observer.epoch) && !SignalPending(w.session)
    ensures var w := End(Start(screen), events);
            && (Stale(w) <==> w.observer.shown != w.observer.last)
            && (Stale(w) ==> w.observer.seen < w.observer.epoch)
  {
    HistoryKeepsWorld(Start(screen), events);
  }

  /** Screens are offered without immediate repeats, and the newest offered is the one the observer
      compares with. */
  lemma OffersDiffer(screen: Screen, events: seq<Event>)
    requires IsHistory(Start(screen), events)
    ensures var w := End(Start(screen), events);
            && NoRepeats(w.offered)
            && (!w.observer.Entering? && !w.observer.Ended? ==> OfferedOk(w, w.observer.last))
  {
    HistoryKeepsWorld(Start(screen), events);
  }

  /** An observer that ends with its session has offered the screen there is. */
  lemma EndOffersLast(screen: Screen, events: seq<Event>)
    requires IsHistory(Start(screen), events) && CanObserve(End(Start(screen), events), SeeEnd)
    ensures var w := After(End(Start(screen), events), Observe(SeeEnd));
            OfferedOk(w, w.session.terminal)
  {
    HistoryKeepsWorld(Start(screen), events);
  }

  lemma {:induction false} OneMore(w: World, events: seq<Event>, e: Event)
    requires IsHistory(w, events) && Possible(End(w, events), e)
    ensures IsHistory(w, events + [e]) && End(w, events + [e]) == After(End(w, events), e)
    decreases |events|
  {
    if events == [] {
      assert events + [e] == [e] && [e][1..] == [];
      assert End(After(w, e), []) == After(w, e);
    } else {
      OneMore(After(w, events[0]), events[1..], e);
      assert (events + [e])[1..] == events[1..] + [e];
    }
  }

  /** Such a history: output arrives, changes the screen and is signalled after the snapshot and
      before the observer takes the channel. */
  lemma MissedScreen(before: Screen, after: Screen) returns (events: seq<Event>)
    requires before != after
    ensures IsHistory(Start(before), events) && Stale(End(Start(before), events))
  {
    var w := Start(before);
    events := [];
    assert End(w, events) == w;
    OneMore(w, events, Observe(Snapshot));
    events := events + [Observe(Snapshot)];
    OneMore(w, events, Session(Receive));
    events := events + [Session(Receive)];
    OneMore(w, events, Session(Apply(after, true)));
    events := events + [Session(Apply(after, true))];
    OneMore(w, events, Session(SignalRead));
    events := events + [Session(SignalRead)];
    OneMore(w, events, Session(Continue));
    events := events + [Session(Continue)];
    OneMore(w, events, Observe(TakeChannel));
    events := events + [Observe(TakeChannel)];
  }
}
