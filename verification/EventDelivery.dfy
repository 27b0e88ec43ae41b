/** Event subscriptions under every interleaving of publishing, subscribing, reading the history,
    overflowing, cancelling, and ending the session. An atomic step is what one goroutine does
    while it holds a lock, or one channel operation. */
module EventDelivery {
  import opened EventLog
  import opened Options

  /** How many retained events a subscription replays. */
  const REPLAYED := 64

  datatype Cause = Overflow | Cancellation | SessionEnd

  datatype Channel = Open | Closed(cause: Cause)

  datatype Phase =
    | Subscribed                 // registered, history not read yet
    | Waiting                    // history read, delivery not started
    | Replaying
    | Draining
    | Ended(drained: bool)       // drained: the channel was closed and empty

  /** `queue` is what the channel holds, and `replay` what is left of the history read. The last
      five fields record where the subscription stood: how many events had been published when it
      subscribed, when it read the history, and when its channel was closed (for an overflow, before
      the event that did not fit); how many it has taken from the channel; and what it has written
      to the client. */
  datatype Subscription = Subscription(
    registered: bool,
    channel: Channel,
    queue: seq<Event>,
    cancelled: bool,
    phase: Phase,
    replay: seq<Event>,
    last: nat,
    joined: nat,
    readAt: nat,
    closedAt: nat,
    taken: nat,
    delivered: seq<Event>)

  datatype State = State(published: seq<Entry>, history: seq<Event>, done: bool, subscriptions: map<nat, Subscription>)

  const INITIAL := State([], [], false, map[])

  /** What one subscription does on its own. */
  datatype Move =
    | ReadHistory
    | Begin
    | Abandon
    | Replay(written: bool)
    | Take(written: bool)
    | Stop
    | Cancel
    | Unregister

  datatype Step = Publish(entry: Entry) | Subscribe(id: nat) | Advance(id: nat, move: Move) | Finish

  // -------------------------------------------------------------------------- steps

  /** What publishing does to a subscriber: a full channel is closed instead of waited for. */
  function Offer(s: Subscription, event: Event): Subscription
    requires event.sequence > 0
  {
    if !s.registered then s
    else if |s.queue| < CHANNEL then s.(queue := s.queue + [event])
    else s.(registered := false, channel := Closed(Overflow), closedAt := event.sequence - 1)
  }

  function CloseRegistered(s: Subscription, cause: Cause, now: nat): Subscription {
    if s.registered then s.(registered := false, channel := Closed(cause), closedAt := now) else s
  }

  predicate CanMove(s: Subscription, done: bool, move: Move) {
    match move
    case ReadHistory => s.phase.Subscribed?
    case Begin => s.phase.Waiting?
    case Abandon => s.phase.Waiting? && s.cancelled
    case Replay(_) => s.phase.Replaying?
    case Take(_) => s.phase.Draining? && s.queue != []
    case Stop => s.phase.Draining? && s.queue == [] && s.channel.Closed?
    case Cancel => true
    case Unregister => s.cancelled || done
  }

  predicate Enabled(s: State, step: Step) {
    match step
    case Publish(_) => !s.done
    case Finish => !s.done
    case Subscribe(id) => id !in s.subscriptions
    case Advance(id, move) => id in s.subscriptions && CanMove(s.subscriptions[id], s.done, move)
  }

  function NewSubscription(s: State): Subscription {
    Subscription(!s.done, if s.done then Closed(SessionEnd) else Open, [], false, Subscribed, [], 0,
                 |s.published|, 0, |s.published|, 0, [])
  }

  function ReplayOne(s: Subscription, written: bool): Subscription {
    if s.replay == [] then s.(phase := Draining)
    else if !written then s.(phase := Ended(false), cancelled := true)
    else s.(replay := s.replay[1..], last := s.replay[0].sequence, delivered := s.delivered + [s.replay[0]])
  }

  /** Events the replay has already covered are skipped. */
  function TakeOne(s: Subscription, written: bool): Subscription
    requires s.queue != []
  {
    var event := s.queue[0];
    var rest := s.(queue := s.queue[1..], taken := s.taken + 1);
    if event.sequence <= s.last then rest
    else if !written then rest.(phase := Ended(false), cancelled := true)
    else rest.(delivered := s.delivered + [event])
  }

  function Moved(s: Subscription, state: State, move: Move): Subscription
    requires CanMove(s, state.done, move)
  {
    match move
    case ReadHistory => s.(phase := Waiting, replay := Latest(state.history, REPLAYED), readAt := |state.published|)
    case Begin => s.(phase := Replaying)
    case Abandon => s.(phase := Ended(false))
    case Replay(written) => ReplayOne(s, written)
    case Take(written) => TakeOne(s, written)
    case Stop => s.(phase := Ended(true))
    case Cancel => s.(cancelled := true)
    case Unregister => CloseRegistered(s, Cancellation, |state.published|)
  }

  function Next(s: State, step: Step): State
    requires Enabled(s, step)
  {
    match step
    case Publish(entry) =>
      var event := Event(|s.published| + 1, entry);
      State(s.published + [entry],
            (if |s.history| == RETAINED then s.history[1..] else s.history) + [event],
            false,
            map id | id in s.subscriptions :: Offer(s.subscriptions[id], event))
    case Finish =>
      s.(done := true,
         subscriptions := map id | id in s.subscriptions ::
                            CloseRegistered(s.subscriptions[id], SessionEnd, |s.published|))
    case Subscribe(id) => s.(subscriptions := s.subscriptions[id := NewSubscription(s)])
    case Advance(id, move) => s.(subscriptions := s.subscriptions[id := Moved(s.subscriptions[id], s, move)])
  }

  /** A run takes only enabled steps. */
  predicate IsRun(s: State, steps: seq<Step>)
    decreases |steps|
  {
    steps == [] || (Enabled(s, steps[0]) && IsRun(Next(s, steps[0]), steps[1..]))
  }

  function Run(s: State, steps: seq<Step>): State
    requires IsRun(s, steps)
    decreases |steps|
  {
    if steps == [] then s else Run(Next(s, steps[0]), steps[1..])
  }

  // ---------------------------------------------------------------------- invariant

  /** Events from+1 up to `to`, as published. */
  predicate IsRange(events: seq<Event>, published: seq<Entry>, from: nat, to: nat) {
    && from <= to <= |published| && |events| == to - from
    && forall i | 0 <= i < |events| :: events[i] == Event(from + i + 1, published[from + i])
  }

  /** The first event of a subscription: the newest 64 at the time of the history read. */
  function First(readAt: nat): nat {
    if readAt > REPLAYED then readAt - REPLAYED else 0
  }

  function Larger(a: nat, b: nat): nat { if a > b then a else b }

  /** How far the channel's contents reach. */
  function Reach(s: Subscription): nat {
    s.joined + s.taken + |s.queue|
  }

  predicate ChannelOk(s: Subscription, published: seq<Entry>, done: bool) {
    && IsRange(s.queue, published, s.joined + s.taken, Reach(s))
    && (s.registered ==> s.channel.Open? && Reach(s) == |published| && !done)
    && (!s.registered ==> s.channel.Closed? && Reach(s) == s.closedAt)
    && (s.channel == Closed(SessionEnd) ==> done && s.closedAt == |published|)
  }

  predicate DeliveryOk(s: Subscription, published: seq<Entry>) {
    var first := First(s.readAt);
    var upTo := first + |s.delivered|;
    match s.phase
    case Subscribed => s.delivered == [] && s.last == 0 && s.taken == 0
    case Waiting =>
      && s.delivered == [] && s.last == 0 && s.taken == 0 && s.joined <= s.readAt
      && IsRange(s.replay, published, first, s.readAt)
    case Replaying =>
      && s.taken == 0 && s.joined <= s.readAt && s.last == (if s.delivered == [] then 0 else upTo)
      && IsRange(s.delivered, published, first, upTo) && IsRange(s.replay, published, upTo, s.readAt)
    case Draining =>
      && s.joined <= s.readAt && s.last == s.readAt
      && IsRange(s.delivered, published, first, upTo) && upTo == Larger(s.readAt, s.joined + s.taken)
    case Ended(drained) =>
      && IsRange(s.delivered, published, first, upTo)
      && (drained ==> s.channel.Closed? && s.queue == [] && s.joined <= s.readAt
                      && upTo == Larger(s.readAt, s.joined + s.taken))
  }

  predicate SubscriptionOk(s: Subscription, published: seq<Entry>, done: bool) {
    s.readAt <= |published| && ChannelOk(s, published, done) && DeliveryOk(s, published)
  }

  predicate Inv(s: State) {
    && s.history == History(s.published)
    && forall id | id in s.subscriptions :: SubscriptionOk(s.subscriptions[id], s.published, s.done)
  }

  // --------------------------------------------------------------------------- proof

  lemma RangeGrows(events: seq<Event>, published: seq<Entry>, entry: Entry, from: nat, to: nat)
    requires IsRange(events, published, from, to)
    ensures IsRange(events, published + [entry], from, to)
  {
  }

  lemma DeliveryGrows(s: Subscription, published: seq<Entry>, entry: Entry)
    requires DeliveryOk(s, published)
    ensures DeliveryOk(s, published + [entry])
  {
  }

  lemma OfferedChannelOk(s: Subscription, published: seq<Entry>, entry: Entry)
    requires ChannelOk(s, published, false)
    ensures ChannelOk(Offer(s, Event(|published| + 1, entry)), published + [entry], false)
  {
    RangeGrows(s.queue, published, entry, s.joined + s.taken, Reach(s));
  }

  /** Delivery does not depend on whether the channel is open, as long as it has not been drained. */
  lemma SameDelivery(s: Subscription, t: Subscription, published: seq<Entry>)
    requires DeliveryOk(s, published)
    requires t == s.(registered := t.registered, channel := t.channel, closedAt := t.closedAt, queue := t.queue)
    requires s.phase == Ended(true) ==> t.channel.Closed? && t.queue == []
    ensures DeliveryOk(t, published)
  {
  }

  lemma OfferOk(s: Subscription, published: seq<Entry>, entry: Entry)
    requires SubscriptionOk(s, published, false)
    ensures SubscriptionOk(Offer(s, Event(|published| + 1, entry)), published + [entry], false)
  {
    OfferedChannelOk(s, published, entry);
    DeliveryGrows(s, published, entry);
    SameDelivery(s, Offer(s, Event(|published| + 1, entry)), published + [entry]);
  }

  lemma ReadHistoryRange(published: seq<Entry>)
    ensures IsRange(Latest(History(published), REPLAYED), published, First(|published|), |published|)
  {
    HistoryIsNewest(published);
    var history := History(published);
    var replay := Latest(history, REPLAYED);
    forall i | 0 <= i < |replay|
      ensures replay[i] == Event(First(|published|) + i + 1, published[First(|published|) + i])
    {
      assert replay[i] == history[|history| - |replay| + i];
    }
  }

  lemma ReadHistoryOk(s: Subscription, state: State)
    requires state.history == History(state.published)
    requires SubscriptionOk(s, state.published, state.done) && s.phase.Subscribed?
    ensures SubscriptionOk(Moved(s, state, ReadHistory), state.published, state.done)
  {
    ReadHistoryRange(state.published);
  }

  lemma ReplayOneOk(s: Subscription, published: seq<Entry>, done: bool, written: bool)
    requires SubscriptionOk(s, published, done) && s.phase.Replaying?
    ensures SubscriptionOk(ReplayOne(s, written), published, done)
  {
    if s.replay != [] {
      var event := s.replay[0];
      assert event == Event(First(s.readAt) + |s.delivered| + 1, published[First(s.readAt) + |s.delivered|]);
    }
  }

  lemma TakenChannelOk(s: Subscription, published: seq<Entry>, done: bool)
    requires ChannelOk(s, published, done) && s.queue != []
    ensures s.queue[0] == Event(s.joined + s.taken + 1, published[s.joined + s.taken])
    ensures ChannelOk(s.(queue := s.queue[1..], taken := s.taken + 1), published, done)
  {
  }

  lemma TakenDeliveryOk(s: Subscription, published: seq<Entry>, written: bool)
    requires DeliveryOk(s, published) && s.phase.Draining? && s.queue != [] && s.joined + s.taken < |published|
    requires s.queue[0] == Event(s.joined + s.taken + 1, published[s.joined + s.taken])
    ensures DeliveryOk(TakeOne(s, written), published)
  {
  }

  lemma TakeOneOk(s: Subscription, published: seq<Entry>, done: bool, written: bool)
    requires SubscriptionOk(s, published, done) && s.phase.Draining? && s.queue != []
    ensures SubscriptionOk(TakeOne(s, written), published, done)
  {
    TakenChannelOk(s, published, done);
    TakenDeliveryOk(s, published, written);
  }

  /** Moves that leave the channel and what was written alone. */
  lemma PhaseOk(s: Subscription, state: State, move: Move)
    requires SubscriptionOk(s, state.published, state.done) && CanMove(s, state.done, move)
    requires move.Begin? || move.Abandon? || move.Stop? || move.Cancel?
    ensures SubscriptionOk(Moved(s, state, move), state.published, state.done)
  {
  }

  lemma CloseOk(s: Subscription, published: seq<Entry>, done: bool)
    requires SubscriptionOk(s, published, done)
    ensures SubscriptionOk(CloseRegistered(s, Cancellation, |published|), published, done)
    ensures SubscriptionOk(CloseRegistered(s, SessionEnd, |published|), published, true)
  {
  }

  lemma MoveOk(s: Subscription, state: State, move: Move)
    requires state.history == History(state.published)
    requires SubscriptionOk(s, state.published, state.done) && CanMove(s, state.done, move)
    ensures SubscriptionOk(Moved(s, state, move), state.published, state.done)
  {
    match move
    case ReadHistory => ReadHistoryOk(s, state);
    case Replay(written) => ReplayOneOk(s, state.published, state.done, written);
    case Take(written) => TakeOneOk(s, state.published, state.done, written);
    case Unregister => CloseOk(s, state.published, state.done);
    case _ => PhaseOk(s, state, move);
  }

  lemma PublishKeepsInv(s: State, entry: Entry)
    requires Inv(s) && Enabled(s, Publish(entry))
    ensures Inv(Next(s, Publish(entry)))
  {
    HistoryStep(s.published, entry);
    forall id | id in s.subscriptions
      ensures SubscriptionOk(Offer(s.subscriptions[id], Event(|s.published| + 1, entry)), s.published + [entry], false)
    {
      OfferOk(s.subscriptions[id], s.published, entry);
    }
  }

  lemma FinishKeepsInv(s: State)
    requires Inv(s) && Enabled(s, Finish)
    ensures Inv(Next(s, Finish))
  {
    forall id | id in s.subscriptions
      ensures SubscriptionOk(CloseRegistered(s.subscriptions[id], SessionEnd, |s.published|), s.published, true)
    {
      CloseOk(s.subscriptions[id], s.published, s.done);
    }
  }

  lemma StepKeepsInv(s: State, step: Step)
    requires Inv(s) && Enabled(s, step)
    ensures Inv(Next(s, step))
  {
    match step
    case Publish(entry) => PublishKeepsInv(s, entry);
    case Finish => FinishKeepsInv(s);
    case Subscribe(id) => assert SubscriptionOk(NewSubscription(s), s.published, s.done);
    case Advance(id, move) => MoveOk(s.subscriptions[id], s, move);
  }

  lemma {:induction false} RunKeepsInv(s: State, steps: seq<Step>)
    requires Inv(s) && IsRun(s, steps)
    ensures Inv(Run(s, steps))
    decreases |steps|
  {
    if steps != [] {
      StepKeepsInv(s, steps[0]);
      RunKeepsInv(Next(s, steps[0]), steps[1..]);
    }
  }

  /** In every run, what a subscription has written is a contiguous run of the events as published,
      without gap or duplicate, and it starts with the newest 64 that were there when the history
      was read. A subscription that has drained its channel has written exactly what was published
      until the history was read or the channel was closed, whichever came later, however it was
      closed; if the session closed it, that is all there ever was. */
  lemma DeliveryIsContiguous(steps: seq<Step>, id: nat)
    requires IsRun(INITIAL, steps) && id in Run(INITIAL, steps).subscriptions
    ensures var s := Run(INITIAL, steps);
            var sub := s.subscriptions[id];
            var first := if sub.readAt > 64 then sub.readAt - 64 else 0;
            && sub.readAt <= |s.published|
            && (sub.delivered != [] ==> IsRange(sub.delivered, s.published, first, first + |sub.delivered|))
            && (sub.phase == Ended(true) ==>
                  IsRange(sub.delivered, s.published, first, Larger(sub.readAt, sub.closedAt)))
            && (sub.channel == Closed(SessionEnd) ==> sub.closedAt == |s.published|)
  {
    assert History([]) == [];
    RunKeepsInv(INITIAL, steps);
    var s := Run(INITIAL, steps);
    assert SubscriptionOk(s.subscriptions[id], s.published, s.done);
  }

  /** An overflow closes the channel of a subscription that has 64 events yet to take. */
  lemma OverflowIff(steps: seq<Step>, id: nat, entry: Entry)
    requires IsRun(INITIAL, steps) && id in Run(INITIAL, steps).subscriptions
    requires Enabled(Run(INITIAL, steps), Publish(entry))
    ensures var s := Run(INITIAL, steps);
            var (before, after) := (s.subscriptions[id], Next(s, Publish(entry)).subscriptions[id]);
            (before.registered && !after.registered) <==>
            (before.registered && |s.published| - (before.joined + before.taken) >= 64)
  {
    assert History([]) == [];
    RunKeepsInv(INITIAL, steps);
    var s := Run(INITIAL, steps);
    assert SubscriptionOk(s.subscriptions[id], s.published, s.done);
  }

  /** The channels of the subscriptions that are registered. */
  function Channels(s: State): Subscribers {
    map id | id in s.subscriptions && s.subscriptions[id].registered :: s.subscriptions[id].queue
  }

  /** Publishing leaves the channels as the bookkeeping of module EventLog does, and closes those it
      cuts off with what they hold. */
  lemma PublishAgrees(s: State, entry: Entry)
    requires Enabled(s, Publish(entry))
    ensures var t := Next(s, Publish(entry));
            && Channels(t) == Offered(Channels(s), Event(|s.published| + 1, entry))
            && forall id | id in CutOff(Channels(s)) ::
                 && t.subscriptions[id].queue == CutOff(Channels(s))[id]
                 && t.subscriptions[id].channel == Closed(Overflow)
  {
  }

  // ------------------------------------------------------- subscriptions nobody gives up

  /** Nobody cancels the subscription, and every write of it succeeds. */
  predicate Undisturbed(steps: seq<Step>, id: nat) {
    forall i | 0 <= i < |steps| ::
      steps[i] != Advance(id, Cancel) && steps[i] != Advance(id, Replay(false)) && steps[i] != Advance(id, Take(false))
  }

  /** It goes on, and only an overflow or the end of the session closes its channel. */
  predicate GoesOn(s: State, id: nat) {
    id in s.subscriptions ==>
      var sub := s.subscriptions[id];
      !sub.cancelled && sub.phase != Ended(false) && sub.channel != Closed(Cancellation)
  }

  lemma MoveGoesOn(s: Subscription, state: State, move: Move)
    requires CanMove(s, state.done, move) && (s.registered ==> !state.done)
    requires !s.cancelled && s.phase != Ended(false) && s.channel != Closed(Cancellation)
    requires move != Cancel && move != Replay(false) && move != Take(false)
    ensures var t := Moved(s, state, move);
            !t.cancelled && t.phase != Ended(false) && t.channel != Closed(Cancellation)
  {
  }

  lemma StepGoesOn(s: State, step: Step, id: nat)
    requires Inv(s) && GoesOn(s, id) && Enabled(s, step)
    requires step != Advance(id, Cancel) && step != Advance(id, Replay(false)) && step != Advance(id, Take(false))
    ensures GoesOn(Next(s, step), id)
  {
    if id in s.subscriptions {
      assert SubscriptionOk(s.subscriptions[id], s.published, s.done);
      if step.Advance? && step.id == id {
        MoveGoesOn(s.subscriptions[id], s, step.move);
      }
    }
  }

  lemma {:induction false} RunGoesOn(s: State, steps: seq<Step>, id: nat)
    requires Inv(s) && GoesOn(s, id) && IsRun(s, steps) && Undisturbed(steps, id)
    ensures GoesOn(Run(s, steps), id)
    decreases |steps|
  {
    if steps != [] {
      StepGoesOn(s, steps[0], id);
      StepKeepsInv(s, steps[0]);
      RunGoesOn(Next(s, steps[0]), steps[1..], id);
    }
  }

  /** What a subscription does next when it is not disturbed; nothing when it has written all there
      is and its channel is open. */
  function NextMove(s: Subscription): Option<Move> {
    match s.phase
    case Subscribed => Some(ReadHistory)
    case Waiting => Some(Begin)
    case Replaying => Some(Replay(true))
    case Draining =>
      if s.queue != [] then Some(Take(true)) else if s.channel.Closed? then Some(Stop) else None
    case Ended(_) => None
  }

  /** A subscription that is not disturbed delivers: it always has a move to make, until it has
      written every event there is, or its channel was closed and is drained. */
  lemma UndisturbedDelivers(steps: seq<Step>, id: nat)
    requires IsRun(INITIAL, steps) && Undisturbed(steps, id) && id in Run(INITIAL, steps).subscriptions
    ensures var s := Run(INITIAL, steps);
            var sub := s.subscriptions[id];
            && !sub.cancelled && sub.phase != Ended(false) && sub.channel != Closed(Cancellation)
            && (NextMove(sub).Some? ==> Enabled(s, Advance(id, NextMove(sub).value)))
            && (NextMove(sub).None? ==>
                  || sub.phase == Ended(true)
                  || (sub.channel.Open?
                      && IsRange(sub.delivered, s.published, if sub.readAt > 64 then sub.readAt - 64 else 0,
                                 |s.published|)))
  {
    assert History([]) == [];
    RunGoesOn(INITIAL, steps, id);
    RunKeepsInv(INITIAL, steps);
    var s := Run(INITIAL, steps);
    assert SubscriptionOk(s.subscriptions[id], s.published, s.done);
  }

  function EntryOf(step: Step): seq<Entry> {
    if step.Publish? then [step.entry] else []
  }

  function EntriesOf(steps: seq<Step>): seq<Entry> {
    if steps == [] then [] else EntryOf(steps[0]) + EntriesOf(steps[1..])
  }

  lemma StepPublishes(s: State, step: Step, later: seq<Entry>)
    requires Enabled(s, step)
    ensures Next(s, step).published + later == s.published + (EntryOf(step) + later)
  {
    assert Next(s, step).published == s.published + EntryOf(step);
  }

  /** What was published is what the session published, in that order. */
  lemma {:induction false} PublishedInOrder(s: State, steps: seq<Step>)
    requires IsRun(s, steps)
    ensures Run(s, steps).published == s.published + EntriesOf(steps)
    decreases |steps|
  {
    if steps == [] {
      assert s.published + [] == s.published;
    } else {
      PublishedInOrder(Next(s, steps[0]), steps[1..]);
      StepPublishes(s, steps[0], EntriesOf(steps[1..]));
    }
  }
}
