/** A session's bounded bookkeeping: the history of terminal events and the count of unsupported
    sequences, against everything ever published and received. */
module EventLog {
  import opened Options

  const RETAINED := 256
  const TRACKED := 256

  /** Capacity of a subscriber's channel. */
  const CHANNEL := 64

  datatype Entry = Entry(kind: string, data: string)

  datatype Event = Event(sequence: nat, entry: Entry)

  datatype Tracked = Tracked(sequence: string, count: nat)

  // ----------------------------------------------------------------------- history

  /** Everything published, numbered from one. */
  function Numbered(published: seq<Entry>): (events: seq<Event>)
    ensures |events| == |published|
  {
    seq(|published|, i requires 0 <= i < |published| => Event(i + 1, published[i]))
  }

  function Latest<T>(s: seq<T>, n: nat): seq<T> {
    if |s| <= n then s else s[|s| - n..]
  }

  function History(published: seq<Entry>): seq<Event> {
    Latest(Numbered(published), RETAINED)
  }

  /** The events a caller who has seen `after` of them still gets. */
  function EventsSince(published: seq<Entry>, after: nat): seq<Event> {
    var retained := |History(published)|;
    var from := if after < |published| - retained then |published| - retained else after;
    if from >= |published| then [] else Numbered(published)[from..]
  }

  /** How many events between `after` and the first one returned are gone. */
  function Missed(events: seq<Event>, after: nat): int {
    if events == [] then 0 else events[0].sequence - after - 1
  }

  /** The retained events are the newest ones, up to 256, numbered without gaps and ending with the
      newest of all. */
  lemma HistoryIsNewest(published: seq<Entry>)
    ensures var h := History(published);
            && |h| == (if |published| < 256 then |published| else 256)
            && (forall i | 0 <= i < |h| ::
                  h[i].sequence == |published| - |h| + i + 1 && h[i].entry == published[|published| - |h| + i])
  {
    var h, all := History(published), Numbered(published);
    forall i | 0 <= i < |h|
      ensures h[i].sequence == |published| - |h| + i + 1 && h[i].entry == published[|published| - |h| + i]
    {
      assert h[i] == all[|published| - |h| + i];
    }
  }

  /** The events a caller still gets are the retained ones from some point on, exactly those
      numbered above what it has seen. */
  lemma SinceIsSuffix(published: seq<Entry>, after: nat) returns (skip: nat)
    ensures var h := History(published);
            && skip <= |h| && EventsSince(published, after) == h[skip..]
            && forall i | 0 <= i < |h| :: h[i].sequence > after <==> i >= skip
  {
    HistoryIsNewest(published);
    var h := History(published);
    var first := |published| - |h|;
    skip := if after <= first then 0 else if after < |published| then after - first else |h|;
    assert skip < |h| ==> h[skip..] == Numbered(published)[first + skip..];
  }

  ghost function Between(h: seq<Event>, skip: nat, i: nat): seq<Event>
    requires i <= |h|
  {
    if i <= skip then [] else h[skip..i]
  }

  lemma BetweenStep(h: seq<Event>, skip: nat, i: nat)
    requires i < |h|
    ensures Between(h, skip, i + 1) == Between(h, skip, i) + if i >= skip then [h[i]] else []
  {
  }

  lemma BetweenAll(h: seq<Event>, skip: nat)
    requires skip <= |h|
    ensures Between(h, skip, |h|) == h[skip..]
  {
  }

  /** What is missed and what is returned account for every event since `after`, exactly when there
      can have been any: when `after` is not beyond the last event. */
  lemma MissedAccountsIff(published: seq<Entry>, after: nat)
    ensures var events := EventsSince(published, after);
            && Missed(events, after) >= 0
            && (Missed(events, after) + |events| == |published| - after <==> after <= |published|)
            && (forall i | 0 <= i < |events| :: events[i].sequence == after + Missed(events, after) + i + 1)
  {
    var all := Numbered(published);
    var from := |published| - |EventsSince(published, after)|;
    assert forall i | 0 <= i < |all| :: all[i].sequence == i + 1;
    forall i | 0 <= i < |EventsSince(published, after)|
      ensures EventsSince(published, after)[i].sequence == from + i + 1
    {
      assert EventsSince(published, after)[i] == all[from + i];
    }
  }

  lemma HistoryStep(published: seq<Entry>, entry: Entry)
    ensures History(published + [entry]) ==
            var event := Event(|published| + 1, entry);
            if |History(published)| == RETAINED then History(published)[1..] + [event]
            else History(published) + [event]
  {
    assert Numbered(published + [entry]) == Numbered(published) + [Event(|published| + 1, entry)];
  }

  // ---------------------------------------------------------- unsupported sequences

  /** The distinct sequences received, in order of first appearance. */
  function Distinct(received: seq<string>): seq<string> {
    if received == [] then []
    else
      var before := Distinct(received[..|received| - 1]);
      var last := received[|received| - 1];
      if last in before then before else before + [last]
  }

  function Names(received: seq<string>): (names: seq<string>)
    ensures |names| <= TRACKED
  {
    var all := Distinct(received);
    if |all| <= TRACKED then all else all[..TRACKED]
  }

  /** The first 256 distinct sequences with how often each was received. */
  function Counted(received: seq<string>): (counts: seq<Tracked>)
    ensures |counts| == |Names(received)|
  {
    var names := Names(received);
    seq(|names|, i requires 0 <= i < |names| => Tracked(names[i], multiset(received)[names[i]]))
  }

  /** Is this sequence, received next, the first occurrence of one that will be tracked? */
  predicate Reported(received: seq<string>, sequence: string) {
    sequence !in received && |Distinct(received)| < TRACKED
  }

  lemma {:induction false} DistinctIsSet(received: seq<string>)
    ensures forall x: string :: x in Distinct(received) <==> x in received
    ensures forall i, j | 0 <= i < j < |Distinct(received)| :: Distinct(received)[i] != Distinct(received)[j]
  {
    if received != [] {
      var n := |received| - 1;
      DistinctIsSet(received[..n]);
      assert received == received[..n] + [received[n]];
    }
  }

  /** Where a sequence first appears. */
  function FirstSeen(received: seq<string>, sequence: string): (k: nat)
    requires sequence in received
    ensures k < |received|
  {
    var n := |received| - 1;
    if sequence in received[..n] then FirstSeen(received[..n], sequence) else n
  }

  lemma {:induction false} FirstSeenIsFirst(received: seq<string>, sequence: string)
    requires sequence in received
    ensures var k := FirstSeen(received, sequence);
            received[k] == sequence && sequence !in received[..k]
  {
    var n := |received| - 1;
    assert received == received[..n] + [received[n]];
    if sequence in received[..n] {
      FirstSeenIsFirst(received[..n], sequence);
      assert received[..n][..FirstSeen(received[..n], sequence)] == received[..FirstSeen(received[..n], sequence)];
    }
  }

  /** The i-th distinct sequence is the one before whose first appearance i others had been received. */
  lemma {:induction false} DistinctInOrder(received: seq<string>, i: nat)
    requires i < |Distinct(received)|
    ensures var sequence := Distinct(received)[i];
            sequence in received && |Distinct(received[..FirstSeen(received, sequence)])| == i
  {
    var n := |received| - 1;
    var before := received[..n];
    DistinctIsSet(before);
    assert received == before + [received[n]];
    if i < |Distinct(before)| {
      DistinctInOrder(before, i);
      var sequence := Distinct(before)[i];
      assert received[..FirstSeen(before, sequence)] == before[..FirstSeen(before, sequence)];
    }
  }

  /** The names tracked are those before whose first appearance fewer than 256 others had been
      received, in that order; and it is there, and nowhere else, that they are reported. */
  lemma NamesInOrder(received: seq<string>, i: nat)
    requires i < |Distinct(received)|
    ensures var sequence := Distinct(received)[i];
            && sequence in received
            && var k := FirstSeen(received, sequence);
            && received[k] == sequence && sequence !in received[..k]
            && |Distinct(received[..k])| == i
            && (sequence in Names(received) <==> i < 256)
            && (i < 256 ==> Names(received)[i] == sequence)
            && (Reported(received[..k], received[k]) <==> i < 256)
  {
    DistinctInOrder(received, i);
    DistinctIsSet(received);
    FirstSeenIsFirst(received, Distinct(received)[i]);
  }

  /** A sequence is reported exactly once if it is tracked, at its first appearance, and never if it
      is not. */
  lemma ReportedIff(received: seq<string>, j: nat)
    requires j < |received|
    ensures Reported(received[..j], received[j]) <==>
            received[j] in Names(received) && j == FirstSeen(received, received[j])
  {
    var sequence := received[j];
    DistinctIsSet(received);
    FirstSeenIsFirst(received, sequence);
    var i :| 0 <= i < |Distinct(received)| && Distinct(received)[i] == sequence;
    NamesInOrder(received, i);
    var k := FirstSeen(received, sequence);
    if k < j {
      assert received[..j][k] == sequence;
    }
  }

  lemma NamesStep(received: seq<string>, sequence: string)
    ensures Names(received + [sequence]) ==
            if Reported(received, sequence) then Names(received) + [sequence] else Names(received)
  {
    DistinctIsSet(received);
    assert (received + [sequence])[..|received|] == received;
  }

  /** A sequence is reported at most once. */
  lemma ReportedOnce(received: seq<string>, i: nat, j: nat)
    requires i < j < |received|
    requires Reported(received[..i], received[i]) && Reported(received[..j], received[j])
    ensures received[i] != received[j]
  {
    assert received[..j][i] == received[i];
  }

  lemma NameReceived(received: seq<string>, index: nat)
    requires index < |Names(received)|
    ensures Names(received)[index] in received
  {
    DistinctIsSet(received);
    assert Distinct(received)[index] in Distinct(received);
  }

  lemma NamesDiffer(received: seq<string>, i: nat, j: nat)
    requires i < |Names(received)| && j < |Names(received)| && i != j
    ensures Names(received)[i] != Names(received)[j]
  {
    DistinctIsSet(received);
  }

  lemma NewName(received: seq<string>, sequence: string)
    requires sequence !in Names(received)
    ensures |Names(received)| < TRACKED <==> Reported(received, sequence)
  {
    DistinctIsSet(received);
  }

  lemma CountAppend(received: seq<string>, sequence: string, name: string)
    ensures multiset(received + [sequence])[name] == multiset(received)[name] + if name == sequence then 1 else 0
  {
    assert multiset(received + [sequence]) == multiset(received) + multiset{sequence};
  }

  lemma CountedRepeat(received: seq<string>, index: nat)
    requires index < |Names(received)|
    ensures var sequence := Names(received)[index];
            && sequence in received
            && Counted(received + [sequence]) ==
               Counted(received)[index := Tracked(sequence, Counted(received)[index].count + 1)]
  {
    var sequence := Names(received)[index];
    NameReceived(received, index);
    NamesStep(received, sequence);
    forall i | 0 <= i < |Names(received)|
      ensures Counted(received + [sequence])[i] ==
              Tracked(Names(received)[i], Counted(received)[i].count + if i == index then 1 else 0)
    {
      CountAppend(received, sequence, Names(received)[i]);
      if i != index { NamesDiffer(received, i, index); }
    }
  }

  lemma CountedNew(received: seq<string>, sequence: string)
    requires sequence !in Names(received)
    ensures |Names(received)| < TRACKED <==> Reported(received, sequence)
    ensures Counted(received + [sequence]) ==
            if |Names(received)| < TRACKED then Counted(received) + [Tracked(sequence, 1)] else Counted(received)
  {
    NewName(received, sequence);
    NamesStep(received, sequence);
    CountAppend(received, sequence, sequence);
    forall i | 0 <= i < |Names(received)|
      ensures Counted(received + [sequence])[i] == Counted(received)[i]
    {
      assert Names(received)[i] in Names(received);
      CountAppend(received, sequence, Names(received)[i]);
    }
  }

  /** The index finds exactly the tracked sequences. */
  ghost predicate Indexed(unsupported: seq<Tracked>, index: map<string, nat>) {
    && (forall x <- index :: index[x] < |unsupported| && unsupported[index[x]].sequence == x)
    && (forall i | 0 <= i < |unsupported| :: unsupported[i].sequence in index)
  }

  lemma RecordedRepeat(received: seq<string>, index: map<string, nat>, sequence: string)
    requires Indexed(Counted(received), index) && sequence in index
    ensures !Reported(received, sequence)
    ensures var (before, i) := (Counted(received), index[sequence]);
            var after := before[i := Tracked(sequence, before[i].count + 1)];
            Counted(received + [sequence]) == after && Indexed(after, index)
  {
    CountedRepeat(received, index[sequence]);
  }

  lemma NotIndexed(received: seq<string>, index: map<string, nat>, sequence: string)
    requires Indexed(Counted(received), index) && sequence !in index
    ensures sequence !in Names(received)
  {
    forall i | 0 <= i < |Names(received)| ensures Names(received)[i] != sequence {
      assert Counted(received)[i].sequence == Names(received)[i];
    }
  }

  lemma IndexedNew(counts: seq<Tracked>, index: map<string, nat>, sequence: string)
    requires Indexed(counts, index) && sequence !in index
    ensures Indexed(counts + [Tracked(sequence, 1)], index[sequence := |counts|])
  {
  }

  lemma RecordedNew(received: seq<string>, index: map<string, nat>, sequence: string)
    requires Indexed(Counted(received), index) && sequence !in index
    ensures |Counted(received)| < TRACKED <==> Reported(received, sequence)
    ensures var (before, after) := (Counted(received), Counted(received + [sequence]));
            if |before| < TRACKED
            then after == before + [Tracked(sequence, 1)] && Indexed(after, index[sequence := |before|])
            else after == before
  {
    NotIndexed(received, index, sequence);
    CountedNew(received, sequence);
    IndexedNew(Counted(received), index, sequence);
  }

  // ------------------------------------------------------------------ subscribers

  /** What the channels of the subscribers hold, by number. */
  type Subscribers = map<nat, seq<Event>>

  /** A published event goes to every subscriber with room for it. */
  function Offered(subscribers: Subscribers, event: Event): Subscribers {
    map id | id in subscribers && |subscribers[id]| < CHANNEL :: subscribers[id] + [event]
  }

  /** The others are cut off, with what their channels hold. */
  function CutOff(subscribers: Subscribers): Subscribers {
    map id | id in subscribers && |subscribers[id]| >= CHANNEL :: subscribers[id]
  }

  // ------------------------------------------------------------------ the bookkeeping

  class Bookkeeping {
    /** Subscribers, and the channels of those that were cut off. */
    var subscribers: Subscribers
    var closed: Subscribers
    var eventSequence: nat
    var eventHistory: seq<Event>
    var unsupported: seq<Tracked>
    var unsupportedIndex: map<string, nat>
    /** Everything published and every unsupported sequence received. */
    ghost var published: seq<Entry>
    ghost var received: seq<string>

    ghost predicate Valid()
      reads this
    {
      && eventSequence == |published| && eventHistory == History(published)
      && unsupported == Counted(received) && Indexed(unsupported, unsupportedIndex)
    }

    constructor ()
      ensures Valid() && published == [] && received == []
    {
      eventSequence, eventHistory, unsupported, unsupportedIndex := 0, [], [], map[];
      published, received, subscribers, closed := [], [], map[], map[];
    }

    method PublishEvent(entry: Entry) returns (event: Event)
      requires Valid()
      modifies this
      ensures Valid() && published == old(published) + [entry] && received == old(received)
      ensures event == Event(|published|, entry)
      ensures subscribers == Offered(old(subscribers), event)
      ensures closed == old(closed) + CutOff(old(subscribers))
    {
      HistoryStep(published, entry);
      eventSequence := eventSequence + 1;
      event := Event(eventSequence, entry);
      if |eventHistory| == RETAINED {
        eventHistory := eventHistory[1..];
      }
      eventHistory := eventHistory + [event];
      published := published + [entry];
      OfferToSubscribers(event);
    }

    method OfferToSubscribers(event: Event)
      modifies this`subscribers, this`closed
      ensures subscribers == Offered(old(subscribers), event)
      ensures closed == old(closed) + CutOff(old(subscribers))
    {
      ghost var before := subscribers;
      var todo := subscribers.Keys;
      while todo != {}
        invariant todo <= before.Keys
        invariant forall id | id in before :: id in subscribers <==> id in todo || |before[id]| < CHANNEL
        invariant forall id | id in subscribers ::
          id in before && subscribers[id] == if id in todo then before[id] else before[id] + [event]
        invariant forall id | id in before && id !in todo && |before[id]| >= CHANNEL ::
          id in closed && closed[id] == before[id]
        invariant forall id | id !in before || id in todo || |before[id]| < CHANNEL ::
          (id in closed <==> id in old(closed)) && (id in closed ==> closed[id] == old(closed)[id])
      {
        var id :| id in todo;
        if |subscribers[id]| < CHANNEL {
          subscribers := subscribers[id := subscribers[id] + [event]];
        } else {
          closed := closed[id := subscribers[id]];
          subscribers := subscribers - {id};
        }
        todo := todo - {id};
      }
      assert subscribers == Offered(before, event);
      assert closed == old(closed) + CutOff(before);
    }

    method EventsAfter(sequence: nat) returns (events: seq<Event>)
      requires Valid()
      ensures events == EventsSince(published, sequence)
    {
      events := [];
      ghost var skip := SinceIsSuffix(published, sequence);
      var i := 0;
      while i < |eventHistory|
        invariant 0 <= i <= |eventHistory|
        invariant events == Between(eventHistory, skip, i)
      {
        assert eventHistory[i].sequence > sequence <==> i >= skip;
        BetweenStep(eventHistory, skip, i);
        if eventHistory[i].sequence > sequence {
          events := events + [eventHistory[i]];
        }
        i := i + 1;
      }
      BetweenAll(eventHistory, skip);
    }

    /** Counts an unsupported sequence and says whether it should be published. */
    method RecordUnsupported(sequence: string) returns (first: bool)
      requires Valid()
      modifies this
      ensures Valid() && received == old(received) + [sequence] && published == old(published)
      ensures first == Reported(old(received), sequence)
    {
      if sequence in unsupportedIndex {
        var index := unsupportedIndex[sequence];
        RecordedRepeat(received, unsupportedIndex, sequence);
        unsupported := unsupported[index := Tracked(sequence, unsupported[index].count + 1)];
        received := received + [sequence];
        return false;
      }
      RecordedNew(received, unsupportedIndex, sequence);
      received := received + [sequence];
      if |unsupported| == TRACKED {
        return false;
      }
      unsupportedIndex := unsupportedIndex[sequence := |unsupported|];
      unsupported := unsupported + [Tracked(sequence, 1)];
      return true;
    }

    /** What the MCP service reports to a caller who has seen `afterSequence` events. */
    method EventsAndMissed(afterSequence: nat) returns (events: seq<Event>, missed: int)
      requires Valid()
      ensures events == EventsSince(published, afterSequence)
      ensures missed == Missed(events, afterSequence) && missed >= 0
    {
      var retained := EventsAfter(afterSequence);
      events := [];
      var i := 0;
      while i < |retained|
        invariant 0 <= i <= |retained| && events == retained[..i]
      {
        events := events + [retained[i]];
        i := i + 1;
      }
      assert retained[..|retained|] == retained;
      missed := 0;
      if |events| > 0 {
        missed := events[0].sequence - afterSequence - 1;
      }
      MissedAccountsIff(published, afterSequence);
    }
  }

  /** What the service answers: the events, and how many before the first of them are gone. */
  datatype EventsInfo = EventsInfo(sessionId: nat, events: seq<Event>, missed: int)

  /** The MCP service's view of its sessions. */
  class Service {
    var sessions: map<nat, Bookkeeping>
    var closed: bool

    constructor ()
      ensures sessions == map[] && !closed
    {
      sessions, closed := map[], false;
    }

    /** Fails for a session that is not there, and for every session once the service is closed. */
    method Events(sessionId: nat, afterSequence: nat) returns (info: Option<EventsInfo>)
      requires forall id | id in sessions :: sessions[id].Valid()
      ensures info.None? <==> closed || sessionId !in sessions
      ensures info.Some? ==>
        var published := sessions[sessionId].published;
        var events := EventsSince(published, afterSequence);
        info.value == EventsInfo(sessionId, events, Missed(events, afterSequence)) && info.value.missed >= 0
    {
      if closed || sessionId !in sessions {
        return None;
      }
      var events, missed := sessions[sessionId].EventsAndMissed(afterSequence);
      return Some(EventsInfo(sessionId, events, missed));
    }
  }
}
