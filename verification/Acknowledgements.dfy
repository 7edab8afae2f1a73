/** Which acknowledgements retire a notification: exactly, for retransmissions, and for those that this library's
    own client sends. */
module Acknowledgements {
  import opened Coap
  import opened ObserveSpec
  import opened ObserveLaws
  import opened ObserveRuns
  import MessageIds
  import SyncSpec
  import Synchronizer

  // ---------------------------------------------------------------- the exact condition

  /** An acknowledgement retires what an observer awaits iff it carries that message id and the registered token;
      where it came from does not matter. */
  lemma AckRetiresIff(s: State, o: Observation, id: U16, token: Bytes)
    requires WellFormed(s) && o in s.observers && s.observers[o].pending.Some?
    ensures var t := Acknowledge(s, id, token);
      o in t.observers
      && (t.observers[o].pending.None? <==> s.observers[o].pending.value.id == id && s.observers[o].token == token)
  {
    assert Owns(s, o, id) <==> s.observers[o].pending.value.id == id;
    if p: Observation :| Owns(s, p, id) {
      OnlyOwnerRetired(s, id, token, p);
      if Owns(s, o, id) {
        OneOwner(s, o, p, id);
      }
    }
  }

  /** A reset takes an observer away iff it names the id that is awaited and comes from the registered address. */
  lemma ResetRemovesIff(s: State, o: Observation, id: U16, from: Option<SocketAddr>)
    requires WellFormed(s) && o in s.observers && s.observers[o].pending.Some?
    ensures o !in ResetNotification(s, id, from).observers
            <==> s.observers[o].pending.value.id == id && from == Some(s.observers[o].responder)
  {
    assert Owns(s, o, id) <==> s.observers[o].pending.value.id == id;
    if p: Observation :| Owns(s, p, id) {
      OnlyOwnerRemoved(s, id, from, p);
      if Owns(s, o, id) {
        OneOwner(s, o, p, id);
      }
    }
  }

  lemma {:induction false} ResendIsIn(s: State, order: seq<Observation>, o: Observation)
    requires (forall q | q in order :: Waits(s, q)) && o in order && Retries(s, o)
    ensures Shows(s, o) && NotificationTo(s, o, s.lastId) in Resends(s, order)
  {
    hide NotificationTo;
    var front, last := order[..|order| - 1], order[|order| - 1];
    assert last in order && Waits(s, o);
    if o != last {
      assert o in front;
      ResendIsIn(s, front, o);
    }
  }

  /** A tick resends what an observer awaits under the registry's current id, not the one that is awaited. Answering
      it, by an acknowledgement or a reset, has its effect on the observer iff the two are the same: nobody was
      notified since. */
  lemma AnswerToResendIff(s: State, order: seq<Observation>, o: Observation)
    requires WellFormed(s) && Enumerates(order, Unacknowledged(s)) && Retries(s, o)
    ensures forall q | q in order :: Waits(s, q)
    ensures Shows(s, o) && s.observers[o].pending.Some?
    ensures var (t, p) := (TickAll(s, order), NotificationTo(s, o, s.lastId));
      var current := s.observers[o].pending.value.id == s.lastId;
      && s.outbox <= t.outbox && p in t.outbox[|s.outbox|..]
      && o in Acknowledge(t, p.id, p.token).observers
      && (Acknowledge(t, p.id, p.token).observers[o].pending.None? <==> current)
      && (o !in ResetNotification(t, p.id, Some(p.to)).observers <==> current)
  {
    hide WellFormed, TickAll, Resends;
    TickAges(s, order);
    TickAllSends(s, order);
    TickKeepsWellFormed(s, order);
    assert o in Unacknowledged(s) && o in order;
    ResendIsIn(s, order, o);
    var t := TickAll(s, order);
    AckRetiresIff(t, o, s.lastId, s.observers[o].token);
    ResetRemovesIff(t, o, s.lastId, Some(s.observers[o].responder));
  }

  // ---------------------------------------------------------------- the input

  // Two clients with the same token, each notified once of its own resource, and a tick.
  function Crossing(p: string, q: string, first: SocketAddr, second: SocketAddr, token: Bytes,
                    payload: Bytes): seq<Event> {
    var (a, b) := (Observation(first.text, p), Observation(second.text, q));
    MessageIds.Beginning(p, q, first, second, token, payload) + [PutRequest(q, payload, [b]), Tick([a, b])]
  }

  // `a` awaits id 1 and `b` id 2, the last one.
  ghost predicate BothWait(s: State, a: Observation, b: Observation, token: Bytes) {
    && WellFormed(s) && a != b && s.lastId == 2 && s.observers.Keys == {a, b}
    && s.observers[a].token == token && s.observers[b].token == token
    && s.observers[a].pending == Some(Pending(1, 1)) && s.observers[b].pending == Some(Pending(2, 1))
  }

  lemma OnePutEach(s: State, a: Observation, b: Observation, token: Bytes, payload: Bytes)
    requires MessageIds.Ready(s, a, b) && s.observers.Keys == {a, b}
    requires s.observers[a].token == token && s.observers[b].token == token
    ensures var (one, two) := (PutRequest(a.path, payload, [a]), PutRequest(b.path, payload, [b]));
      && Executable(s, [one, two]) && BothWait(Run(s, [one, two]), a, b, token)
      && Run(s, [one, two]).observers[a].responder == s.observers[a].responder
  {
    hide WellFormed, Put, IdAfter, Enabled, MessageIds.Ready, MessageIds.Wrapping, Executable, Run;
    var one, two := PutRequest(a.path, payload, [a]), PutRequest(b.path, payload, [b]);
    FirstIds();
    ReadyIsApart(s, a, b);
    MessageIds.FirstNotification(s, a, b, payload);
    OnePut(s, a, payload);
    var t := Step(s, one);
    MessageIds.OneTurn(t, a, b, 0, payload);
    OnePut(t, b, payload);
    var u := Step(t, two);
    MessageIds.NothingLeft(u);
    assert [one, two][1..] == [two] && [two][1..] == [];
    MessageIds.Unfold(t, [two]);
    MessageIds.Unfold(s, [one, two]);
  }

  lemma ReadyIsApart(s: State, a: Observation, b: Observation)
    requires MessageIds.Ready(s, a, b)
    ensures WellFormed(s) && a != b && s.lastId == 0
  {
  }

  // A PUT to a path with one observer: that one awaits the next id, and all others stay as they are.
  lemma OnePut(s: State, o: Observation, payload: Bytes)
    requires WellFormed(s) && Enabled(s, PutRequest(o.path, payload, [o]))
    ensures o in s.observers && forall p | p in s.observers && p.path == o.path :: p == o
    ensures var t := Step(s, PutRequest(o.path, payload, [o]));
      && WellFormed(t) && t.lastId == IdAfter(s.lastId, 1) && t.observers.Keys == s.observers.Keys
      && t.observers[o] == s.observers[o].(pending := Some(Pending(t.lastId, 1)))
      && forall p | p in s.observers && p != o :: t.observers[p] == s.observers[p]
  {
    hide WellFormed, Put, IdAfter, SafeIds;
    var put := PutRequest(o.path, payload, [o]);
    StepKeepsWellFormed(s, put);
    PutNotifiesOnlyObservers(s, o.path, payload, [o]);
    PutNotifiesEachObserver(s, o.path, payload, [o], 0);
    PutCounts(s, o.path, payload, [o]);
    forall p | p in s.observers && p.path == o.path ensures p == o {
      assert p in ObserversOf(s, o.path);
    }
  }

  lemma PutCounts(s: State, path: string, payload: Bytes, order: seq<Observation>)
    requires forall o | o in order :: o in s.observers && o.path == path
    requires forall o | o in order :: Shows(RecordVersion(s, path, payload), o)
    ensures Put(s, path, payload, order).lastId == IdAfter(s.lastId, |order|)
  {
  }

  lemma FirstIds()
    ensures IdAfter(0, 1) == 1 && IdAfter(1, 1) == 2 && IdAfter(1, 0) == 1
  {
    IdAfterClosedForm(0, 1);
    IdAfterClosedForm(1, 1);
    IdAfterClosedForm(1, 0);
  }

  // After the tick both still wait, and `a` was sent its notification under the id of `b`.
  lemma TickCrosses(s: State, a: Observation, b: Observation, token: Bytes)
    requires BothWait(s, a, b, token)
    ensures Enabled(s, Tick([a, b]))
    ensures var t := Step(s, Tick([a, b]));
      && WellFormed(t) && s.outbox <= t.outbox
      && (exists p :: p in t.outbox[|s.outbox|..] && p.to == s.observers[a].responder && p.path == a.path
                      && p.mtype == Confirmable && p.id == 2 && p.token == token)
      && Owns(t, a, 1) && Owns(t, b, 2) && t.observers[b].token == token
  {
    hide WellFormed, TickAll;
    var order := [a, b];
    assert Enumerates(order, Unacknowledged(s)) by {
      assert Unacknowledged(s) == {a, b};
    }
    TickAges(s, order);
    TickKeepsWellFormed(s, order);
    AnswerToResendIff(s, order, a);
    var p := NotificationTo(s, a, s.lastId);
    assert p in TickAll(s, order).outbox[|s.outbox|..] && p.id == 2;
    assert a in s.observers && b in s.observers;
  }

  /** The input: observers of two resources that happen to use the same token, as clients may. The first is resent
      its notification under the id that the second awaits; its acknowledgement of that packet retires the second's
      notification and leaves its own. */
  lemma AcknowledgementsCross(p: string, q: string, first: SocketAddr, second: SocketAddr, token: Bytes,
                              payload: Bytes)
    requires p != q
    ensures var events := Crossing(p, q, first, second, token, payload);
      var (a, b) := (Observation(first.text, p), Observation(second.text, q));
      && Executable(Initial, events)
      && var s := Run(Initial, events);
         && (exists resent :: resent in s.outbox && resent.to == first && resent.path == p
                              && resent.mtype == Confirmable && resent.id == 2 && resent.token == token)
         && Owns(s, a, 1) && Owns(s, b, 2)
         && var t := Acknowledge(s, 2, token);
            Owns(t, a, 1) && b in t.observers && t.observers[b].pending.None?
  {
    hide Executable, Run, WellFormed, MessageIds.Ready, Enabled, TickAll;
    var a, b := Observation(first.text, p), Observation(second.text, q);
    var beginning := MessageIds.Beginning(p, q, first, second, token, payload);
    MessageIds.GetReady(p, q, first, second, token, payload);
    var s := Run(Initial, beginning[..4]);
    var puts := [PutRequest(p, payload, [a]), PutRequest(q, payload, [b])];
    OnePutEach(s, a, b, token, payload);
    var t := Run(s, puts);
    TickCrosses(t, a, b, token);
    var tick := Tick([a, b]);
    var u := Step(t, tick);
    MessageIds.NothingLeft(u);
    MessageIds.Unfold(t, [tick]);
    MessageIds.RunsOn(Initial, beginning[..4], puts);
    MessageIds.RunsOn(Initial, beginning[..4] + puts, [tick]);
    assert beginning[..4] + puts + [tick] == Crossing(p, q, first, second, token, payload);
    AckRetiresIff(u, a, 2, token);
    AckRetiresIff(u, b, 2, token);
  }

  // ---------------------------------------------------------------- this library's own client

  // Every observer has a token.
  ghost predicate AllNamed(s: State) {
    forall o | o in s.observers :: s.observers[o].token != []
  }

  // Registrations come with a token, as Client.CoAPClient.RegisterPacket sends them.
  predicate RegisterNamed(events: seq<Event>) {
    forall i | 0 <= i < |events| && events[i].RegisterRequest? :: events[i].token != []
  }

  // An acknowledgement without a token, as Synchronizer.MakeAck makes it.
  predicate IsUnnamedAck(e: Event) {
    e.AckMessage? && e.token == []
  }

  lemma StepKeepsNamed(s: State, e: Event)
    requires WellFormed(s) && Enabled(s, e) && AllNamed(s) && (e.RegisterRequest? ==> e.token != [])
    ensures AllNamed(Step(s, e))
  {
    hide WellFormed, Enabled, Step;
    RegistryIsAPlainMap(s, e);
    var t := Step(s, e);
    forall o | o in t.observers ensures t.observers[o].token != [] {
      assert o in View(t) && View(t)[o].0 == t.observers[o].token;
      assert o in View(s) ==> View(s)[o].0 != [];
    }
  }

  lemma {:induction false} RunKeepsNamed(s: State, events: seq<Event>)
    requires Executable(s, events) && AllNamed(s) && RegisterNamed(events)
    ensures AllNamed(Run(s, events))
    decreases |events|
  {
    hide WellFormed, Enabled, AllNamed, Step;
    if events != [] {
      assert events[0].RegisterRequest? ==> events[0].token != [];
      StepKeepsNamed(s, events[0]);
      RunKeepsNamed(Step(s, events[0]), events[1..]);
    }
  }

  lemma UnnamedAckIsIdle(s: State, id: U16)
    requires AllNamed(s)
    ensures Acknowledge(s, id, []) == s
  {
  }

  // A packet of the registry as the client's receive loop gets it.
  function Arrived(p: Sent): SyncSpec.Packet {
    SyncSpec.Packet(p.mtype, true, p.id, p.token, MessageOf(p).payload)
  }

  /** This library's client acknowledges every confirmable notification, and its acknowledgement retires nothing: in
      any run whose registrations carry a token, as its own do, it leaves the registry as it is. */
  lemma OwnAckRetiresNothing(events: seq<Event>, i: nat)
    requires Executable(Initial, events) && RegisterNamed(events) && i < |Run(Initial, events).outbox|
    ensures var s := Run(Initial, events);
      var ack := Synchronizer.ParseForAck(Arrived(s.outbox[i]));
      && (ack.Some? <==> s.outbox[i].mtype.Confirmable?)
      && (ack.Some? ==> ack.value.id == s.outbox[i].id && Acknowledge(s, ack.value.id, ack.value.token) == s)
  {
    RunKeepsNamed(Initial, events);
    UnnamedAckIsIdle(Run(Initial, events), Run(Initial, events).outbox[i].id);
  }

  function WithoutUnnamedAcks(events: seq<Event>): seq<Event> {
    if events == [] then []
    else (if IsUnnamedAck(events[0]) then [] else [events[0]]) + WithoutUnnamedAcks(events[1..])
  }

  /** Over whole runs: leaving its acknowledgements out makes no difference to anything. */
  lemma {:induction false} OwnAcksMakeNoDifference(s: State, events: seq<Event>)
    requires Executable(s, events) && AllNamed(s) && RegisterNamed(events)
    ensures Executable(s, WithoutUnnamedAcks(events))
    ensures Run(s, WithoutUnnamedAcks(events)) == Run(s, events)
    decreases |events|
  {
    hide WellFormed, Enabled, AllNamed;
    if events != [] {
      assert events[0].RegisterRequest? ==> events[0].token != [];
      StepKeepsNamed(s, events[0]);
      OwnAcksMakeNoDifference(Step(s, events[0]), events[1..]);
      var rest := WithoutUnnamedAcks(events[1..]);
      if IsUnnamedAck(events[0]) {
        UnnamedAckIsIdle(s, events[0].id);
        assert [] + rest == rest;
      } else {
        assert WithoutUnnamedAcks(events) == [events[0]] + rest;
        assert ([events[0]] + rest)[1..] == rest;
      }
    }
  }

  ghost predicate OnlyTicksAndOwnAcks(events: seq<Event>) {
    forall i | 0 <= i < |events| :: events[i].Tick? || IsUnnamedAck(events[i])
  }

  function Ticks(events: seq<Event>): nat {
    if events == [] then 0 else (if events[0].Tick? then 1 else 0) + Ticks(events[1..])
  }

  lemma {:induction false} OnlyTicksRemain(events: seq<Event>)
    requires OnlyTicksAndOwnAcks(events)
    ensures OnlyTicks(WithoutUnnamedAcks(events)) && |WithoutUnnamedAcks(events)| == Ticks(events)
  {
    if events != [] {
      OnlyTicksRemain(events[1..]);
    }
  }

  /** So a notification to this library's client is resent to the end, however often it is acknowledged: in k ticks,
      min(k, 11 - t) times if it was tried t times. */
  lemma AcknowledgedAndResentAnyway(s: State, events: seq<Event>, o: Observation)
    requires Executable(s, events) && AllNamed(s) && OnlyTicksAndOwnAcks(events) && o in s.observers
    ensures CountFor(Run(s, events).outbox, o) == CountFor(s.outbox, o) + Remaining(s.observers[o], Ticks(events))
  {
    hide Executable, Run, AllNamed, CountFor, Remaining;
    OnlyTicksRemain(events);
    OwnAcksMakeNoDifference(s, events);
    QuietResends(s, WithoutUnnamedAcks(events), o);
  }
}
