/** What the Observe registry promises: laws of single transitions and of whole runs. */
module ObserveLaws {
  import opened Coap
  import opened ObserveSpec

  // ---------------------------------------------------------------- message ids

  lemma {:induction false} IdAfterClosedForm(id: U16, count: nat)
    ensures IdAfter(id, count) == (id + count) % 0x1_0000
  {
    if count > 0 {
      var x := id + (count - 1);
      IdAfterClosedForm(id, count - 1);
      SuccessorModulo(x);
      assert x + 1 == id + count;
    }
  }

  lemma SuccessorModulo(x: nat)
    ensures (x + 1) % 0x1_0000 == if x % 0x1_0000 == 0xFFFF then 0 else x % 0x1_0000 + 1
  {
  }

  lemma IdsAreDistinct(id: U16, i: nat, j: nat)
    requires i < j < i + 0x1_0000
    ensures IdAfter(id, i) != IdAfter(id, j)
  {
    IdAfterClosedForm(id, i);
    IdAfterClosedForm(id, j);
  }

  // ---------------------------------------------------------------- the invariant

  // Changing nothing but one pending field, to an id that nobody else owns, keeps the invariant.
  lemma UpdateKeepsWellFormed(s: State, t: State, o: Observation)
    requires WellFormed(s) && o in s.observers
    requires t.versions == s.versions
    requires exists p: Option<Pending> :: t.observers == s.observers[o := s.observers[o].(pending := p)]
    requires t.observers[o].pending.Some? ==>
      var p := t.observers[o].pending.value;
      1 <= p.tries <= MAX_TRIES + 1 && forall q | Owns(s, q, p.id) :: q == o
    ensures WellFormed(t)
  {
    assert Shows(s, o);
    forall q | q in t.observers ensures Shows(t, q) {
      assert Shows(s, q);
    }
    forall q, r, id | Owns(t, q, id) && Owns(t, r, id) ensures q == r {
      assert q == o || Owns(s, q, id);
      assert r == o || Owns(s, r, id);
    }
  }

  lemma RemovalKeepsWellFormed(s: State, o: Observation)
    requires WellFormed(s)
    ensures WellFormed(Removed(s, o))
  {
    var t := Removed(s, o);
    forall q | q in t.observers ensures Shows(t, q) {
      assert Shows(s, q);
    }
    forall q, r, id | Owns(t, q, id) && Owns(t, r, id) ensures q == r {
      assert Owns(s, q, id) && Owns(s, r, id);
    }
  }

  lemma RegisterKeepsWellFormed(s: State, responder: SocketAddr, path: string, token: Bytes,
                                preferred: Option<nat>, reply: Option<ReplyTemplate>)
    requires WellFormed(s) && (preferred.Some? ==> ValidBlockSize(preferred.value))
    ensures WellFormed(Register(s, responder, path, token, preferred, reply))
  {
    var t := Register(s, responder, path, token, preferred, reply);
    var o := Observation(responder.text, path);
    forall q | q in t.observers && q != o ensures Shows(t, q) {
      assert q in s.observers && Shows(s, q);
    }
    if path !in s.versions {
      forall q | q in t.observers ensures Shows(t, q) {
        assert Shows(s, q);
      }
    }
    forall q, r, id | Owns(t, q, id) && Owns(t, r, id) ensures q == r {
      assert Owns(s, q, id) && Owns(s, r, id);
    }
  }

  lemma RecordKeepsWellFormed(s: State, path: string, payload: Bytes)
    requires WellFormed(s)
    ensures WellFormed(RecordVersion(s, path, payload))
  {
    var t := RecordVersion(s, path, payload);
    forall q | q in t.observers ensures Shows(t, q) {
      assert Shows(s, q);
    }
    forall q, r, id | Owns(t, q, id) && Owns(t, r, id) ensures q == r {
      assert Owns(s, q, id) && Owns(s, r, id);
    }
  }

  // Where a pending id comes from after a notification round.
  lemma OwnerAfterRound(s: State, order: seq<Observation>, o: Observation, id: U16) returns (i: nat)
    requires Distinct(order) && forall o | o in order :: Shows(s, o)
    requires Owns(NotifyAll(s, order), o, id)
    ensures if o in order then i < |order| && order[i] == o && id == IdAfter(s.lastId, i + 1)
            else Owns(s, o, id)
  {
    i := 0;
    if o in order {
      i :| 0 <= i < |order| && order[i] == o;
      NotifiedRegistration(s, order, i);
    } else {
      assert o in s.observers.Keys;
    }
  }

  lemma RoundKeepsWellFormed(s: State, order: seq<Observation>)
    requires WellFormed(s) && Distinct(order) && forall o | o in order :: o in s.observers
    requires SafeIds(s, order)
    ensures forall o | o in order :: Shows(s, o)
    ensures WellFormed(NotifyAll(s, order))
  {
    forall o | o in order ensures Shows(s, o) {
      assert o in s.observers;
    }
    var t := NotifyAll(s, order);
    forall o | o in t.observers
      ensures o in s.observers && Shows(t, o)
      ensures t.observers[o].(pending := None) == s.observers[o].(pending := None)
      ensures t.observers[o].pending.Some? ==> 1 <= t.observers[o].pending.value.tries <= MAX_TRIES + 1
    {
      assert o in s.observers.Keys && Shows(s, o);
      if o in order {
        var i :| 0 <= i < |order| && order[i] == o;
        NotifiedRegistration(s, order, i);
      }
    }
    forall q, r, id | Owns(t, q, id) && Owns(t, r, id) ensures q == r {
      var i := OwnerAfterRound(s, order, q, id);
      var j := OwnerAfterRound(s, order, r, id);
      if q in order && r in order {
        if i != j {
          IdsAreDistinct(s.lastId, if i < j then i + 1 else j + 1, if i < j then j + 1 else i + 1);
        }
      } else if q in order {
        assert SafeAt(s, order, i) && OwnsTurn(s, r, i);
      } else if r in order {
        assert SafeAt(s, order, j) && OwnsTurn(s, q, j);
      }
    }
  }

  // Recording a PUT changes neither registrations nor ids.
  lemma RecordKeepsIds(s: State, path: string, payload: Bytes, order: seq<Observation>)
    ensures SafeIds(RecordVersion(s, path, payload), order) <==> SafeIds(s, order)
  {
    var t := RecordVersion(s, path, payload);
    forall i | 0 <= i < |order| ensures SafeAt(t, order, i) <==> SafeAt(s, order, i) {
      assert forall p :: OwnsTurn(t, p, i) <==> OwnsTurn(s, p, i);
    }
  }

  lemma PutKeepsWellFormed(s: State, path: string, payload: Bytes, order: seq<Observation>)
    requires WellFormed(s) && Enumerates(order, ObserversOf(s, path)) && SafeIds(s, order)
    ensures forall o | o in order :: o in s.observers && o.path == path
    ensures WellFormed(Put(s, path, payload, order))
  {
    forall o | o in order ensures o in s.observers && o.path == path {
      assert o in ObserversOf(s, path);
    }
    RecordKeepsWellFormed(s, path, payload);
    RecordKeepsIds(s, path, payload, order);
    RoundKeepsWellFormed(RecordVersion(s, path, payload), order);
  }

  // A tick ages every registration that has something pending, and no other.
  lemma TickAges(s: State, order: seq<Observation>)
    requires WellFormed(s) && Enumerates(order, Unacknowledged(s))
    ensures forall o | o in order :: Waits(s, o)
    ensures TickAll(s, order).observers.Keys == s.observers.Keys
    ensures forall o | o in s.observers :: TickAll(s, order).observers[o] == Aged(s.observers[o])
  {
    forall o | o in order ensures Waits(s, o) {
      assert o in Unacknowledged(s);
    }
    forall o | o in s.observers ensures TickAll(s, order).observers[o] == Aged(s.observers[o]) {
      if o in order {
        TickedRegistration(s, order, o);
      } else {
        assert o !in Unacknowledged(s);
      }
    }
  }

  lemma AgeingKeepsWellFormed(s: State, t: State)
    requires WellFormed(s) && t.versions == s.versions && t.observers.Keys == s.observers.Keys
    requires forall o | o in s.observers :: t.observers[o] == Aged(s.observers[o])
    ensures WellFormed(t)
  {
    forall o | o in t.observers ensures o in s.observers && Shows(t, o) {
      assert o in s.observers.Keys && Shows(s, o);
    }
    forall q, r, id | Owns(t, q, id) && Owns(t, r, id) ensures q == r {
      assert Owns(s, q, id) && Owns(s, r, id);
    }
  }

  lemma TickKeepsWellFormed(s: State, order: seq<Observation>)
    requires WellFormed(s) && Enumerates(order, Unacknowledged(s))
    ensures forall o | o in order :: Waits(s, o)
    ensures WellFormed(TickAll(s, order))
  {
    TickAges(s, order);
    AgeingKeepsWellFormed(s, TickAll(s, order));
  }

  lemma OneOwner(s: State, o: Observation, p: Observation, id: U16)
    requires WellFormed(s) && Owns(s, o, id) && Owns(s, p, id)
    ensures o == p
  {
  }

  lemma AcknowledgeKeepsWellFormed(s: State, id: U16, token: Bytes)
    requires WellFormed(s)
    ensures WellFormed(Acknowledge(s, id, token))
  {
    if o: Observation :| Owns(s, o, id) && Acknowledge(s, id, token) != s {
      var p: Observation :| Owns(s, p, id) && Acknowledge(s, id, token) == Retired(s, p);
      assert Retired(s, p).observers == s.observers[p := s.observers[p].(pending := None)];
      UpdateKeepsWellFormed(s, Retired(s, p), p);
    }
  }

  lemma ResetKeepsWellFormed(s: State, id: U16, source: Option<SocketAddr>)
    requires WellFormed(s)
    ensures WellFormed(ResetNotification(s, id, source))
  {
    if ResetNotification(s, id, source) != s {
      var p: Observation :| ResetNotification(s, id, source) == Removed(s, p);
      RemovalKeepsWellFormed(s, p);
    }
  }

  lemma OwnerIsNext(s: State, order: seq<Observation>, n: nat, p: Observation)
    requires SafeIds(s, order) && n < |order| && OwnsTurn(s, p, n) && p !in order[..n]
    ensures p == order[n]
  {
    assert SafeAt(s, order, n) && order[..n + 1] == order[..n] + [order[n]];
  }

  // Whoever had a turn awaits the id of that turn, not the next one.
  lemma NotifiedOwnsOther(s: State, front: seq<Observation>, p: Observation)
    requires Distinct(front) && (forall o | o in front :: Shows(s, o)) && |front| < 0x1_0000 && p in front
    ensures !Owns(NotifyAll(s, front), p, IdAfter(s.lastId, |front| + 1))
  {
    hide NotifyAll, IdAfter, Shows, Distinct;
    var i :| 0 <= i < |front| && front[i] == p;
    NotifiedRegistration(s, front, i);
    IdsAreDistinct(s.lastId, i + 1, |front| + 1);
  }

  lemma UnnotifiedOwnsSame(s: State, front: seq<Observation>, p: Observation, id: U16)
    requires (forall o | o in front :: Shows(s, o)) && p !in front && Owns(NotifyAll(s, front), p, id)
    ensures Owns(s, p, id)
  {
    assert p in s.observers.Keys;
  }

  // In the middle of a round, the next id is pending for nobody but the one about to be notified.
  lemma NextIdIsSafe(s: State, order: seq<Observation>, n: nat, p: Observation)
    requires Distinct(order) && (forall o | o in order :: Shows(s, o))
    requires SafeIds(s, order) && n < |order|
    ensures forall o | o in order[..n] :: Shows(s, o)
    ensures Owns(NotifyAll(s, order[..n]), p, IdAfter(s.lastId, n + 1)) ==> p == order[n]
  {
    hide NotifyAll, Owns, IdAfter, Shows, SafeAt;
    var front := order[..n];
    assert forall o | o in front :: o in order;
    if p in front {
      NotifiedOwnsOther(s, front, p);
    } else if Owns(NotifyAll(s, front), p, IdAfter(s.lastId, n + 1)) {
      UnnotifiedOwnsSame(s, front, p, IdAfter(s.lastId, n + 1));
      OwnerIsNext(s, order, n, p);
    }
  }

  /** The invariant that keeps every pending id with exactly one registration, every registration on
      an existing resource, and every retry counter within 1 to 11, survives every enabled event. */
  lemma StepKeepsWellFormed(s: State, e: Event)
    requires WellFormed(s) && Enabled(s, e)
    ensures WellFormed(Step(s, e))
  {
    match e
    case RegisterRequest(responder, path, token, preferred, reply) =>
      RegisterKeepsWellFormed(s, responder, path, token, preferred, reply);
    case DeregisterRequest(source, path, token) =>
      RemovalKeepsWellFormed(s, Observation(source.text, path));
    case PutRequest(path, payload, order) =>
      PutKeepsWellFormed(s, path, payload, order);
    case AckMessage(id, token) =>
      AcknowledgeKeepsWellFormed(s, id, token);
    case ResetMessage(id, source) =>
      ResetKeepsWellFormed(s, id, source);
    case Tick(order) =>
      TickKeepsWellFormed(s, order);
    case OtherRequest =>
  }

  // ---------------------------------------------------------------- the registry is a plain map

  // Who observes what, with which token and block preference.
  ghost function View(s: State): map<Observation, (Bytes, Option<nat>)> {
    map o | o in s.observers :: (s.observers[o].token, s.observers[o].blockSize)
  }

  /** The plain map after an event: a registration on an existing resource upserts, a deregistration
      needs the registered token, a reset needs a pending id and the registered source. */
  ghost function PlainStep(s: State, e: Event): map<Observation, (Bytes, Option<nat>)> {
    var view := View(s);
    match e
    case RegisterRequest(responder, path, token, preferred, _) =>
      if path in s.versions then view[Observation(responder.text, path) := (token, preferred)] else view
    case DeregisterRequest(source, path, token) =>
      var o := Observation(source.text, path);
      if o in view && view[o].0 == token then view - {o} else view
    case ResetMessage(id, from) =>
      view - set o | o in s.observers && Owns(s, o, id) && from == Some(s.observers[o].responder)
    case _ => view
  }

  lemma RoundKeepsView(s: State, order: seq<Observation>)
    requires Distinct(order) && forall o | o in order :: Shows(s, o)
    ensures View(NotifyAll(s, order)) == View(s)
  {
    var t := NotifyAll(s, order);
    forall o | o in s.observers
      ensures o in t.observers && t.observers[o].(pending := None) == s.observers[o].(pending := None)
    {
      assert o in t.observers.Keys;
      if o in order {
        var i :| 0 <= i < |order| && order[i] == o;
        NotifiedRegistration(s, order, i);
      }
    }
    assert View(t).Keys == t.observers.Keys == View(s).Keys;
  }

  lemma AcknowledgeKeepsView(s: State, id: U16, token: Bytes)
    ensures View(Acknowledge(s, id, token)) == View(s)
  {
    var t := Acknowledge(s, id, token);
    if t != s {
      var p: Observation :| p in s.observers && t == Retired(s, p);
      assert View(t).Keys == View(s).Keys;
    }
  }

  lemma ResetView(s: State, id: U16, from: Option<SocketAddr>)
    requires WellFormed(s)
    ensures View(ResetNotification(s, id, from)) == PlainStep(s, ResetMessage(id, from))
  {
    var gone := set o | o in s.observers && Owns(s, o, id) && from == Some(s.observers[o].responder);
    if p: Observation :| Owns(s, p, id) {
      OnlyOwnerRemoved(s, id, from, p);
      forall o | o in gone ensures o == p {
        OneOwner(s, o, p, id);
      }
      assert gone == if from == Some(s.observers[p].responder) then {p} else {};
    } else {
      assert gone == {};
    }
  }

  lemma OnlyOwnerRemoved(s: State, id: U16, from: Option<SocketAddr>, p: Observation)
    requires WellFormed(s) && Owns(s, p, id)
    ensures ResetNotification(s, id, from)
         == if from == Some(s.observers[p].responder) then Removed(s, p) else s
  {
  }

  lemma PutKeepsView(s: State, path: string, payload: Bytes, order: seq<Observation>)
    requires WellFormed(s) && Enumerates(order, ObserversOf(s, path))
    ensures forall o | o in order :: o in s.observers && o.path == path
    ensures View(Put(s, path, payload, order)) == View(s)
  {
    ObserversShow(s, path, payload, order);
    var r := RecordVersion(s, path, payload);
    RoundKeepsView(r, order);
    assert View(r) == View(s);
  }

  lemma TickKeepsView(s: State, order: seq<Observation>)
    requires WellFormed(s) && Enumerates(order, Unacknowledged(s))
    ensures forall o | o in order :: Waits(s, o)
    ensures View(TickAll(s, order)) == View(s)
  {
    TickAges(s, order);
    assert View(TickAll(s, order)).Keys == View(s).Keys;
  }

  lemma RegisterView(s: State, responder: SocketAddr, path: string, token: Bytes, preferred: Option<nat>,
                     reply: Option<ReplyTemplate>)
    requires WellFormed(s)
    ensures View(Register(s, responder, path, token, preferred, reply))
         == if path in s.versions then View(s)[Observation(responder.text, path) := (token, preferred)] else View(s)
  {
  }

  lemma DeregisterView(s: State, source: SocketAddr, path: string, token: Bytes)
    ensures View(Deregister(s, source, path, token)) == PlainStep(s, DeregisterRequest(source, path, token))
  {
  }

  lemma OnlyOwnerRetired(s: State, id: U16, token: Bytes, p: Observation)
    requires WellFormed(s) && Owns(s, p, id)
    ensures Acknowledge(s, id, token) == if s.observers[p].token == token then Retired(s, p) else s
  {
  }

  /** The registry refines the plain map: every event changes it exactly as `PlainStep` says. */
  lemma RegistryIsAPlainMap(s: State, e: Event)
    requires WellFormed(s) && Enabled(s, e)
    ensures View(Step(s, e)) == PlainStep(s, e)
  {
    match e
    case RegisterRequest(responder, path, token, preferred, reply) =>
      RegisterView(s, responder, path, token, preferred, reply);
    case DeregisterRequest(source, path, token) =>
      DeregisterView(s, source, path, token);
    case PutRequest(path, payload, order) =>
      PutKeepsView(s, path, payload, order);
    case AckMessage(id, token) =>
      AcknowledgeKeepsView(s, id, token);
    case ResetMessage(id, source) =>
      ResetView(s, id, source);
    case Tick(order) =>
      TickKeepsView(s, order);
    case OtherRequest =>
  }

  // ---------------------------------------------------------------- what a PUT sends

  lemma ObserversShow(s: State, path: string, payload: Bytes, order: seq<Observation>)
    requires WellFormed(s) && Enumerates(order, ObserversOf(s, path))
    ensures forall o | o in order :: o in s.observers && o.path == path
    ensures forall o | o in order :: Shows(RecordVersion(s, path, payload), o)
  {
    forall o | o in order
      ensures o in s.observers && o.path == path && Shows(RecordVersion(s, path, payload), o)
    {
      assert o in ObserversOf(s, path) && Shows(s, o);
    }
  }

  ghost function VersionsOf(s: State, path: string): seq<Bytes> {
    if path in s.versions then s.versions[path] else []
  }

  /** A PUT sends as many packets as its path has observers, and touches only their registrations. */
  lemma PutNotifiesOnlyObservers(s: State, path: string, payload: Bytes, order: seq<Observation>)
    requires WellFormed(s) && Enumerates(order, ObserversOf(s, path))
    ensures forall o | o in order :: o in s.observers && o.path == path
    ensures var t := Put(s, path, payload, order);
      && t.versions == s.versions[path := VersionsOf(s, path) + [payload]]
      && |t.outbox| == |s.outbox| + |ObserversOf(s, path)| && t.outbox[..|s.outbox|] == s.outbox
      && t.observers.Keys == s.observers.Keys
      && (forall o | o in s.observers && o.path != path :: t.observers[o] == s.observers[o])
  {
    ObserversShow(s, path, payload, order);
    NotifyAllSends(RecordVersion(s, path, payload), order);
    EnumerationLength(order, ObserversOf(s, path));
  }

  lemma RoundAt(s: State, order: seq<Observation>, i: nat)
    requires Distinct(order) && i < |order| && forall o | o in order :: Shows(s, o)
    ensures order[i] in order && Shows(s, order[i])
    ensures var t, id := NotifyAll(s, order), IdAfter(s.lastId, i + 1);
      && |t.outbox| == |s.outbox| + |order|
      && t.outbox[|s.outbox| + i] == NotificationTo(s, order[i], id)
      && t.observers[order[i]] == s.observers[order[i]].(pending := Some(Pending(id, 1)))
  {
    NotifyAllSends(s, order);
    NotifiedRegistration(s, order, i);
    NoticeAt(s, order, i);
  }

  lemma EnumerationIsDistinct<T(!new)>(order: seq<T>, members: set<T>)
    requires Enumerates(order, members)
    ensures Distinct(order)
  {
  }

  /** Each observer gets one confirmable notification of the new version, and awaits exactly its id. */
  lemma PutNotifiesEachObserver(s: State, path: string, payload: Bytes, order: seq<Observation>, i: nat)
    requires WellFormed(s) && Enumerates(order, ObserversOf(s, path))
    requires i < |order|
    ensures forall o | o in order :: o in s.observers && o.path == path
    ensures order[i] in s.observers
    ensures var t := Put(s, path, payload, order);
      var o, r, id := order[i], s.observers[order[i]], IdAfter(s.lastId, i + 1);
      && |t.outbox| == |s.outbox| + |order|
      && t.outbox[|s.outbox| + i]
         == Sent(r.responder, path, Confirmable, id, r.token, Some(Shown(|VersionsOf(s, path)|, payload, r.blockSize)))
      && o in t.observers && t.observers[o] == r.(pending := Some(Pending(id, 1)))
  {
    hide WellFormed, NotifyAll, Distinct;
    ObserversShow(s, path, payload, order);
    var r := RecordVersion(s, path, payload);
    assert order[i] in order;
    EnumerationIsDistinct(order, ObserversOf(s, path));
    RoundAt(r, order, i);
  }

  /** The ids of one round are all different, so no two observers await the same one. */
  lemma PutIdsAreDistinct(s: State, path: string, payload: Bytes, order: seq<Observation>, i: nat, j: nat)
    requires WellFormed(s) && Enumerates(order, ObserversOf(s, path))
    requires i < j < |order| <= 0x1_0000
    ensures forall o | o in order :: o in s.observers && o.path == path
    ensures var t := Put(s, path, payload, order);
      && |t.outbox| == |s.outbox| + |order|
      && t.outbox[|s.outbox| + i].id != t.outbox[|s.outbox| + j].id
      && t.outbox[|s.outbox| + i].id == IdAfter(s.lastId, i + 1)
  {
    hide WellFormed, Put;
    PutNotifiesEachObserver(s, path, payload, order, i);
    PutNotifiesEachObserver(s, path, payload, order, j);
    IdsAreDistinct(s.lastId, i + 1, j + 1);
  }

  lemma {:induction false} EnumerationLength<T(!new)>(order: seq<T>, members: set<T>)
    requires Enumerates(order, members)
    ensures |order| == |members|
  {
    if order == [] {
      assert members == {};
    } else {
      var front, last := order[..|order| - 1], order[|order| - 1];
      assert last in order;
      forall o ensures o in front <==> o in members - {last} {
        if o in members - {last} {
          assert o in order;
        }
      }
      EnumerationLength(front, members - {last});
    }
  }

  /** After the PUT an id that an observer of the path awaited before is pending for nobody, or was just sent
      again: the old notifications are retired. */
  lemma PutRetiresOlderNotifications(s: State, path: string, payload: Bytes, order: seq<Observation>,
                                     o: Observation, id: U16, p: Observation)
    requires WellFormed(s) && Enumerates(order, ObserversOf(s, path))
    requires o.path == path && Owns(s, o, id)
    ensures forall o | o in order :: o in s.observers && o.path == path
    ensures Owns(Put(s, path, payload, order), p, id) ==>
      exists i :: 0 <= i < |order| && order[i] == p && id == IdAfter(s.lastId, i + 1)
  {
    ObserversShow(s, path, payload, order);
    var r := RecordVersion(s, path, payload);
    assert o in ObserversOf(s, path);
    if Owns(NotifyAll(r, order), p, id) {
      var i := OwnerAfterRound(r, order, p, id);
      if p !in order {
        assert Owns(s, p, id);
        OneOwner(s, o, p, id);
      }
    }
  }
}
