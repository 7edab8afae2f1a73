/** When the registry's 16-bit message ids are safe: exactly, round by round, over runs, and a run in which they
    are not. */
module MessageIds {
  import opened Coap
  import opened ObserveSpec
  import opened ObserveLaws
  import opened ObserveRuns

  // ---------------------------------------------------------------- one round, exactly

  // The invariant holds after every turn of the round.
  ghost predicate RoundIsSafe(s: State, order: seq<Observation>)
    requires forall o | o in order :: Shows(s, o)
  {
    forall n | 0 <= n <= |order| :: SafeUpTo(s, order, n)
  }

  ghost predicate SafeUpTo(s: State, order: seq<Observation>, n: nat)
    requires n <= |order| && forall o | o in order :: Shows(s, o)
  {
    assert forall o | o in order[..n] :: o in order;
    WellFormed(NotifyAll(s, order[..n]))
  }

  lemma PrefixIsSafe(s: State, order: seq<Observation>, n: nat)
    requires Distinct(order) && SafeIds(s, order) && n <= |order|
    ensures Distinct(order[..n]) && SafeIds(s, order[..n]) && forall o | o in order[..n] :: o in order
  {
    forall i | 0 <= i < n ensures SafeAt(s, order[..n], i) {
      assert SafeAt(s, order, i) && order[..n][..i + 1] == order[..i + 1];
    }
  }

  // After `n` turns a registration not yet notified owns what it owned.
  lemma StillOwns(s: State, order: seq<Observation>, n: nat, p: Observation, id: U16)
    requires Distinct(order) && n <= |order| && (forall o | o in order :: Shows(s, o))
    requires Owns(s, p, id) && p !in order[..n]
    ensures forall o | o in order[..n] :: Shows(s, o)
    ensures Owns(NotifyAll(s, order[..n]), p, id)
  {
    assert forall o | o in order[..n] :: o in order;
    assert p in NotifyAll(s, order[..n]).observers.Keys;
  }

  // After turn `i` its registration owns its id.
  lemma NowOwns(s: State, order: seq<Observation>, n: nat, i: nat)
    requires Distinct(order) && i < n <= |order| && (forall o | o in order :: Shows(s, o))
    ensures forall o | o in order[..n] :: Shows(s, o)
    ensures Owns(NotifyAll(s, order[..n]), order[i], IdAfter(s.lastId, i + 1))
  {
    assert forall o | o in order[..n] :: o in order;
    assert order[..n][i] == order[i];
    NotifiedRegistration(s, order[..n], i);
    assert order[i] in order && order[i] in NotifyAll(s, order[..n]).observers.Keys;
  }

  lemma UnsafeTurn(s: State, order: seq<Observation>, i: nat)
    requires Distinct(order) && i < |order| && (forall o | o in order :: Shows(s, o))
    requires !SafeAt(s, order, i)
    ensures !SafeUpTo(s, order, i + 1)
  {
    var id := IdAfter(s.lastId, i + 1);
    var p :| OwnsTurn(s, p, i) && p !in order[..i + 1];
    StillOwns(s, order, i + 1, p, id);
    NowOwns(s, order, i + 1, i);
    assert order[i] in order[..i + 1];
  }

  lemma TooLongARound(s: State, order: seq<Observation>)
    requires Distinct(order) && |order| > 0x1_0000 && (forall o | o in order :: Shows(s, o))
    ensures !SafeUpTo(s, order, 0x1_0001)
  {
    NowOwns(s, order, 0x1_0001, 0);
    NowOwns(s, order, 0x1_0001, 0x1_0000);
    IdAfterClosedForm(s.lastId, 1);
    IdAfterClosedForm(s.lastId, 0x1_0001);
    assert order[0] != order[0x1_0000];
  }

  /** A notification round keeps the invariant at every turn iff at most 2^16 observers are notified and no id
      it uses is pending for an observation that has not had its turn. */
  lemma RoundIsSafeIff(s: State, order: seq<Observation>)
    requires WellFormed(s) && Distinct(order) && forall o | o in order :: o in s.observers
    ensures forall o | o in order :: Shows(s, o)
    ensures RoundIsSafe(s, order) <==> SafeIds(s, order)
  {
    hide WellFormed, SafeAt;
    AllShow(s, order);
    if SafeIds(s, order) {
      forall n | 0 <= n <= |order| ensures SafeUpTo(s, order, n) {
        PrefixIsSafe(s, order, n);
        RoundKeepsWellFormed(s, order[..n]);
      }
    } else if |order| > 0x1_0000 {
      TooLongARound(s, order);
    } else {
      var i :| 0 <= i < |order| && !SafeAt(s, order, i);
      UnsafeTurn(s, order, i);
    }
  }

  lemma AllShow(s: State, order: seq<Observation>)
    requires WellFormed(s) && forall o | o in order :: o in s.observers
    ensures forall o | o in order :: Shows(s, o)
  {
  }

  // ---------------------------------------------------------------- whatever the order

  /** The source walks a hash set, so a caller can rely on no order. The last id alone may be pending, and then
      for an observer of the path. */
  ghost predicate AvailableIds(s: State, path: string) {
    && |ObserversOf(s, path)| <= 0x1_0000
    && forall i | 0 <= i < |ObserversOf(s, path)| :: AvailableAt(s, path, i)
  }

  ghost predicate AvailableAt(s: State, path: string, i: nat) {
    forall p | OwnsTurn(s, p, i) :: i + 1 == |ObserversOf(s, path)| && p.path == path
  }

  lemma {:induction false} SomeOrder<T(!new)>(members: set<T>) returns (order: seq<T>)
    ensures Enumerates(order, members)
  {
    order := [];
    if members != {} {
      var x :| x in members;
      var front := SomeOrder(members - {x});
      order := front + [x];
    }
  }

  lemma LastInOrder(s: State, path: string, p: Observation) returns (order: seq<Observation>)
    requires p in ObserversOf(s, path)
    ensures Enumerates(order, ObserversOf(s, path)) && order != [] && order[|order| - 1] == p
  {
    var front := SomeOrder(ObserversOf(s, path) - {p});
    order := front + [p];
  }

  ghost predicate AnyOrderIsSafe(s: State, path: string) {
    forall order | Enumerates(order, ObserversOf(s, path)) :: SafeIds(s, order)
  }

  lemma AvailableIsSafe(s: State, path: string, order: seq<Observation>)
    requires AvailableIds(s, path) && Enumerates(order, ObserversOf(s, path))
    ensures SafeIds(s, order)
  {
    hide IdAfter;
    EnumerationLength(order, ObserversOf(s, path));
    forall i | 0 <= i < |order| ensures SafeAt(s, order, i) {
      assert AvailableAt(s, path, i);
      forall p | OwnsTurn(s, p, i) ensures p in order[..i + 1] {
        assert p in ObserversOf(s, path) && order[..i + 1] == order;
      }
    }
  }

  lemma UnavailableIsUnsafe(s: State, path: string, i: nat) returns (order: seq<Observation>)
    requires i < |ObserversOf(s, path)| && !AvailableAt(s, path, i)
    ensures Enumerates(order, ObserversOf(s, path)) && !SafeIds(s, order)
  {
    hide IdAfter;
    var p :| OwnsTurn(s, p, i) && !(i + 1 == |ObserversOf(s, path)| && p.path == path);
    if p.path == path {
      order := LastInOrder(s, path, p);
    } else {
      order := SomeOrder(ObserversOf(s, path));
    }
    EnumerationLength(order, ObserversOf(s, path));
    forall k | 0 <= k < i + 1 ensures order[k] != p {
      assert order[k] in order;
    }
    assert p !in order[..i + 1];
    assert !SafeAt(s, order, i);
  }

  /** A PUT is safe in whatever order its observers are walked iff its ids are available: a condition on the
      registry before the PUT. */
  lemma AnyOrderIsSafeIff(s: State, path: string)
    ensures AnyOrderIsSafe(s, path) <==> AvailableIds(s, path)
  {
    hide SafeIds, AvailableAt, IdAfter;
    if AvailableIds(s, path) {
      forall order | Enumerates(order, ObserversOf(s, path)) ensures SafeIds(s, order) {
        AvailableIsSafe(s, path, order);
      }
    } else if |ObserversOf(s, path)| > 0x1_0000 {
      var order := SomeOrder(ObserversOf(s, path));
      EnumerationLength(order, ObserversOf(s, path));
      LongIsUnsafe(s, order);
    } else {
      var i :| 0 <= i < |ObserversOf(s, path)| && !AvailableAt(s, path, i);
      var order := UnavailableIsUnsafe(s, path, i);
    }
  }

  lemma LongIsUnsafe(s: State, order: seq<Observation>)
    requires |order| > 0x1_0000
    ensures !SafeIds(s, order)
  {
  }

  // ---------------------------------------------------------------- before the counter wraps

  // No wrap-around so far: what is pending was numbered at or before the counter.
  ghost predicate Unwrapped(s: State) {
    forall o, id: U16 | Owns(s, o, id) :: id <= s.lastId
  }

  // How many notifications an event numbers.
  function Numbered(e: Event): nat {
    if e.PutRequest? then |e.order| else 0
  }

  function TotalNumbered(events: seq<Event>): nat {
    if events == [] then 0 else Numbered(events[0]) + TotalNumbered(events[1..])
  }

  lemma NextIdIsNew(s: State, i: nat, p: Observation)
    requires Unwrapped(s) && s.lastId + i + 1 < 0x1_0000
    ensures !OwnsTurn(s, p, i)
  {
    IdAfterClosedForm(s.lastId, i + 1);
  }

  lemma UnwrappedIsSafe(s: State, order: seq<Observation>)
    requires Unwrapped(s) && s.lastId + |order| < 0x1_0000
    ensures SafeIds(s, order)
  {
    hide Unwrapped, OwnsTurn;
    forall i | 0 <= i < |order| ensures SafeAt(s, order, i) {
      forall p ensures !OwnsTurn(s, p, i) {
        NextIdIsNew(s, i, p);
      }
    }
  }

  lemma UnwrappedIsAvailable(s: State, path: string)
    requires Unwrapped(s) && s.lastId + |ObserversOf(s, path)| < 0x1_0000
    ensures AvailableIds(s, path)
  {
    hide Unwrapped, OwnsTurn;
    forall i | 0 <= i < |ObserversOf(s, path)| ensures AvailableAt(s, path, i) {
      forall p ensures !OwnsTurn(s, p, i) {
        NextIdIsNew(s, i, p);
      }
    }
  }

  lemma PutKeepsUnwrapped(s: State, path: string, payload: Bytes, order: seq<Observation>)
    requires WellFormed(s) && Enumerates(order, ObserversOf(s, path)) && Unwrapped(s)
    requires s.lastId + |order| < 0x1_0000
    ensures forall o | o in order :: o in s.observers && o.path == path
    ensures Unwrapped(Put(s, path, payload, order)) && Put(s, path, payload, order).lastId == s.lastId + |order|
  {
    hide WellFormed;
    ObserversShow(s, path, payload, order);
    var r := RecordVersion(s, path, payload);
    var t := NotifyAll(r, order);
    IdAfterClosedForm(s.lastId, |order|);
    forall o, id: U16 | Owns(t, o, id) ensures id <= t.lastId {
      var i := OwnerAfterRound(r, order, o, id);
      if o in order {
        IdAfterClosedForm(s.lastId, i + 1);
      } else {
        assert Owns(s, o, id);
      }
    }
  }

  lemma SubsetOfOwnersKeepsUnwrapped(s: State, t: State)
    requires Unwrapped(s) && t.lastId == s.lastId
    requires forall o, id: U16 | Owns(t, o, id) :: Owns(s, o, id)
    ensures Unwrapped(t)
  {
  }

  lemma TickKeepsUnwrapped(s: State, order: seq<Observation>)
    requires WellFormed(s) && Enumerates(order, Unacknowledged(s)) && Unwrapped(s)
    ensures forall o | o in order :: Waits(s, o)
    ensures Unwrapped(TickAll(s, order))
  {
    hide WellFormed, Unwrapped;
    TickAges(s, order);
    SubsetOfOwnersKeepsUnwrapped(s, TickAll(s, order));
  }

  lemma StepKeepsUnwrapped(s: State, e: Event)
    requires WellFormed(s) && Enabled(s, e) && Unwrapped(s)
    requires s.lastId + Numbered(e) < 0x1_0000
    ensures Unwrapped(Step(s, e)) && Step(s, e).lastId == s.lastId + Numbered(e)
  {
    hide WellFormed, SafeIds, Put, Distinct, Unwrapped;
    match e
    case PutRequest(path, payload, order) =>
      PutKeepsUnwrapped(s, path, payload, order);
    case Tick(order) =>
      TickKeepsUnwrapped(s, order);
    case _ =>
      SubsetOfOwnersKeepsUnwrapped(s, Step(s, e));
  }

  // An event as the code may meet it, its message ids apart.
  ghost predicate Possible(s: State, e: Event) {
    match e
    case PutRequest(path, _, order) => Enumerates(order, ObserversOf(s, path))
    case _ => Enabled(s, e)
  }

  ghost predicate Plausible(s: State, events: seq<Event>)
    decreases |events|
  {
    && WellFormed(s)
    && (events != [] ==>
          && Possible(s, events[0])
          && (Enabled(s, events[0]) ==> Plausible(Step(s, events[0]), events[1..])))
  }

  /** As long as a run numbers at most 65535 notifications, its message ids need no precondition: every PUT of
      it is safe, whatever else happens, and the counter counts the notifications. */
  lemma {:induction false} FirstIdsAreSafe(s: State, events: seq<Event>)
    requires Plausible(s, events) && Unwrapped(s) && s.lastId + TotalNumbered(events) < 0x1_0000
    ensures Executable(s, events)
    ensures Unwrapped(Run(s, events)) && Run(s, events).lastId == s.lastId + TotalNumbered(events)
    decreases |events|
  {
    hide WellFormed, Unwrapped, SafeIds, Step;
    if events != [] {
      if events[0].PutRequest? {
        UnwrappedIsSafe(s, events[0].order);
      }
      assert Enabled(s, events[0]);
      StepKeepsUnwrapped(s, events[0]);
      FirstIdsAreSafe(Step(s, events[0]), events[1..]);
    }
  }

  // ---------------------------------------------------------------- after it has wrapped

  /** `a` still awaits id 1, and since then `turns` notifications went to the one observer `b` of another path. */
  ghost predicate Wrapping(s: State, a: Observation, b: Observation, turns: nat) {
    && WellFormed(s) && a.path != b.path && ObserversOf(s, b.path) == {b}
    && Owns(s, a, 1) && (forall o, id: U16 | Owns(s, o, id) :: o == b || (o == a && id == 1))
    && s.lastId == IdAfter(1, turns)
  }

  lemma NotYetOne(turns: nat)
    requires turns < 0xFFFF
    ensures IdAfter(1, turns + 1) != 1
  {
    IdAfterClosedForm(1, turns + 1);
  }

  lemma OneTurn(s: State, a: Observation, b: Observation, turns: nat, payload: Bytes)
    requires Wrapping(s, a, b, turns) && turns < 0xFFFF
    ensures Enabled(s, PutRequest(b.path, payload, [b]))
    ensures Wrapping(Step(s, PutRequest(b.path, payload, [b])), a, b, turns + 1)
  {
    hide WellFormed;
    NotYetOne(turns);
    assert IdAfter(s.lastId, 1) == IdAfter(1, turns + 1) by {
      assert IdAfter(s.lastId, 0) == s.lastId;
    }
    assert [b][..1] == [b];
    forall p | OwnsTurn(s, p, 0) ensures p in [b][..1] {
      assert Owns(s, p, IdAfter(1, turns + 1));
    }
    assert SafeAt(s, [b], 0);
    assert Enumerates([b], ObserversOf(s, b.path)) by {
      assert b in ObserversOf(s, b.path);
    }
    StepKeepsWellFormed(s, PutRequest(b.path, payload, [b]));
    ObserversShow(s, b.path, payload, [b]);
    OneTurnOwners(s, a, b, turns, payload);
  }

  lemma OneTurnOwners(s: State, a: Observation, b: Observation, turns: nat, payload: Bytes)
    requires Wrapping(s, a, b, turns) && forall o | o in [b] :: o in s.observers && o.path == b.path
    requires forall o | o in [b] :: Shows(RecordVersion(s, b.path, payload), o)
    ensures var t := Put(s, b.path, payload, [b]);
      && t.lastId == IdAfter(1, turns + 1) && ObserversOf(t, b.path) == {b}
      && Owns(t, a, 1) && forall o, id: U16 | Owns(t, o, id) :: o == b || (o == a && id == 1)
  {
    hide WellFormed, NotificationTo;
    var r := RecordVersion(s, b.path, payload);
    assert [b][..0] == [] && [b][0] == b;
    assert b in [b];
    var t := NotifyOne(r, b);
    assert NotifyAll(r, [b]) == t;
    assert forall o | o != b ::
      (o in t.observers <==> o in s.observers) && (o in s.observers ==> t.observers[o] == s.observers[o]);
    assert forall o, id: U16 | o != b :: Owns(t, o, id) <==> Owns(s, o, id);
    assert ObserversOf(t, b.path) == ObserversOf(s, b.path);
  }

  function Copies<T>(x: T, n: nat): (r: seq<T>)
    ensures |r| == n
  {
    if n == 0 then [] else [x] + Copies(x, n - 1)
  }

  lemma {:induction false} ManyTurns(s: State, a: Observation, b: Observation, turns: nat, more: nat, payload: Bytes)
    requires Wrapping(s, a, b, turns) && turns + more <= 0xFFFF
    ensures Executable(s, Copies(PutRequest(b.path, payload, [b]), more))
    ensures Wrapping(Run(s, Copies(PutRequest(b.path, payload, [b]), more)), a, b, turns + more)
    decreases more
  {
    hide Wrapping, Step, Enabled, Executable, Run, WellFormed;
    var put := PutRequest(b.path, payload, [b]);
    WrappingIsWellFormed(s, a, b, turns);
    if more == 0 {
      NothingLeft(s);
    } else {
      OneTurn(s, a, b, turns, payload);
      ManyTurns(Step(s, put), a, b, turns + 1, more - 1, payload);
      var puts := Copies(put, more);
      assert puts[0] == put && puts[1..] == Copies(put, more - 1);
      Unfold(s, puts);
    }
  }

  lemma NothingLeft(s: State)
    requires WellFormed(s)
    ensures Executable(s, []) && Run(s, []) == s
  {
  }

  lemma WrappingIsWellFormed(s: State, a: Observation, b: Observation, turns: nat)
    requires Wrapping(s, a, b, turns)
    ensures WellFormed(s)
  {
  }

  // Two PUTs, an observer of each path, and a notification that the first never acknowledges.
  function Beginning(p: string, q: string, first: SocketAddr, second: SocketAddr, token: Bytes,
      payload: Bytes): seq<Event> {
    [PutRequest(p, payload, []), PutRequest(q, payload, []),
     RegisterRequest(first, p, token, None, None), RegisterRequest(second, q, token, None, None),
     PutRequest(p, payload, [Observation(first.text, p)])]
  }

  lemma Unfold(s: State, events: seq<Event>)
    requires events != [] && WellFormed(s) && Enabled(s, events[0]) && Executable(Step(s, events[0]), events[1..])
    ensures Executable(s, events) && Run(s, events) == Run(Step(s, events[0]), events[1..])
  {
  }

  // A PUT to a path that nobody observes.
  lemma QuietPut(s: State, path: string, payload: Bytes)
    requires WellFormed(s) && ObserversOf(s, path) == {}
    ensures Enabled(s, PutRequest(path, payload, []))
    ensures Step(s, PutRequest(path, payload, [])) == RecordVersion(s, path, payload)
  {
  }

  lemma {:induction false} RunsOn(s: State, first: seq<Event>, rest: seq<Event>)
    requires Executable(s, first) && Executable(Run(s, first), rest)
    ensures Executable(s, first + rest) && Run(s, first + rest) == Run(Run(s, first), rest)
    decreases |first|
  {
    if first == [] {
      assert first + rest == rest;
    } else {
      assert (first + rest)[1..] == first[1..] + rest;
      RunsOn(Step(s, first[0]), first[1..], rest);
    }
  }

  // A registration that nobody is told about.
  lemma QuietRegistration(s: State, responder: SocketAddr, path: string, token: Bytes)
    requires WellFormed(s) && path in s.versions
    ensures Enabled(s, RegisterRequest(responder, path, token, None, None))
    ensures Step(s, RegisterRequest(responder, path, token, None, None))
         == s.(observers := s.observers[Observation(responder.text, path) := Registration(responder, token, None,
             None)])
  {
  }

  // One observer on each of two paths, and nothing sent yet.
  ghost predicate Ready(s: State, a: Observation, b: Observation) {
    && WellFormed(s) && a.path != b.path && s.lastId == 0
    && ObserversOf(s, a.path) == {a} && ObserversOf(s, b.path) == {b}
    && forall o, id: U16 :: !Owns(s, o, id)
  }

  lemma FirstNotification(s: State, a: Observation, b: Observation, payload: Bytes)
    requires Ready(s, a, b)
    ensures var put := PutRequest(a.path, payload, [a]);
      Enabled(s, put) && Wrapping(Step(s, put), a, b, 0)
  {
    hide WellFormed, NotificationTo;
    var order := [a];
    assert a in ObserversOf(s, a.path);
    assert SafeAt(s, order, 0);
    StepKeepsWellFormed(s, PutRequest(a.path, payload, order));
    ObserversShow(s, a.path, payload, order);
    var r := RecordVersion(s, a.path, payload);
    assert order[..0] == [] && order[0] == a && a in order;
    var t := NotifyOne(r, a);
    assert NotifyAll(r, order) == t && Successor(0) == 1;
    assert forall o | o != a ::
      (o in t.observers <==> o in s.observers) && (o in s.observers ==> t.observers[o] == s.observers[o]);
    assert ObserversOf(t, b.path) == ObserversOf(s, b.path);
    assert forall o, id: U16 | o != a :: Owns(t, o, id) <==> Owns(s, o, id);
  }

  lemma TwoPuts(p: string, q: string, payload: Bytes)
    requires p != q
    ensures var events := [PutRequest(p, payload, []), PutRequest(q, payload, [])];
      && Executable(Initial, events)
      && Run(Initial, events) == RecordVersion(RecordVersion(Initial, p, payload), q, payload)
      && WellFormed(Run(Initial, events))
  {
    hide Executable, Run, Step, Enabled;
    var first, second := PutRequest(p, payload, []), PutRequest(q, payload, []);
    var s1 := RecordVersion(Initial, p, payload);
    var s2 := RecordVersion(s1, q, payload);
    assert WellFormed(Initial) && ObserversOf(Initial, p) == {};
    QuietPut(Initial, p, payload);
    StepKeepsWellFormed(Initial, first);
    assert ObserversOf(s1, q) == {};
    QuietPut(s1, q, payload);
    StepKeepsWellFormed(s1, second);
    NothingLeft(s2);
    assert [first, second][1..] == [second] && [second][1..] == [];
    Unfold(s1, [second]);
    Unfold(Initial, [first, second]);
  }

  lemma TwoRegistrations(s: State, a: Observation, b: Observation, first: SocketAddr, second: SocketAddr, token: Bytes)
    requires WellFormed(s) && a.path in s.versions && b.path in s.versions && a.path != b.path
    requires a.endpoint == first.text && b.endpoint == second.text && s.observers == map[] && s.lastId == 0
    ensures var events := [RegisterRequest(first, a.path, token, None, None), RegisterRequest(second, b.path, token,
        None, None)];
      && Executable(s, events) && Ready(Run(s, events), a, b)
      && Run(s, events).observers
           == map[a := Registration(first, token, None, None), b := Registration(second, token, None, None)]
  {
    hide Executable, Run, Step, Enabled, WellFormed;
    var one, two := RegisterRequest(first, a.path, token, None, None), RegisterRequest(second, b.path, token, None,
        None);
    var s1 := s.(observers := map[a := Registration(first, token, None, None)]);
    var s2 := s1.(observers := s1.observers[b := Registration(second, token, None, None)]);
    QuietRegistration(s, first, a.path, token);
    StepKeepsWellFormed(s, one);
    QuietRegistration(s1, second, b.path, token);
    StepKeepsWellFormed(s1, two);
    NothingLeft(s2);
    assert [one, two][1..] == [two] && [two][1..] == [];
    Unfold(s1, [two]);
    Unfold(s, [one, two]);
    assert ObserversOf(s2, a.path) == {a} && ObserversOf(s2, b.path) == {b};
  }

  lemma GetReady(p: string, q: string, first: SocketAddr, second: SocketAddr, token: Bytes, payload: Bytes)
    requires p != q
    ensures var events := Beginning(p, q, first, second, token, payload)[..4];
      var (a, b) := (Observation(first.text, p), Observation(second.text, q));
      && Executable(Initial, events) && Ready(Run(Initial, events), a, b)
      && Run(Initial, events).observers
           == map[a := Registration(first, token, None, None), b := Registration(second, token, None, None)]
  {
    hide Executable, Run, WellFormed, Ready;
    var puts := [PutRequest(p, payload, []), PutRequest(q, payload, [])];
    TwoPuts(p, q, payload);
    var s := Run(Initial, puts);
    TwoRegistrations(s, Observation(first.text, p), Observation(second.text, q), first, second, token);
    var registrations := [RegisterRequest(first, p, token, None, None), RegisterRequest(second, q, token, None, None)];
    RunsOn(Initial, puts, registrations);
    assert Beginning(p, q, first, second, token, payload)[..4] == puts + registrations;
  }

  // 65536 notifications: the first of them never acknowledged, the others to one observer of another path.
  function WrappingRun(p: string, q: string, first: SocketAddr, second: SocketAddr, token: Bytes,
      payload: Bytes): seq<Event> {
    Beginning(p, q, first, second, token, payload)
    + Copies(PutRequest(q, payload, [Observation(second.text, q)]), 0xFFFF)
  }

  /** The input: an observer that acknowledges nothing and 65535 PUTs to a path that another one observes. The
      next PUT there would number its notification 1, which is still pending, so it is not safe. */
  lemma IdsRunOut(p: string, q: string, first: SocketAddr, second: SocketAddr, token: Bytes, payload: Bytes)
    requires p != q
    ensures var events := WrappingRun(p, q, first, second, token, payload);
      && Executable(Initial, events)
      && var s := Run(Initial, events);
         && Wrapping(s, Observation(first.text, p), Observation(second.text, q), 0xFFFF)
         && !SafeIds(s, [Observation(second.text, q)]) && !AvailableIds(s, q)
  {
    hide Executable, Run, Step, Enabled, Wrapping, Copies;
    var a, b := Observation(first.text, p), Observation(second.text, q);
    var beginning := Beginning(p, q, first, second, token, payload);
    GetReady(p, q, first, second, token, payload);
    var s := Run(Initial, beginning[..4]);
    FirstNotification(s, a, b, payload);
    var t := Step(s, beginning[4]);
    WrappingIsWellFormed(t, a, b, 0);
    NothingLeft(t);
    Unfold(s, [beginning[4]]);
    RunsOn(Initial, beginning[..4], [beginning[4]]);
    assert beginning[..4] + [beginning[4]] == beginning;
    ManyTurns(t, a, b, 0, 0xFFFF, payload);
    var puts := Copies(PutRequest(q, payload, [b]), 0xFFFF);
    RunsOn(Initial, beginning, puts);
    StaleAfterWrap(Run(t, puts), a, b);
  }

  lemma OneAfterZero()
    ensures IdAfter(0, 1) == 1
  {
    assert IdAfter(0, 0) == 0;
  }

  lemma StaleAfterWrap(s: State, a: Observation, b: Observation)
    requires Wrapping(s, a, b, 0xFFFF)
    ensures Owns(s, a, IdAfter(s.lastId, 1)) && !SafeIds(s, [b]) && !AvailableIds(s, b.path)
  {
    hide WellFormed, IdAfter;
    IdAfterClosedForm(1, 0xFFFF);
    OneAfterZero();
    assert OwnsTurn(s, a, 0);
    assert !SafeAt(s, [b], 0);
    assert |ObserversOf(s, b.path)| == 1 && !AvailableAt(s, b.path, 0);
  }
}
