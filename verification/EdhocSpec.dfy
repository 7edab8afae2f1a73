/** The EDHOC Responder's sessions under any interleaving of handlers: one step per lock of the store,
    with lakers' cryptography left abstract. */
module EdhocSpec {
  import opened Coap

  // A connection identifier as its raw bytes.
  type ConnId = Bytes

  // COMPLETED_SESSION_LIFETIME, in seconds: EXCHANGE_LIFETIME of section 4.8.2 of RFC 7252.
  const LIFETIME: real := 247.0

  /** A session waiting for message_3: its number among the sessions created, the Initiator's identifier and
      lakers' state. */
  datatype Session = Session(serial: nat, cI: ConnId, responder: Bytes)

  datatype Completed = Completed(message4: Bytes, expires: real)

  datatype Store = Store(pending: map<ConnId, Session>, completed: map<Bytes, Completed>)

  // ---------------------------------------------------------------- connection identifiers

  // The one-byte CBOR integers: 0 to 23, then -1 to -24.
  function Candidate(i: nat): (c: ConnId)
    requires i < 48
  {
    [if i < 24 then i else i - 24 + 0x20]
  }

  ghost predicate IsCandidate(c: ConnId) {
    exists i :: 0 <= i < 48 && Candidate(i) == c
  }

  // What C_R may be: neither in use nor the Initiator's own identifier.
  ghost predicate IsFree(pending: map<ConnId, Session>, cI: ConnId, c: ConnId) {
    IsCandidate(c) && c !in pending && c != cI
  }

  ghost function Candidates(n: nat): (r: set<ConnId>)
    requires n <= 48
    ensures forall c :: c in r <==> exists i :: 0 <= i < n && Candidate(i) == c
    ensures |r| == n
  {
    if n == 0 then {}
    else
      var rest := Candidates(n - 1);
      assert Candidate(n - 1) !in rest by {
        forall i | 0 <= i < n - 1 ensures Candidate(i) != Candidate(n - 1) {
          assert Candidate(i)[0] != Candidate(n - 1)[0];
        }
      }
      rest + {Candidate(n - 1)}
  }

  lemma SubsetIsSmaller<T>(a: set<T>, b: set<T>)
    requires a <= b
    ensures |a| <= |b|
  {
    assert b == a + (b - a);
  }

  lemma CandidatesAreAll(c: ConnId)
    ensures c in Candidates(48) <==> IsCandidate(c)
  {
  }

  lemma WithoutOne<T>(a: set<T>, x: T)
    ensures |a - {x}| >= |a| - 1
  {
    if x in a {
      assert a == (a - {x}) + {x};
    } else {
      assert a - {x} == a;
    }
  }

  /** No identifier is free only with 47 sessions pending: all 48 but for the Initiator's own. */
  lemma ExhaustionTakes47(pending: map<ConnId, Session>, cI: ConnId)
    requires forall c :: !IsFree(pending, cI, c)
    ensures |pending| >= 47
  {
    hide Candidates, IsCandidate;
    var all := Candidates(48);
    assert |all| == 48;
    forall c | c in all - {cI} ensures c in pending.Keys {
      CandidatesAreAll(c);
      assert !IsFree(pending, cI, c);
    }
    SubsetIsSmaller(all - {cI}, pending.Keys);
    WithoutOne(all, cI);
    assert |pending.Keys| == |pending|;
  }

  lemma AtMost48(pending: map<ConnId, Session>)
    requires forall c | c in pending :: IsCandidate(c)
    ensures |pending| <= 48
  {
    hide Candidates, IsCandidate;
    forall c | c in pending.Keys ensures c in Candidates(48) {
      CandidatesAreAll(c);
    }
    SubsetIsSmaller(pending.Keys, Candidates(48));
    assert |Candidates(48)| == 48;
    assert |pending.Keys| == |pending|;
  }

  // ---------------------------------------------------------------- the atomic steps

  // Under the lock of `pending`, while answering message_1.
  function Opened(store: Store, cR: ConnId, session: Session): Store {
    store.(pending := store.pending[cR := session])
  }

  // Under the lock of `pending`, while answering message_3.
  function Taken(store: Store, cR: ConnId): Store {
    store.(pending := store.pending - {cR})
  }

  // `retain`: what has expired by `now` is dropped.
  function Retained(store: Store, now: real): Store {
    store.(completed := map p | p in store.completed && store.completed[p].expires > now :: store.completed[p])
  }

  function Remembered(store: Store, payload: Bytes, message4: Bytes, now: real): Store {
    store.(completed := store.completed[payload := Completed(message4, now + LIFETIME)])
  }

  // ---------------------------------------------------------------- handlers, interleaved

  /** How far the handler of a message_3 has got: `Missed` found no completed session for its payload,
      `Working` took a pending session, `Answering` stored message_4 and is about to tell the hook. */
  datatype Phase =
    | Received
    | Missed
    | Working(cR: ConnId, session: Session)
    | Answering(cR: ConnId, session: Session, message4: Bytes)
    | Refused
    | Answered(message4: Bytes)

  datatype Handler = Handler(payload: Bytes, phase: Phase)

  // What the hook is told of a session: the OSCORE Sender and Recipient identifiers.
  datatype Established = Established(serial: nat, senderId: ConnId, recipientId: ConnId)

  /** The store, the clock, the handlers of message_3, how many sessions were ever created, which of them
      were consumed, and what the hook was told. */
  datatype World = World(store: Store, now: real, handlers: map<nat, Handler>, created: nat, consumed: set<nat>,
                         established: seq<Established>)

  const Start := World(Store(map[], map[]), 0.0, map[], 0, {}, [])

  datatype Event =
    | Pass(seconds: real)
    | Message1(cI: ConnId, cR: ConnId, responder: Bytes)
    | Message3(h: nat, payload: Bytes)
    | LookUp(h: nat)
    | Take(h: nat, cR: ConnId)
    | Refuse(h: nat)
    | Complete(h: nat, message4: Bytes)
    | Notify(h: nat)

  /** `Message1` is the step of a message_1 that gets through; one that fails changes nothing. `Refuse` is an
      unreadable message_3, or one lakers does not accept. */
  ghost predicate Enabled(w: World, e: Event) {
    match e
    case Pass(seconds) => seconds >= 0.0
    case Message1(cI, cR, _) => IsFree(w.store.pending, cI, cR)
    case Message3(h, _) => h !in w.handlers
    case LookUp(h) => h in w.handlers && w.handlers[h].phase.Received?
    case Take(h, _) => h in w.handlers && w.handlers[h].phase.Missed?
    case Refuse(h) => h in w.handlers && (w.handlers[h].phase.Missed? || w.handlers[h].phase.Working?)
    case Complete(h, _) => h in w.handlers && w.handlers[h].phase.Working?
    case Notify(h) => h in w.handlers && w.handlers[h].phase.Answering?
  }

  function At(w: World, h: nat, phase: Phase): map<nat, Handler>
    requires h in w.handlers
  {
    w.handlers[h := w.handlers[h].(phase := phase)]
  }

  ghost function Step(w: World, e: Event): World
    requires Enabled(w, e)
  {
    match e
    case Pass(seconds) => w.(now := w.now + seconds)
    case Message1(cI, cR, responder) =>
      w.(store := Opened(w.store, cR, Session(w.created, cI, responder)), created := w.created + 1)
    case Message3(h, payload) => w.(handlers := w.handlers[h := Handler(payload, Received)])
    case LookUp(h) =>
      var store := Retained(w.store, w.now);
      var payload := w.handlers[h].payload;
      w.(store := store,
         handlers := At(w, h, if payload in store.completed then Answered(store.completed[payload].message4)
             else Missed))
    case Take(h, cR) =>
      if cR !in w.store.pending then w.(handlers := At(w, h, Refused))
      else
        var session := w.store.pending[cR];
        w.(store := Taken(w.store, cR), handlers := At(w, h, Working(cR, session)),
            consumed := w.consumed + {session.serial})
    case Refuse(h) => w.(handlers := At(w, h, Refused))
    case Complete(h, message4) =>
      var Working(cR, session) := w.handlers[h].phase;
      w.(store := Remembered(w.store, w.handlers[h].payload, message4, w.now),
         handlers := At(w, h, Answering(cR, session, message4)))
    case Notify(h) =>
      var Answering(cR, session, message4) := w.handlers[h].phase;
      w.(established := w.established + [Established(session.serial, session.cI, cR)], handlers := At(w, h,
          Answered(message4)))
  }

  ghost predicate Executable(w: World, events: seq<Event>)
    decreases |events|
  {
    events == [] || (Enabled(w, events[0]) && Executable(Step(w, events[0]), events[1..]))
  }

  ghost function Run(w: World, events: seq<Event>): World
    requires Executable(w, events)
    decreases |events|
  {
    if events == [] then w else Run(Step(w, events[0]), events[1..])
  }

  // ---------------------------------------------------------------- what every step keeps

  // The session a handler holds.
  predicate Holds(w: World, h: nat, cR: ConnId, session: Session) {
    h in w.handlers && (w.handlers[h].phase == Working(cR, session)
      || (w.handlers[h].phase.Answering? && w.handlers[h].phase.cR == cR && w.handlers[h].phase.session == session))
  }

  ghost predicate PendingInOrder(w: World) {
    && (forall c | c in w.store.pending ::
          && IsCandidate(c) && w.store.pending[c].cI != c
          && w.store.pending[c].serial < w.created && w.store.pending[c].serial !in w.consumed)
    && (forall c, d | c in w.store.pending && d in w.store.pending
        && w.store.pending[c].serial == w.store.pending[d].serial :: c == d)
  }

  ghost predicate HandlersInOrder(w: World) {
    && (forall h, c, s | Holds(w, h, c, s) :: s.serial in w.consumed && s.cI != c && IsCandidate(c))
    && (forall g, h, c, d, s, t | Holds(w, g, c, s) && Holds(w, h, d, t) && s.serial == t.serial :: g == h)
  }

  ghost predicate HookInOrder(w: World) {
    && (forall i | 0 <= i < |w.established| ::
          && w.established[i].serial in w.consumed
          && w.established[i].senderId != w.established[i].recipientId && IsCandidate(w.established[i].recipientId))
    && (forall i, j | 0 <= i < j < |w.established| :: w.established[i].serial != w.established[j].serial)
    && (forall i, h, c, s | 0 <= i < |w.established| && Holds(w, h, c, s) :: w.established[i].serial != s.serial)
  }

  ghost predicate Conserved(w: World) {
    w.created == |w.store.pending| + |w.consumed| && forall n | n in w.consumed :: n < w.created
  }

  ghost predicate Consistent(w: World) {
    PendingInOrder(w) && HandlersInOrder(w) && HookInOrder(w) && Conserved(w)
  }

  lemma StepKeepsPending(w: World, e: Event)
    requires Consistent(w) && Enabled(w, e)
    ensures PendingInOrder(Step(w, e))
  {
  }

  // A step gives a handler no session, except the one it takes from the pending ones.
  lemma HeldBefore(w: World, e: Event, h: nat, c: ConnId, s: Session)
    requires Enabled(w, e) && Holds(Step(w, e), h, c, s)
    ensures Holds(w, h, c, s) || (e == Take(h, c) && c in w.store.pending && w.store.pending[c] == s)
  {
  }

  lemma StepKeepsHandlers(w: World, e: Event)
    requires Consistent(w) && Enabled(w, e)
    ensures HandlersInOrder(Step(w, e))
  {
    hide IsCandidate, Holds;
    var u := Step(w, e);
    forall h, c, s | Holds(u, h, c, s) ensures s.serial in u.consumed && s.cI != c && IsCandidate(c) {
      HeldBefore(w, e, h, c, s);
    }
    forall g, h, c, d, s, t | Holds(u, g, c, s) && Holds(u, h, d, t) && s.serial == t.serial ensures g == h {
      HeldBefore(w, e, g, c, s);
      HeldBefore(w, e, h, d, t);
    }
  }

  lemma NotifiedHeld(w: World, h: nat)
    requires Enabled(w, Notify(h))
    ensures Holds(w, h, w.handlers[h].phase.cR, w.handlers[h].phase.session)
    ensures forall c, s :: !Holds(Step(w, Notify(h)), h, c, s)
  {
  }

  lemma StepKeepsHook(w: World, e: Event)
    requires Consistent(w) && Enabled(w, e)
    ensures HookInOrder(Step(w, e))
  {
    hide IsCandidate, Holds;
    var u := Step(w, e);
    if e.Notify? {
      NotifiedHeld(w, e.h);
    }
    forall i, h, c, s | 0 <= i < |u.established| && Holds(u, h, c, s) ensures u.established[i].serial != s.serial {
      HeldBefore(w, e, h, c, s);
    }
  }

  lemma StepConserves(w: World, e: Event)
    requires Consistent(w) && Enabled(w, e)
    ensures Conserved(Step(w, e))
  {
    match e
    case Message1(cI, cR, responder) =>
      Grows(w.store.pending, cR, Session(w.created, cI, responder));
    case Take(h, cR) =>
      if cR in w.store.pending {
        Shrinks(w.store.pending, cR);
      }
    case _ =>
  }

  lemma Grows(m: map<ConnId, Session>, c: ConnId, s: Session)
    requires c !in m
    ensures |m[c := s]| == |m| + 1
  {
  }

  lemma Shrinks(m: map<ConnId, Session>, c: ConnId)
    requires c in m
    ensures |m - {c}| == |m| - 1
  {
    assert (m - {c}).Keys == m.Keys - {c};
    assert |(m - {c}).Keys| == |m - {c}| && |m.Keys| == |m|;
  }

  lemma StepKeepsConsistent(w: World, e: Event)
    requires Consistent(w) && Enabled(w, e)
    ensures Consistent(Step(w, e))
  {
    hide PendingInOrder, HandlersInOrder, HookInOrder, Conserved;
    StepKeepsPending(w, e);
    StepKeepsHandlers(w, e);
    StepKeepsHook(w, e);
    StepConserves(w, e);
  }

  lemma {:induction false} RunKeepsConsistent(w: World, events: seq<Event>)
    requires Consistent(w) && Executable(w, events)
    ensures Consistent(Run(w, events))
    decreases |events|
  {
    if events != [] {
      StepKeepsConsistent(w, events[0]);
      RunKeepsConsistent(Step(w, events[0]), events[1..]);
    }
  }

  lemma StartIsConsistent()
    ensures Consistent(Start)
  {
  }

  /** Under any interleaving: at most 48 sessions are pending, under one-byte identifiers different from their
      Initiators' own, and every session created is either pending or consumed. */
  lemma SessionsAreConserved(events: seq<Event>)
    requires Executable(Start, events)
    ensures var w := Run(Start, events);
      && w.created == |w.store.pending| + |w.consumed| && |w.store.pending| <= 48
      && forall c | c in w.store.pending :: IsCandidate(c) && w.store.pending[c].cI != c
  {
    hide HandlersInOrder, HookInOrder, IsCandidate, Run;
    assert Consistent(Start) by { StartIsConsistent(); }
    RunKeepsConsistent(Start, events);
    AtMost48(Run(Start, events).store.pending);
  }

  /** The hook fires at most once for a session, only for consumed ones, and with a Sender identifier different
      from the Recipient's. */
  lemma HookFiresAtMostOnce(events: seq<Event>, i: nat, j: nat)
    requires Executable(Start, events) && i < |Run(Start, events).established| && j < |Run(Start, events).established|
    requires Run(Start, events).established[i].serial == Run(Start, events).established[j].serial
    ensures i == j
    ensures Run(Start, events).established[i].serial in Run(Start, events).consumed
    ensures Run(Start, events).established[i].senderId != Run(Start, events).established[i].recipientId
  {
    RunKeepsConsistent(Start, events);
  }

  /** message_1 can be refused for want of an identifier only while 47 sessions are pending. */
  lemma RefusedOnlyWhenFull(events: seq<Event>, cI: ConnId)
    requires Executable(Start, events)
    ensures var w := Run(Start, events);
      (forall cR, responder :: !Enabled(w, Message1(cI, cR, responder))) ==> |w.store.pending| in {47, 48}
  {
    SessionsAreConserved(events);
    var w := Run(Start, events);
    if forall cR, responder :: !Enabled(w, Message1(cI, cR, responder)) {
      forall c ensures !IsFree(w.store.pending, cI, c) {
        assert !Enabled(w, Message1(cI, c, []));
      }
      ExhaustionTakes47(w.store.pending, cI);
    }
  }

  // ---------------------------------------------------------------- replays

  ghost predicate Replayable(w: World, payload: Bytes, until: real) {
    payload in w.store.completed && w.store.completed[payload].expires >= until
  }

  // The message_4s stored in a run, each with the payload it answers.
  ghost function Stored(w: World, events: seq<Event>): set<(Bytes, Bytes)>
    requires Executable(w, events)
    decreases |events|
  {
    if events == [] then {}
    else StoredBy(w, events[0]) + Stored(Step(w, events[0]), events[1..])
  }

  ghost function StoredBy(w: World, e: Event): set<(Bytes, Bytes)>
    requires Enabled(w, e)
  {
    if e.Complete? then {(w.handlers[e.h].payload, e.message4)} else {}
  }

  // Every answer given or about to be given, and every entry to replay, is among `stored`.
  ghost predicate AnswersAmong(w: World, stored: set<(Bytes, Bytes)>) {
    && (forall p | p in w.store.completed :: (p, w.store.completed[p].message4) in stored)
    && (forall h | h in w.handlers :: AnswerAmong(w.handlers[h], stored))
  }

  ghost predicate AnswerAmong(handler: Handler, stored: set<(Bytes, Bytes)>) {
    match handler.phase
    case Answering(_, _, message4) => (handler.payload, message4) in stored
    case Answered(message4) => (handler.payload, message4) in stored
    case _ => true
  }

  lemma StepKeepsAnswers(w: World, e: Event, stored: set<(Bytes, Bytes)>)
    requires Enabled(w, e) && AnswersAmong(w, stored)
    ensures AnswersAmong(Step(w, e), stored + StoredBy(w, e))
  {
    var u, more := Step(w, e), stored + StoredBy(w, e);
    forall h | h in u.handlers ensures AnswerAmong(u.handlers[h], more) {
      if h in w.handlers {
        assert AnswerAmong(w.handlers[h], stored);
      }
    }
  }

  lemma {:induction false} RunKeepsAnswers(w: World, events: seq<Event>, stored: set<(Bytes, Bytes)>)
    requires Executable(w, events) && AnswersAmong(w, stored)
    ensures AnswersAmong(Run(w, events), stored + Stored(w, events))
    decreases |events|
  {
    hide AnswersAmong;
    if events == [] {
      assert stored + {} == stored;
    } else {
      StepKeepsAnswers(w, events[0], stored);
      RunKeepsAnswers(Step(w, events[0]), events[1..], stored + StoredBy(w, events[0]));
      assert stored + Stored(w, events)
          == stored + StoredBy(w, events[0]) + Stored(Step(w, events[0]), events[1..]);
    }
  }

  /** In any run, a handler is answered only with a message_4 that some handler of the same payload stored after
      consuming a session: a replay can only repeat an answer once earned. */
  lemma AnswersWereStored(events: seq<Event>, h: nat)
    requires Executable(Start, events) && h in Run(Start, events).handlers
    requires Run(Start, events).handlers[h].phase.Answered?
    ensures var handler := Run(Start, events).handlers[h];
      (handler.payload, handler.phase.message4) in Stored(Start, events)
  {
    RunKeepsAnswers(Start, events, {});
    assert AnswerAmong(Run(Start, events).handlers[h], {} + Stored(Start, events));
  }

  // No handler completes a message_3 with this payload.
  ghost predicate Completes(w: World, e: Event, payload: Bytes)
    requires Enabled(w, e)
  {
    e.Complete? && w.handlers[e.h].payload == payload
  }

  lemma StepKeepsReplayable(w: World, e: Event, payload: Bytes, until: real)
    requires Enabled(w, e) && Replayable(w, payload, until) && w.now < until && until <= w.now + LIFETIME
    ensures Replayable(Step(w, e), payload, until)
    ensures !Completes(w, e, payload) ==>
      Step(w, e).store.completed[payload].message4 == w.store.completed[payload].message4
  {
  }

  ghost predicate NeverCompletes(w: World, events: seq<Event>, payload: Bytes)
    requires Executable(w, events)
    decreases |events|
  {
    events == [] || (!Completes(w, events[0], payload) && NeverCompletes(Step(w, events[0]), events[1..], payload))
  }

  lemma {:induction false} TimeOnlyPasses(w: World, events: seq<Event>)
    requires Executable(w, events)
    ensures Run(w, events).now >= w.now
    decreases |events|
  {
    if events != [] {
      TimeOnlyPasses(Step(w, events[0]), events[1..]);
    }
  }

  lemma {:induction false} RunKeepsReplayable(w: World, events: seq<Event>, payload: Bytes, until: real)
    requires Executable(w, events) && Replayable(w, payload, until)
    requires Run(w, events).now < until && until <= w.now + LIFETIME
    ensures Replayable(Run(w, events), payload, until)
    ensures NeverCompletes(w, events, payload) ==>
      Run(w, events).store.completed[payload].message4 == w.store.completed[payload].message4
    decreases |events|
  {
    if events != [] {
      var u := Step(w, events[0]);
      TimeOnlyPasses(u, events[1..]);
      assert u.now >= w.now;
      StepKeepsReplayable(w, events[0], payload, until);
      RunKeepsReplayable(u, events[1..], payload, until);
    }
  }

  /** After message_4 is stored, every retransmission that is looked up within the lifetime is answered with
      it - whatever else happens in between - and starts no second exchange. */
  lemma ReplayedWithinLifetime(w: World, h: nat, message4: Bytes, events: seq<Event>, g: nat)
    requires Enabled(w, Complete(h, message4)) && Executable(Step(w, Complete(h, message4)), events)
    requires NeverCompletes(Step(w, Complete(h, message4)), events, w.handlers[h].payload)
    requires var u := Run(Step(w, Complete(h, message4)), events);
      && u.now < w.now + 247.0
      && Enabled(u, LookUp(g)) && u.handlers[g].payload == w.handlers[h].payload
    ensures var u := Run(Step(w, Complete(h, message4)), events);
      var v := Step(u, LookUp(g));
      && v.handlers[g].phase == Answered(message4)
      && v.store.pending == u.store.pending && v.established == u.established
  {
    var start := Step(w, Complete(h, message4));
    RunKeepsReplayable(start, events, w.handlers[h].payload, w.now + LIFETIME);
  }

  /** A retransmission that is looked up before message_4 is stored is refused: when two handlers of the same
      message_3 have both missed, the first takes the session and the second fails, although the first goes on
      to succeed. So replay is promised exactly to look-ups that find an entry, not to every retransmission. */
  lemma EarlyRetransmissionIsRefused(w: World, h: nat, g: nat, cR: ConnId, message4: Bytes)
    requires h != g && h in w.handlers && g in w.handlers && w.handlers[h].payload == w.handlers[g].payload
    requires w.handlers[h].phase == w.handlers[g].phase == Missed && cR in w.store.pending
    ensures var events := [Take(h, cR), Take(g, cR), Complete(h, message4), Notify(h)];
      && Executable(w, events)
      && var u := Run(w, events);
         && h in u.handlers && u.handlers[h].phase == Answered(message4)
         && g in u.handlers && u.handlers[g].phase == Refused
         && Replayable(u, w.handlers[g].payload, w.now + LIFETIME)
  {
    var w1 := Step(w, Take(h, cR));
    var w2 := Step(w1, Take(g, cR));
    var w3 := Step(w2, Complete(h, message4));
    var w4 := Step(w3, Notify(h));
    var tail3: seq<Event> := [Notify(h)];
    var tail2 := [Complete(h, message4)] + tail3;
    var tail1 := [Take(g, cR)] + tail2;
    var all := [Take(h, cR)] + tail1;
    NothingLeft(w4);
    Unfold(w3, tail3);
    Unfold(w2, tail2);
    Unfold(w1, tail1);
    Unfold(w, all);
    assert all == [Take(h, cR), Take(g, cR), Complete(h, message4), Notify(h)];
  }

  lemma NothingLeft(w: World)
    ensures Executable(w, []) && Run(w, []) == w
  {
  }

  lemma Unfold(w: World, events: seq<Event>)
    requires events != [] && Enabled(w, events[0]) && Executable(Step(w, events[0]), events[1..])
    ensures Executable(w, events) && Run(w, events) == Run(Step(w, events[0]), events[1..])
  {
  }
}
