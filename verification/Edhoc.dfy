/** The EDHOC Responder store of src/edhoc/mod.rs, updated in place. Each method takes the locks, and so the
    atomic steps of EdhocSpec, in the source's order; run without interruption they compose as stated. */
module Edhoc {
  import opened Coap
  import opened EdhocErrors
  import opened EdhocSpec

  type EdhocResult<+T> = Result<T, EdhocError>

  // What a completed handshake yields.
  datatype OscoreSecrets = OscoreSecrets(masterSecret: Bytes, masterSalt: Bytes, senderId: ConnId,
      recipientId: ConnId, prkOut: Bytes)

  // What lakers derives from an accepted message_3.
  datatype Accepted = Accepted(message4: Bytes, masterSecret: Bytes, masterSalt: Bytes, prkOut: Bytes)

  /** lakers, as functions about which nothing is assumed. `connIdPrefix` reads C_R off a payload, or names the
      part it finds malformed. */
  datatype Lakers = Lakers(
    maxMessage: nat,
    processMessage1: Bytes -> Result<(ConnId, Bytes), ProtocolError>,
    prepareMessage2: (Bytes, ConnId) -> Result<(Bytes, Bytes), ProtocolError>,
    connIdPrefix: Bytes -> Result<(ConnId, Bytes), string>,
    processMessage3: (Bytes, Bytes) -> EdhocResult<Accepted>)

  // The identifiers left to choose from, in the order of the source's range chain.
  method FreeIdentifiers(pending: map<ConnId, Session>, cI: ConnId) returns (free: seq<ConnId>)
    ensures forall c :: c in free <==> IsFree(pending, cI, c)
  {
    hide Candidate;
    free := [];
    for raw := 0 to 48
      invariant forall c :: c in free <==> (exists i :: 0 <= i < raw && Candidate(i) == c) && c !in pending && c != cI
    {
      var c := Candidate(raw);
      if c != cI && c !in pending {
        free := free + [c];
      }
    }
  }

  /** A free identifier, if there is one; `random` picks which. */
  method AllocateConnectionIdentifier(pending: map<ConnId, Session>, cI: ConnId, random: nat)
      returns (r: EdhocResult<ConnId>)
    ensures r.Ok? ==> IsFree(pending, cI, r.value)
    ensures r.Err? <==> forall c :: !IsFree(pending, cI, c)
    ensures r.Err? ==> r.error == NoConnectionIdentifierAvailable && |pending| >= 47
  {
    hide IsFree;
    var free := FreeIdentifiers(pending, cI);
    if free == [] {
      forall c ensures !IsFree(pending, cI, c) {
        assert c !in free;
      }
      ExhaustionTakes47(pending, cI);
      return Err(NoConnectionIdentifierAvailable);
    }
    assert free[random % |free|] in free;
    r := Ok(free[random % |free|]);
  }

  /** What a message_1 comes to. One that is too long or that lakers refuses is answered with that error; so is one
      that comes when no identifier is free, with at least 47 sessions pending then; in all these cases nothing
      changes. For any other an identifier free at the time is chosen and lakers prepares message_2 for it. If it
      does, message_2 is the answer and the session is opened under that identifier, with the Initiator's own and
      the Responder's state; if not, its error is the answer and nothing changes. */
  ghost predicate Answered1(lakers: Lakers, payload: Bytes, before: Store, createdBefore: nat,
                            r: EdhocResult<Bytes>, after: Store, createdAfter: nat) {
    var first := lakers.processMessage1(payload);
    && (r.Err? ==> after == before && createdAfter == createdBefore)
    && (|payload| > lakers.maxMessage ==> r == Err(EdhocError.Malformed("message_1")))
    && (|payload| <= lakers.maxMessage && first.Err? ==> r == Err(Protocol(first.error)))
    && (r == Err(NoConnectionIdentifierAvailable) <==>
          |payload| <= lakers.maxMessage && first.Ok? && forall c :: !IsFree(before.pending, first.value.0, c))
    && (r == Err(NoConnectionIdentifierAvailable) ==> |before.pending| >= 47)
    && (|payload| <= lakers.maxMessage && first.Ok? && r != Err(NoConnectionIdentifierAvailable) ==>
          exists cR ::
            PreparedUnder(lakers, cR, first.value.0, first.value.1, before, createdBefore, r, after, createdAfter))
  }

  // message_2 is prepared for the identifier `cR`, and the answer and the session are what lakers made of it.
  ghost predicate PreparedUnder(lakers: Lakers, cR: ConnId, cI: ConnId, state: Bytes, before: Store,
                                createdBefore: nat, r: EdhocResult<Bytes>, after: Store, createdAfter: nat) {
    && IsFree(before.pending, cI, cR)
    && match lakers.prepareMessage2(state, cR)
       case Err(error) => r == Err(Protocol(error))
       case Ok((responder, message2)) =>
         && r == Ok(message2) && createdAfter == createdBefore + 1
         && after.completed == before.completed
         && after.pending == before.pending[cR := Session(createdBefore, cI, responder)]
  }

  // The store after a message_3 whose handler is not interrupted.
  function After3(store: Store, lakers: Lakers, payload: Bytes, now: real, later: real): Store {
    var kept := Retained(store, now);
    if payload in kept.completed then kept
    else match lakers.connIdPrefix(payload)
      case Err(_) => kept
      case Ok((cR, message3)) =>
        if |message3| > lakers.maxMessage || cR !in store.pending then kept
        else match lakers.processMessage3(store.pending[cR].responder, message3)
          case Err(_) => Taken(kept, cR)
          case Ok(accepted) => Remembered(Taken(kept, cR), payload, accepted.message4, later)
  }

  // And its answer.
  function Answer3(store: Store, lakers: Lakers, payload: Bytes, now: real): EdhocResult<Bytes> {
    var completed := Retained(store, now).completed;
    if payload in completed then Ok(completed[payload].message4)
    else match lakers.connIdPrefix(payload)
      case Err(what) => Err(EdhocError.Malformed(what))
      case Ok((cR, message3)) =>
        if |message3| > lakers.maxMessage then Err(EdhocError.Malformed("message_3"))
        else if cR !in store.pending then Err(UnknownSession)
        else match lakers.processMessage3(store.pending[cR].responder, message3)
          case Err(error) => Err(error)
          case Ok(accepted) => Ok(accepted.message4)
  }

  /** Why a message_3 is refused, in the order of the checks, and that no refusal but lakers' own costs a session;
      and a retransmission is answered as before whatever lakers would say of it. */
  lemma AnswersTellWhy(store: Store, lakers: Lakers, payload: Bytes, now: real, later: real)
    ensures var (r, after) := (Answer3(store, lakers, payload, now), After3(store, lakers, payload, now, later));
      var replayed := payload in store.completed && store.completed[payload].expires > now;
      var prefix := lakers.connIdPrefix(payload);
      && (replayed ==> r == Ok(store.completed[payload].message4) && after.pending == store.pending)
      && (!replayed && prefix.Err? ==> r == Err(EdhocError.Malformed(prefix.error)) && after.pending == store.pending)
      && (!replayed && prefix.Ok? ==>
            var (cR, message3) := prefix.value;
            if |message3| > lakers.maxMessage then
              r == Err(EdhocError.Malformed("message_3")) && after.pending == store.pending
            else if cR !in store.pending then r == Err(UnknownSession) && after.pending == store.pending
            else
              var outcome := lakers.processMessage3(store.pending[cR].responder, message3);
              && after.pending == store.pending - {cR}
              && (outcome.Err? ==> r == Err(outcome.error) && payload !in after.completed)
              && (outcome.Ok? ==>
                    && r == Ok(outcome.value.message4) && payload in after.completed
                    && after.completed[payload] == Completed(outcome.value.message4, later + 247.0)))
      && (forall p | p != payload ::
            p in after.completed <==> p in store.completed && store.completed[p].expires > now)
      && (forall p | p != payload && p in after.completed :: after.completed[p] == store.completed[p])
  {
  }

  /** A handshake goes on as it began: after a message_1 that was answered, a message_3 under the C_R then chosen is
      processed with the state that lakers made when it prepared that answer, and if lakers accepts it, the session
      announced is the one opened, between the Initiator's identifier and that C_R. */
  lemma HandshakeContinues(lakers: Lakers, payload: Bytes, before: Store, created: nat, r: EdhocResult<Bytes>,
                           after: Store, createdAfter: nat) returns (cR: ConnId, responder: Bytes)
    requires Answered1(lakers, payload, before, created, r, after, createdAfter) && r.Ok?
    ensures lakers.processMessage1(payload).Ok?
    ensures var (cI, state) := lakers.processMessage1(payload).value;
      && IsFree(before.pending, cI, cR)
      && lakers.prepareMessage2(state, cR) == Ok((responder, r.value))
      && forall payload3, message3, now |
           && payload3 !in Retained(after, now).completed
           && lakers.connIdPrefix(payload3) == Ok((cR, message3)) && |message3| <= lakers.maxMessage ::
           var outcome := lakers.processMessage3(responder, message3);
           && Answer3(after, lakers, payload3, now)
              == (if outcome.Ok? then Ok(outcome.value.message4) else Err(outcome.error))
           && Announced3(after, lakers, payload3, now)
              == if outcome.Ok? then Some((cR, Session(created, cI, responder), outcome.value)) else None
  {
    var (cI, state) := lakers.processMessage1(payload).value;
    cR :| PreparedUnder(lakers, cR, cI, state, before, created, r, after, createdAfter);
    responder := lakers.prepareMessage2(state, cR).value.0;
  }

  // The session it completes, if any, with its C_R and what lakers derived.
  function Announced3(store: Store, lakers: Lakers, payload: Bytes, now: real): Option<(ConnId, Session, Accepted)> {
    if payload in Retained(store, now).completed then None
    else match lakers.connIdPrefix(payload)
      case Err(_) => None
      case Ok((cR, message3)) =>
        if |message3| > lakers.maxMessage || cR !in store.pending then None
        else match lakers.processMessage3(store.pending[cR].responder, message3)
          case Err(_) => None
          case Ok(accepted) => Some((cR, store.pending[cR], accepted))
  }

  class EdhocResponderStore {
    var pending: map<ConnId, Session>
    var completed: map<Bytes, Completed>

    // How many sessions were created, and what the hook was told.
    var created: nat
    var established: seq<(SocketAddr, OscoreSecrets)>

    function Store(): Store
      reads this
    {
      EdhocSpec.Store(pending, completed)
    }

    constructor ()
      ensures Store() == Start.store && created == 0 && established == []
    {
      pending, completed, created, established := map[], map[], 0, [];
    }

    /** message_1: a new session under a free identifier, or an error and no change. */
    method ProcessMessage1(lakers: Lakers, payload: Bytes, random: nat) returns (r: EdhocResult<Bytes>)
      modifies this`pending, this`created
      ensures Answered1(lakers, payload, old(Store()), old(created), r, Store(), created)
    {
      if |payload| > lakers.maxMessage {
        return Err(EdhocError.Malformed("message_1"));
      }
      var first := lakers.processMessage1(payload);
      if first.Err? {
        return Err(Protocol(first.error));
      }
      var (cI, state) := first.value;
      var cR := AllocateConnectionIdentifier(pending, cI, random);
      if cR.Err? {
        return Err(cR.error);
      }
      var prepared := lakers.prepareMessage2(state, cR.value);
      if prepared.Err? {
        r := Err(Protocol(prepared.error));
        assert PreparedUnder(lakers, cR.value, cI, state, old(Store()), old(created), r, Store(), created);
        return;
      }
      var (responder, message2) := prepared.value;
      pending := pending[cR.value := Session(created, cI, responder)];
      created := created + 1;
      r := Ok(message2);
      assert PreparedUnder(lakers, cR.value, cI, state, old(Store()), old(created), r, Store(), created);
    }

    /** message_3: the stored message_4 for a payload already answered; otherwise the pending session named by
        its prefix is consumed, whatever comes of it. `now` and `later` are the two readings of the clock. */
    method ProcessMessage3(lakers: Lakers, peer: SocketAddr, payload: Bytes, hooked: bool, now: real, later: real)
      returns (r: EdhocResult<Bytes>)
      modifies this`pending, this`completed, this`established
      ensures Store() == After3(old(Store()), lakers, payload, now, later)
      ensures r == Answer3(old(Store()), lakers, payload, now)
      ensures established == old(established) + match Announced3(old(Store()), lakers, payload, now)
        case Some((cR, session, a)) =>
          if hooked then [(peer, OscoreSecrets(a.masterSecret, a.masterSalt, session.cI, cR, a.prkOut))] else []
        case None => []
    {
      completed := map p | p in completed && completed[p].expires > now :: completed[p];
      if payload in completed {
        return Ok(completed[payload].message4);
      }
      var prefix := lakers.connIdPrefix(payload);
      if prefix.Err? {
        return Err(EdhocError.Malformed(prefix.error));
      }
      var (cR, message3) := prefix.value;
      if |message3| > lakers.maxMessage {
        return Err(EdhocError.Malformed("message_3"));
      }
      if cR !in pending {
        return Err(UnknownSession);
      }
      var session := pending[cR];
      pending := pending - {cR};
      var accepted := lakers.processMessage3(session.responder, message3);
      if accepted.Err? {
        return Err(accepted.error);
      }
      var message4 := accepted.value.message4;
      completed := completed[payload := Completed(message4, later + LIFETIME)];
      // Appendix A.1 of RFC 9528: the Responder sends under the Initiator's identifier and receives under its own.
      var secrets := OscoreSecrets(accepted.value.masterSecret, accepted.value.masterSalt, session.cI, cR,
                                   accepted.value.prkOut);
      if hooked {
        established := established + [(peer, secrets)];
      }
      r := Ok(message4);
    }

    // The first byte tells message_1, prefixed with CBOR true, from message_3.
    method ProcessEdhocMessage(lakers: Lakers, peer: SocketAddr, payload: Bytes, hooked: bool, random: nat,
                               now: real, later: real) returns (r: EdhocResult<Bytes>)
      modifies this
      ensures if payload != [] && payload[0] == 0xF5 then
          Answered1(lakers, payload[1..], old(Store()), old(created), r, Store(), created)
              && established == old(established)
        else
          && r == Answer3(old(Store()), lakers, payload, now)
          && Store() == After3(old(Store()), lakers, payload, now, later)
          && created == old(created)
          && established == old(established) + match Announced3(old(Store()), lakers, payload, now)
               case Some((cR, session, a)) =>
                 if hooked then [(peer, OscoreSecrets(a.masterSecret, a.masterSalt, session.cI, cR, a.prkOut))] else []
               case None => []
    {
      if payload != [] && payload[0] == 0xF5 {
        r := ProcessMessage1(lakers, payload[1..], random);
      } else {
        r := ProcessMessage3(lakers, peer, payload, hooked, now, later);
      }
    }
  }

  // ---------------------------------------------------------------- the methods as runs of the protocol

  // The steps of a handler that is not interrupted.
  ghost function HandlerSteps(h: nat, payload: Bytes, w: World, lakers: Lakers): seq<Event> {
    [Message3(h, payload), LookUp(h)]
    + if payload in Retained(w.store, w.now).completed then []
      else match lakers.connIdPrefix(payload)
        case Err(_) => [Refuse(h)]
        case Ok((cR, message3)) =>
          if |message3| > lakers.maxMessage then [Refuse(h)]
          else if cR !in w.store.pending then [Take(h, cR)]
          else match lakers.processMessage3(w.store.pending[cR].responder, message3)
            case Err(_) => [Take(h, cR), Refuse(h)]
            case Ok(accepted) => [Take(h, cR), Complete(h, accepted.message4), Notify(h)]
  }

  lemma RunThree(w: World, e1: Event, e2: Event, e3: Event)
    requires Enabled(w, e1) && Enabled(Step(w, e1), e2) && Enabled(Step(Step(w, e1), e2), e3)
    ensures Executable(w, [e1, e2, e3]) && Run(w, [e1, e2, e3]) == Step(Step(Step(w, e1), e2), e3)
  {
    RunTwo(Step(w, e1), e2, e3);
    Unfold(w, [e1, e2, e3]);
    assert [e1, e2, e3][1..] == [e2, e3];
  }

  lemma RunTwo(w: World, e1: Event, e2: Event)
    requires Enabled(w, e1) && Enabled(Step(w, e1), e2)
    ensures Executable(w, [e1, e2]) && Run(w, [e1, e2]) == Step(Step(w, e1), e2)
  {
    assert Executable(Step(w, e1), [e2]);
    assert [e1, e2][1..] == [e2];
    Unfold(w, [e1, e2]);
  }

  lemma {:induction false} RunSplits(w: World, first: seq<Event>, rest: seq<Event>)
    requires Executable(w, first) && Executable(Run(w, first), rest)
    ensures Executable(w, first + rest) && Run(w, first + rest) == Run(Run(w, first), rest)
    decreases |first|
  {
    if first == [] {
      assert first + rest == rest;
    } else {
      assert (first + rest)[1..] == first[1..] + rest;
      RunSplits(Step(w, first[0]), first[1..], rest);
    }
  }

  lemma HandlerRest(w: World, u: World, h: nat, payload: Bytes, lakers: Lakers, rest: seq<Event>)
    requires h !in w.handlers && u == Step(Step(w, Message3(h, payload)), LookUp(h))
    requires [Message3(h, payload), LookUp(h)] + rest == HandlerSteps(h, payload, w, lakers)
    ensures Executable(u, rest) && HandledAs(w, Run(u, rest), h, payload, lakers)
  {
    hide Run, Executable;
    assert HandlerSteps(h, payload, w, lakers)[2..] == rest;
    if rest == [] {
      NothingLeft(u);
    } else if |rest| == 1 {
      RunOne(u, rest[0]);
      assert rest == [rest[0]];
    } else if |rest| == 2 {
      RunTwo(u, rest[0], rest[1]);
      assert rest == [rest[0], rest[1]];
    } else {
      RunThree(u, rest[0], rest[1], rest[2]);
      assert rest == [rest[0], rest[1], rest[2]];
    }
  }

  lemma RunOne(w: World, e: Event)
    requires Enabled(w, e)
    ensures Executable(w, [e]) && Run(w, [e]) == Step(w, e)
  {
  }

  /** The run leaves the store, the answer and the hook as ProcessMessage3 does. */
  ghost predicate HandledAs(w: World, u: World, h: nat, payload: Bytes, lakers: Lakers) {
    && u.store == After3(w.store, lakers, payload, w.now, w.now)
    && u.created == w.created && h in u.handlers
    && (match Answer3(w.store, lakers, payload, w.now)
        case Ok(message4) => u.handlers[h].phase == Answered(message4)
        case Err(_) => u.handlers[h].phase == Refused)
    && (match Announced3(w.store, lakers, payload, w.now)
        case Some((cR, session, _)) =>
          u.established == w.established + [Established(session.serial, session.cI, cR)]
        case None => u.established == w.established)
  }

  /** An uninterrupted ProcessMessage3 is one of the interleavings EdhocSpec allows, so what is proved of all
      of them holds of it: of its store, its answer and its call of the hook. */
  lemma HandlerIsARun(w: World, h: nat, payload: Bytes, lakers: Lakers)
    requires h !in w.handlers
    ensures Executable(w, HandlerSteps(h, payload, w, lakers))
    ensures HandledAs(w, Run(w, HandlerSteps(h, payload, w, lakers)), h, payload, lakers)
  {
    hide Run, Executable, HandledAs;
    var steps := HandlerSteps(h, payload, w, lakers);
    var u := Step(Step(w, Message3(h, payload)), LookUp(h));
    assert steps == [Message3(h, payload), LookUp(h)] + steps[2..];
    RunTwo(w, Message3(h, payload), LookUp(h));
    HandlerRest(w, u, h, payload, lakers, steps[2..]);
    RunSplits(w, [Message3(h, payload), LookUp(h)], steps[2..]);
  }
}
