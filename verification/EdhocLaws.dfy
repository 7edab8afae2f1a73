/** More of what EDHOC sessions promise under any interleaving: what a session remembers of its message_1, when a
    replay ends, and what a connection identifier is on the wire. */
module EdhocLaws {
  import opened Coap
  import opened EdhocErrors
  import opened EdhocSpec

  // ---------------------------------------------------------------- connection identifiers on the wire

  /** C_R is any one-byte integer in CBOR: major type 0 or 1 with the argument in the first byte. */
  lemma CandidatesAreSmallIntegers(c: ConnId)
    ensures IsCandidate(c)
       <==> |c| == 1 && ReadHead(c).Some? && ReadHead(c).value.size == 1 && ReadHead(c).value.major < 2
  {
    if |c| == 1 && ReadHead(c).Some? && ReadHead(c).value.major < 2 {
      var i := if c[0] < 24 then c[0] else c[0] - 0x20 + 24;
      assert Candidate(i) == c;
    }
  }

  // ---------------------------------------------------------------- what a session remembers

  // What a message_1 brought with it and what was made of it.
  datatype Opening = Opening(cI: ConnId, cR: ConnId, responder: Bytes)

  // The message_1s of a run that got through, in order.
  function Openings(events: seq<Event>): seq<Opening> {
    if events == [] then []
    else (if events[0].Message1? then [Opening(events[0].cI, events[0].cR, events[0].responder)] else [])
         + Openings(events[1..])
  }

  ghost predicate Remembers(session: Session, cR: ConnId, openings: seq<Opening>) {
    session.serial < |openings| && openings[session.serial] == Opening(session.cI, cR, session.responder)
  }

  ghost predicate AllRemember(w: World, openings: seq<Opening>) {
    && w.created == |openings|
    && (forall c | c in w.store.pending :: Remembers(w.store.pending[c], c, openings))
    && (forall h, c, s | Holds(w, h, c, s) :: Remembers(s, c, openings))
    && (forall i | 0 <= i < |w.established| :: TellsOf(w.established[i], openings))
  }

  // The hook is told the identifiers of the session, the Initiator's for sending and this side's for receiving.
  ghost predicate TellsOf(e: Established, openings: seq<Opening>) {
    && e.serial < |openings|
    && e.senderId == openings[e.serial].cI && e.recipientId == openings[e.serial].cR
  }

  function OpeningOf(e: Event): seq<Opening> {
    if e.Message1? then [Opening(e.cI, e.cR, e.responder)] else []
  }

  lemma RemembersMore(session: Session, cR: ConnId, openings: seq<Opening>, more: seq<Opening>)
    requires Remembers(session, cR, openings)
    ensures Remembers(session, cR, openings + more)
  {
  }

  lemma StepKeepsMemory(w: World, e: Event, openings: seq<Opening>)
    requires Enabled(w, e) && AllRemember(w, openings)
    ensures AllRemember(Step(w, e), openings + OpeningOf(e))
  {
    hide Holds, IsFree, Remembers;
    var u, all := Step(w, e), openings + OpeningOf(e);
    forall c | c in u.store.pending ensures Remembers(u.store.pending[c], c, all) {
      PendingBefore(w, e, openings, c);
    }
    forall h, c, s | Holds(u, h, c, s) ensures Remembers(s, c, all) {
      HeldBefore(w, e, h, c, s);
      RemembersMore(s, c, openings, OpeningOf(e));
    }
    forall i | 0 <= i < |u.established| ensures TellsOf(u.established[i], all) {
      if i < |w.established| {
        assert TellsOf(w.established[i], openings);
      } else {
        NotifiedHeld(w, e.h);
        ToldOf(w, e.h, openings);
      }
    }
  }

  lemma PendingBefore(w: World, e: Event, openings: seq<Opening>, c: ConnId)
    requires Enabled(w, e) && AllRemember(w, openings) && c in Step(w, e).store.pending
    ensures Remembers(Step(w, e).store.pending[c], c, openings + OpeningOf(e))
  {
    hide Holds;
    if c in w.store.pending {
      assert Remembers(w.store.pending[c], c, openings);
    }
  }

  lemma ToldOf(w: World, h: nat, openings: seq<Opening>)
    requires Enabled(w, Notify(h)) && AllRemember(w, openings)
    requires Holds(w, h, w.handlers[h].phase.cR, w.handlers[h].phase.session)
    ensures var e := Step(w, Notify(h)).established;
      e == w.established + [e[|w.established|]] && TellsOf(e[|w.established|], openings)
  {
    hide Holds;
    assert Remembers(w.handlers[h].phase.session, w.handlers[h].phase.cR, openings);
  }

  lemma {:induction false} RunKeepsMemory(w: World, events: seq<Event>, openings: seq<Opening>)
    requires Executable(w, events) && AllRemember(w, openings)
    ensures AllRemember(Run(w, events), openings + Openings(events))
    decreases |events|
  {
    hide AllRemember;
    if events == [] {
      assert openings + [] == openings;
    } else {
      StepKeepsMemory(w, events[0], openings);
      RunKeepsMemory(Step(w, events[0]), events[1..], openings + OpeningOf(events[0]));
      assert openings + OpeningOf(events[0]) + Openings(events[1..]) == openings + Openings(events);
    }
  }

  /** In any run, a pending session is exactly what its message_1 opened: the n-th to get through, under the C_R then
      chosen, with its Initiator's identifier and the state lakers then made. And what the hook is told of the n-th
      session are the identifiers of the n-th message_1, the Initiator's as Sender and this side's as Recipient
      (Appendix A.1 of RFC 9528). */
  lemma SessionsAreAsOpened(events: seq<Event>)
    requires Executable(Start, events)
    ensures var (w, openings) := (Run(Start, events), Openings(events));
      && w.created == |openings|
      && (forall c | c in w.store.pending ::
            var s := w.store.pending[c];
            s.serial < |openings| && openings[s.serial] == Opening(s.cI, c, s.responder))
      && forall i | 0 <= i < |w.established| ::
           var e := w.established[i];
           && e.serial < |openings|
           && e.senderId == openings[e.serial].cI && e.recipientId == openings[e.serial].cR
  {
    RunKeepsMemory(Start, events, []);
    assert [] + Openings(events) == Openings(events);
    var w := Run(Start, events);
    forall c | c in w.store.pending ensures Remembers(w.store.pending[c], c, Openings(events)) {
    }
    forall i | 0 <= i < |w.established| ensures TellsOf(w.established[i], Openings(events)) {
    }
  }

  // ---------------------------------------------------------------- the end of replays

  // The entry for the payload, if any, expires by `until`.
  ghost predicate ExpiresBy(w: World, payload: Bytes, until: real) {
    payload in w.store.completed ==> w.store.completed[payload].expires <= until
  }

  lemma {:induction false} RunKeepsExpiry(w: World, events: seq<Event>, payload: Bytes, until: real)
    requires Executable(w, events) && NeverCompletes(w, events, payload) && ExpiresBy(w, payload, until)
    ensures ExpiresBy(Run(w, events), payload, until)
    decreases |events|
  {
    if events != [] {
      assert ExpiresBy(Step(w, events[0]), payload, until);
      RunKeepsExpiry(Step(w, events[0]), events[1..], payload, until);
    }
  }

  /** A completed session is remembered for 247 seconds and no longer: a look-up that comes later is not answered
      with its message_4, unless the same payload was completed again in between. With ReplayedWithinLifetime this
      is exact. */
  lemma ForgottenAfterLifetime(w: World, h: nat, message4: Bytes, events: seq<Event>, g: nat)
    requires Enabled(w, Complete(h, message4)) && Executable(Step(w, Complete(h, message4)), events)
    requires NeverCompletes(Step(w, Complete(h, message4)), events, w.handlers[h].payload)
    requires var u := Run(Step(w, Complete(h, message4)), events);
      && u.now >= w.now + 247.0
      && Enabled(u, LookUp(g)) && u.handlers[g].payload == w.handlers[h].payload
    ensures var u := Run(Step(w, Complete(h, message4)), events);
      Step(u, LookUp(g)).handlers[g].phase == Missed && w.handlers[h].payload !in Step(u, LookUp(g)).store.completed
  {
    var start := Step(w, Complete(h, message4));
    RunKeepsExpiry(start, events, w.handlers[h].payload, w.now + 247.0);
  }
}
