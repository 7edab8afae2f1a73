/** What the registry answers and touches, event by event: the reply to every registration, what a packet carries on
    the wire, and which observers an event may change. */
module ObserveReplies {
  import opened Coap
  import opened Etag
  import opened ObserveSpec
  import opened ObserveLaws
  import opened ObserveRuns

  // ---------------------------------------------------------------- a packet on the wire

  // A payload goes out whole unless the client asked for blocks and it is longer than one.
  predicate CutAsAsked(m: Message, payload: Bytes, preferred: Option<nat>) {
    if preferred.Some? && |payload| > preferred.value then
      && m.block2.Block? && m.block2.value.num == 0 && m.block2.value.more
      && m.block2.value.Size() == preferred.value && m.payload == payload[..preferred.value]
    else m.block2.Absent? && m.payload == payload
  }

  /** A packet's message has the packet's header; it shows a version as a 2.05, cut as the client asked, and is a 4.04
      without content when there is none to show. */
  lemma PacketOnTheWire(p: Sent)
    requires ValidlyCut(p)
    ensures var m := MessageOf(p);
      && m.mtype == p.mtype && m.id == p.id && m.token == p.token && m.block1.Absent?
      && match p.shown
         case None =>
           && m.status == NotFound && m.payload == [] && m.block2.Absent?
           && m.observe.None? && m.etag.None? && m.size2.None?
         case Some(Shown(version, payload, preferred)) =>
           && m.status == Content && Represents(m, version, payload) && CutAsAsked(m, payload, preferred)
  {
    if p.shown.Some? {
      PacketRepresents(p);
    }
  }

  // ---------------------------------------------------------------- the reply to a registration

  /** Every registration is answered by exactly one packet, if a reply was prepared for it, under that reply's id and
      token. For a path that was never set it is a 4.04 and nothing else happens; for
      any other it is a non-confirmable 2.05 with the latest version, and whatever was registered before, the observer
      is now registered with what the request says and awaits nothing. */
  lemma RegistrationIsAnswered(s: State, responder: SocketAddr, path: string, token: Bytes, preferred: Option<nat>,
                               reply: Option<ReplyTemplate>)
    requires WellFormed(s) && Enabled(s, RegisterRequest(responder, path, token, preferred, reply))
    ensures var t := Step(s, RegisterRequest(responder, path, token, preferred, reply));
      && t.versions == s.versions && t.lastId == s.lastId
      && t.observers == (if path !in s.versions then s.observers
           else s.observers[Observation(responder.text, path) := Registration(responder, token, preferred, None)])
      && (reply.None? ==> t.outbox == s.outbox)
      && (reply.Some? ==>
            && |t.outbox| == |s.outbox| + 1 && t.outbox[..|s.outbox|] == s.outbox
            && IsReplyTo(s, t.outbox[|s.outbox|], responder, path, preferred, reply.value))
  {
    hide EtagOf, EncodeCoapUint;
    if reply.Some? {
      var t := Step(s, RegisterRequest(responder, path, token, preferred, reply));
      ReplyIs(s, responder, path, token, preferred, reply.value);
      assert t.outbox == s.outbox + [t.outbox[|s.outbox|]];
    }
  }

  ghost predicate IsReplyTo(s: State, p: Sent, responder: SocketAddr, path: string, preferred: Option<nat>,
                            reply: ReplyTemplate) {
    var m := MessageOf(p);
    && p.to == responder && p.path == path && m.id == reply.id && m.token == reply.token
    && if path in s.versions then
         && m.mtype == NonConfirmable && m.status == Content && s.versions[path] != []
         && Represents(m, |s.versions[path]| - 1, Latest(s, path)) && CutAsAsked(m, Latest(s, path), preferred)
       else
         && m.mtype == reply.mtype && m.status == NotFound && m.payload == []
         && m.observe.None? && m.etag.None? && m.block2.Absent?
  }

  lemma ReplyIs(s: State, responder: SocketAddr, path: string, token: Bytes, preferred: Option<nat>,
                reply: ReplyTemplate)
    requires WellFormed(s) && (preferred.Some? ==> ValidBlockSize(preferred.value))
    ensures var t := Register(s, responder, path, token, preferred, Some(reply));
      && |t.outbox| == |s.outbox| + 1 && t.outbox == s.outbox + [t.outbox[|s.outbox|]]
      && IsReplyTo(s, t.outbox[|s.outbox|], responder, path, preferred, reply)
  {
    hide EtagOf, EncodeCoapUint, FirstBlock;
    var t := Register(s, responder, path, token, preferred, Some(reply));
    PacketOnTheWire(t.outbox[|s.outbox|]);
  }

  // ---------------------------------------------------------------- what an event may touch

  // The observers whose registration an event may change.
  ghost predicate Concerns(s: State, e: Event, o: Observation) {
    match e
    case RegisterRequest(responder, path, _, _, _) => o == Observation(responder.text, path)
    case DeregisterRequest(source, path, token) =>
      o == Observation(source.text, path) && o in s.observers && s.observers[o].token == token
    case PutRequest(path, _, _) => o.path == path
    case AckMessage(id, token) => Owns(s, o, id) && s.observers[o].token == token
    case ResetMessage(id, from) => Owns(s, o, id) && from == Some(s.observers[o].responder)
    case Tick(_) => o in Unacknowledged(s)
    case OtherRequest => false
  }

  ghost predicate Same(s: State, t: State, o: Observation) {
    (o in t.observers <==> o in s.observers) && (o in s.observers ==> t.observers[o] == s.observers[o])
  }

  lemma PutTouches(s: State, path: string, payload: Bytes, order: seq<Observation>, o: Observation)
    requires WellFormed(s) && Enumerates(order, ObserversOf(s, path)) && o.path != path
    ensures forall o | o in order :: o in s.observers && o.path == path
    ensures Same(s, Put(s, path, payload, order), o)
  {
    PutNotifiesOnlyObservers(s, path, payload, order);
    assert o in Put(s, path, payload, order).observers.Keys <==> o in s.observers.Keys;
  }

  lemma TickTouches(s: State, order: seq<Observation>, o: Observation)
    requires WellFormed(s) && Enumerates(order, Unacknowledged(s)) && o !in Unacknowledged(s)
    ensures forall o | o in order :: Waits(s, o)
    ensures Same(s, TickAll(s, order), o)
  {
    TickAges(s, order);
    assert o in TickAll(s, order).observers.Keys <==> o in s.observers.Keys;
  }

  lemma AckTouches(s: State, id: U16, token: Bytes, o: Observation)
    requires WellFormed(s) && !(Owns(s, o, id) && s.observers[o].token == token)
    ensures Same(s, Acknowledge(s, id, token), o)
  {
    if p: Observation :| Owns(s, p, id) {
      OnlyOwnerRetired(s, id, token, p);
    }
  }

  lemma ResetTouches(s: State, id: U16, from: Option<SocketAddr>, o: Observation)
    requires WellFormed(s) && !(Owns(s, o, id) && from == Some(s.observers[o].responder))
    ensures Same(s, ResetNotification(s, id, from), o)
  {
    if p: Observation :| Owns(s, p, id) {
      OnlyOwnerRemoved(s, id, from, p);
    }
  }

  /** An event changes the registrations it concerns and no others: a deregistration or an acknowledgement under
      another token, or a reset from another address, changes nothing at all. */
  lemma OnlyConcernedChange(s: State, e: Event, o: Observation)
    requires WellFormed(s) && Enabled(s, e) && !Concerns(s, e, o)
    ensures Same(s, Step(s, e), o)
  {
    hide WellFormed, Owns;
    match e
    case PutRequest(path, payload, order) => PutTouches(s, path, payload, order, o);
    case Tick(order) => TickTouches(s, order, o);
    case AckMessage(id, token) => AckTouches(s, id, token, o);
    case ResetMessage(id, from) => ResetTouches(s, id, from, o);
    case _ =>
  }

  /** Only a PUT adds a version or numbers a message, and only registrations, PUTs and ticks send. */
  lemma OnlySomeSend(s: State, e: Event)
    requires WellFormed(s) && Enabled(s, e)
    ensures !e.PutRequest? ==> Step(s, e).versions == s.versions && Step(s, e).lastId == s.lastId
    ensures !e.PutRequest? && !e.RegisterRequest? && !e.Tick? ==> Step(s, e).outbox == s.outbox
  {
  }

  /** A deregistration under the registered token takes the observer away, with what it awaited. */
  lemma DeregistrationRemovesIff(s: State, source: SocketAddr, path: string, token: Bytes)
    requires WellFormed(s) && Observation(source.text, path) in s.observers
    ensures var o := Observation(source.text, path);
      var t := Step(s, DeregisterRequest(source, path, token));
      && (o !in t.observers <==> s.observers[o].token == token)
      && (s.observers[o].token != token ==> t == s)
      && (o !in t.observers ==> forall id: U16 :: !Owns(t, o, id))
  {
  }
}
