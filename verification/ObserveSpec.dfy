/** The Observe registry of src/observer.rs as one plain map per concern: who observes what, what
    each path has been set to, and what was handed to the responders. The class in Observer.dfy,
    with its four cross-indexed maps, is proved to follow these transitions; the lemmas here are
    about them. */
module ObserveSpec {
  import opened Coap
  import opened Etag

  const MAX_TRIES: nat := 10

  // An observation relationship: the printed address of the client and the path it observes.
  datatype Observation = Observation(endpoint: AddressText, path: string)

  // A confirmable notification waiting for its acknowledgement.
  datatype Pending = Pending(id: U16, tries: nat)

  datatype Registration = Registration(
    responder: SocketAddr,
    token: Bytes,
    blockSize: Option<nat>,
    pending: Option<Pending>)

  // The header coap-lite prepares for the reply to a request.
  datatype ReplyTemplate = ReplyTemplate(mtype: MessageType, id: U16, token: Bytes)

  // What a packet shows: the PUT to its path counted from 0, that PUT's payload, and the block
  // preference it was built for.
  datatype Shown = Shown(version: nat, payload: Bytes, blockSize: Option<nat>)

  // A packet handed to a responder's encoder; a NotFound reply shows nothing.
  datatype Sent = Sent(to: SocketAddr, path: string, mtype: MessageType, id: U16, token: Bytes, shown: Option<Shown>)

  datatype State = State(
    observers: map<Observation, Registration>,
    versions: map<string, seq<Bytes>>,
    lastId: U16,
    outbox: seq<Sent>)

  const Initial := State(map[], map[], 0, [])

  // ---------------------------------------------------------------- the packets

  /** A payload as the first packet carries it: whole, or cut to the client's block size. */
  function FirstBlock(payload: Bytes, preferred: Option<nat>): (BlockOption, Bytes) {
    if preferred.Some? && |payload| > preferred.value then
      (Block(BlockValue(0, true, ExponentFor(preferred.value))), payload[..preferred.value])
    else
      (Absent, payload)
  }

  /** The message a packet carries. */
  function MessageOf(p: Sent): Message {
    match p.shown
    case None => Message(p.mtype, NotFound, p.id, p.token, None, None, None, Absent, Absent, [])
    case Some(Shown(version, payload, blockSize)) =>
      var (block2, body) := FirstBlock(payload, blockSize);
      Message(p.mtype, Content, p.id, p.token, Some(version % 0x1_0000_0000), Some(EtagOf(payload)),
              Some(EncodeCoapUint(|payload|)), Absent, block2, body)
  }

  // A packet that shows the latest version of `path`.
  ghost function Show(s: State, to: SocketAddr, path: string, mtype: MessageType, id: U16, token: Bytes,
                      preferred: Option<nat>): Sent
    requires path in s.versions && s.versions[path] != []
  {
    var index := |s.versions[path]| - 1;
    Sent(to, path, mtype, id, token, Some(Shown(index, s.versions[path][index], preferred)))
  }

  ghost function Latest(s: State, path: string): Bytes
    requires path in s.versions && s.versions[path] != []
  {
    s.versions[path][|s.versions[path]| - 1]
  }

  ghost function NotificationTo(s: State, o: Observation, id: U16): Sent
    requires Shows(s, o)
  {
    var r := s.observers[o];
    Show(s, r.responder, o.path, Confirmable, id, r.token, r.blockSize)
  }

  ghost predicate Shows(s: State, o: Observation) {
    o in s.observers && o.path in s.versions && s.versions[o.path] != []
  }

  ghost predicate Waits(s: State, o: Observation) {
    Shows(s, o) && s.observers[o].pending.Some?
  }

  // ---------------------------------------------------------------- the transitions

  ghost predicate Owns(s: State, o: Observation, id: U16) {
    o in s.observers && s.observers[o].pending.Some? && s.observers[o].pending.value.id == id
  }

  ghost function Retired(s: State, o: Observation): State
    requires o in s.observers
  {
    s.(observers := s.observers[o := s.observers[o].(pending := None)])
  }

  ghost function Removed(s: State, o: Observation): State {
    s.(observers := s.observers - {o})
  }

  ghost function Register(s: State, responder: SocketAddr, path: string, token: Bytes, preferred: Option<nat>,
                          reply: Option<ReplyTemplate>): State
    requires path in s.versions ==> s.versions[path] != []
  {
    if path !in s.versions then
      if reply.Some? then
        s.(outbox := s.outbox + [Sent(responder, path, reply.value.mtype, reply.value.id, reply.value.token, None)])
      else s
    else
      var o := Observation(responder.text, path);
      var t := s.(observers := s.observers[o := Registration(responder, token, preferred, None)]);
      if reply.Some? then
        t.(outbox := t.outbox + [Show(s, responder, path, NonConfirmable, reply.value.id, reply.value.token,
            preferred)])
      else t
  }

  ghost function Deregister(s: State, source: SocketAddr, path: string, token: Bytes): State {
    var o := Observation(source.text, path);
    if o in s.observers && s.observers[o].token == token then Removed(s, o) else s
  }

  ghost function Acknowledge(s: State, id: U16, token: Bytes): State {
    if o: Observation :| Owns(s, o, id) then
      if s.observers[o].token == token then Retired(s, o) else s
    else s
  }

  ghost function ResetNotification(s: State, id: U16, source: Option<SocketAddr>): State {
    if o: Observation :| Owns(s, o, id) then
      if source == Some(s.observers[o].responder) then Removed(s, o) else s
    else s
  }

  ghost function RecordVersion(s: State, path: string, payload: Bytes): State {
    s.(versions := s.versions[path := (if path in s.versions then s.versions[path] else []) + [payload]])
  }

  // One turn of the notification loop: a fresh id, the packet, and the id recorded as pending.
  ghost function NotifyOne(s: State, o: Observation): State
    requires Shows(s, o)
  {
    var id := Successor(s.lastId);
    s.(lastId := id,
       observers := s.observers[o := s.observers[o].(pending := Some(Pending(id, 1)))],
       outbox := s.outbox + [NotificationTo(s, o, id)])
  }

  ghost function NotifyAll(s: State, order: seq<Observation>): (t: State)
    requires forall o | o in order :: Shows(s, o)
    ensures t.observers.Keys == s.observers.Keys && t.versions == s.versions
    ensures t.lastId == IdAfter(s.lastId, |order|)
    ensures forall o | o in s.observers && o !in order :: t.observers[o] == s.observers[o]
  {
    if order == [] then s
    else
      var front, last := order[..|order| - 1], order[|order| - 1];
      var t := NotifyAll(s, front);
      assert last in order && Shows(s, last) && last in t.observers.Keys;
      NotifyOne(t, last)
  }

  ghost function Put(s: State, path: string, payload: Bytes, order: seq<Observation>): State
    requires forall o | o in order :: o in s.observers && o.path == path
  {
    NotifyAll(RecordVersion(s, path, payload), order)
  }

  // One turn of the timer loop: give up on a notification tried more than ten times, else resend it.
  ghost function TickOne(s: State, o: Observation): State
    requires Waits(s, o)
  {
    var p := s.observers[o].pending.value;
    if p.tries > MAX_TRIES then Retired(s, o)
    else s.(observers := s.observers[o := s.observers[o].(pending := Some(p.(tries := p.tries + 1)))],
            outbox := s.outbox + [NotificationTo(s, o, s.lastId)])
  }

  ghost predicate Distinct<T>(order: seq<T>) {
    forall i, j | 0 <= i < j < |order| :: order[i] != order[j]
  }

  ghost function TickAll(s: State, order: seq<Observation>): (t: State)
    requires Distinct(order) && forall o | o in order :: Waits(s, o)
    ensures t.observers.Keys == s.observers.Keys && t.versions == s.versions && t.lastId == s.lastId
    ensures forall o | o in s.observers && o !in order :: t.observers[o] == s.observers[o]
  {
    if order == [] then s
    else
      var front, last := order[..|order| - 1], order[|order| - 1];
      var t := TickAll(s, front);
      assert last in order && Waits(s, last) && last in t.observers.Keys && last !in front;
      TickOne(t, last)
  }

  // ---------------------------------------------------------------- events and runs

  datatype Event =
    | RegisterRequest(responder: SocketAddr, path: string, token: Bytes, preferred: Option<nat>,
        reply: Option<ReplyTemplate>)
    | DeregisterRequest(source: SocketAddr, path: string, token: Bytes)
    | PutRequest(path: string, payload: Bytes, order: seq<Observation>)
    | AckMessage(id: U16, token: Bytes)
    | ResetMessage(id: U16, from: Option<SocketAddr>)
    | Tick(order: seq<Observation>)
    | OtherRequest

  ghost function ObserversOf(s: State, path: string): set<Observation> {
    set o | o in s.observers && o.path == path
  }

  ghost function Unacknowledged(s: State): set<Observation> {
    set o | o in s.observers && s.observers[o].pending.Some?
  }

  // `order` lists `members` once each: the code iterates over hash sets, in no particular order.
  ghost predicate Enumerates<T(!new)>(order: seq<T>, members: set<T>) {
    && Distinct(order)
    && forall o :: o in order <==> o in members
  }

  // The id that turn `i` of a round will use is pending for `p`.
  ghost predicate OwnsTurn(s: State, p: Observation, i: nat) {
    Owns(s, p, IdAfter(s.lastId, i + 1))
  }

  // The id of turn `i` of a round is pending for nobody, unless for the one notified then or before, who
  // gives it up for the new one.
  ghost predicate SafeAt(s: State, order: seq<Observation>, i: nat)
    requires i < |order|
  {
    forall p | OwnsTurn(s, p, i) :: p in order[..i + 1]
  }

  // The ids of a round do not collide with pending ones. A u16 counter makes this a real condition: it can
  // only fail after the counter has wrapped around.
  ghost predicate SafeIds(s: State, order: seq<Observation>) {
    |order| <= 0x1_0000 && forall i | 0 <= i < |order| :: SafeAt(s, order, i)
  }

  ghost predicate WellFormed(s: State) {
    && (forall o | o in s.observers ::
          && Shows(s, o)
          && s.observers[o].responder.text == o.endpoint
          && (s.observers[o].blockSize.Some? ==> ValidBlockSize(s.observers[o].blockSize.value))
          && (s.observers[o].pending.Some? ==> 1 <= s.observers[o].pending.value.tries <= MAX_TRIES + 1))
    && (forall path | path in s.versions :: s.versions[path] != [])
    && (forall o, p, id | Owns(s, o, id) && Owns(s, p, id) :: o == p)
  }

  ghost predicate Enabled(s: State, e: Event) {
    match e
    case RegisterRequest(_, _, _, preferred, _) => preferred.Some? ==> ValidBlockSize(preferred.value)
    case PutRequest(path, _, order) => Enumerates(order, ObserversOf(s, path)) && SafeIds(s, order)
    case Tick(order) => Enumerates(order, Unacknowledged(s))
    case _ => true
  }

  ghost function Step(s: State, e: Event): State
    requires WellFormed(s) && Enabled(s, e)
  {
    match e
    case RegisterRequest(responder, path, token, preferred, reply) => Register(s, responder, path, token,
        preferred, reply)
    case DeregisterRequest(source, path, token) => Deregister(s, source, path, token)
    case PutRequest(path, payload, order) => Put(s, path, payload, order)
    case AckMessage(id, token) => Acknowledge(s, id, token)
    case ResetMessage(id, source) => ResetNotification(s, id, source)
    case Tick(order) => TickAll(s, order)
    case OtherRequest => s
  }

  // ---------------------------------------------------------------- what the two loops amount to

  /** The i-th observer of the enumeration ends up with the i-th fresh id pending, all else kept. */
  lemma {:induction false} NotifiedRegistration(s: State, order: seq<Observation>, i: nat)
    requires Distinct(order) && i < |order| && forall o | o in order :: Shows(s, o)
    ensures order[i] in order && Shows(s, order[i])
    ensures order[i] in NotifyAll(s, order).observers
    ensures NotifyAll(s, order).observers[order[i]]
         == s.observers[order[i]].(pending := Some(Pending(IdAfter(s.lastId, i + 1), 1)))
    decreases |order|
  {
    hide NotifyAll, Distinct, NotificationTo;
    var o := order[i];
    var front, last := order[..|order| - 1], order[|order| - 1];
    assert o in order && order == front + [last];
    NotifyAllLast(s, order, front, last);
    if i < |front| {
      assert front[i] == o && o in front;
      NotifiedRegistration(s, front, i);
    }
  }

  // The packets of a notification round: one for each observation of the enumeration, in order.
  ghost function Notices(s: State, order: seq<Observation>): (r: seq<Sent>)
    requires forall o | o in order :: Shows(s, o)
    ensures |r| == |order|
  {
    if order == [] then []
    else
      var front, last := order[..|order| - 1], order[|order| - 1];
      assert last in order && Shows(s, last);
      Notices(s, front) + [NotificationTo(s, last, IdAfter(s.lastId, |order|))]
  }

  lemma {:induction false} NoticeAt(s: State, order: seq<Observation>, i: nat)
    requires i < |order| && forall o | o in order :: Shows(s, o)
    ensures order[i] in order && Shows(s, order[i])
    ensures Notices(s, order)[i] == NotificationTo(s, order[i], IdAfter(s.lastId, i + 1))
  {
    var front, last := order[..|order| - 1], order[|order| - 1];
    assert last in order && Shows(s, last);
    if i < |front| {
      assert order[i] == front[i];
      NoticeAt(s, front, i);
    }
  }

  lemma LastIsNew<T>(order: seq<T>)
    requires Distinct(order) && order != []
    ensures var (front, last) := (order[..|order| - 1], order[|order| - 1]);
      Distinct(front) && last in order && last !in front && forall o | o in front :: o in order
  {
    var front, last := order[..|order| - 1], order[|order| - 1];
    forall i | 0 <= i < |front| ensures front[i] != last && front[i] in order {
      assert front[i] == order[i];
    }
  }

  lemma NotifyAllLast(s: State, order: seq<Observation>, front: seq<Observation>, last: Observation)
    requires Distinct(order) && (forall o | o in order :: Shows(s, o))
    requires order == front + [last]
    ensures Distinct(front) && (forall o | o in front :: o in order && Shows(s, o)) && last !in front && Shows(s, last)
    ensures var t := NotifyAll(s, front);
      Shows(t, last) && t.observers[last] == s.observers[last] && NotifyAll(s, order) == NotifyOne(t, last)
  {
    hide NotifyOne;
    assert order[..|order| - 1] == front && order[|order| - 1] == last;
    LastIsNew(order);
    assert last in NotifyAll(s, front).observers.Keys;
  }

  lemma NoticesLast(s: State, order: seq<Observation>, front: seq<Observation>, last: Observation)
    requires (forall o | o in order :: Shows(s, o)) && order == front + [last]
    ensures (forall o | o in front :: o in order) && last in order
    ensures Notices(s, order) == Notices(s, front) + [NotificationTo(s, last, IdAfter(s.lastId, |front| + 1))]
  {
    hide IdAfter, NotificationTo;
    assert order[..|order| - 1] == front && order[|order| - 1] == last;
  }

  lemma {:induction false} NotifyAllSends(s: State, order: seq<Observation>)
    requires Distinct(order) && forall o | o in order :: Shows(s, o)
    ensures NotifyAll(s, order).outbox == s.outbox + Notices(s, order)
    decreases |order|
  {
    if order != [] {
      hide NotifyAll, Notices, Distinct, NotifyOne, NotificationTo, IdAfter, Shows;
      var front, last := order[..|order| - 1], order[|order| - 1];
      assert order == front + [last];
      NotifyAllLast(s, order, front, last);
      NoticesLast(s, order, front, last);
      NotifyAllSends(s, front);
      NotifiedWith(s, NotifyAll(s, front), last, |front|);
    }
  }

  lemma NotifiedWith(s: State, t: State, o: Observation, turns: nat)
    requires Shows(s, o) && Shows(t, o) && t.observers[o] == s.observers[o] && t.versions == s.versions
    requires t.lastId == IdAfter(s.lastId, turns)
    ensures NotifyOne(t, o).outbox == t.outbox + [NotificationTo(s, o, IdAfter(s.lastId, turns + 1))]
  {
  }

  lemma TickAllLast(s: State, order: seq<Observation>, front: seq<Observation>, last: Observation)
    requires Distinct(order) && (forall o | o in order :: Waits(s, o))
    requires order == front + [last]
    ensures Distinct(front) && (forall o | o in front :: o in order && Waits(s, o)) && last !in front && Waits(s, last)
    ensures Waits(TickAll(s, front), last) && TickAll(s, front).observers[last] == s.observers[last]
    ensures TickAll(s, order) == TickOne(TickAll(s, front), last)
  {
    hide TickOne;
    assert order[..|order| - 1] == front && order[|order| - 1] == last;
    LastIsNew(order);
    assert last in TickAll(s, front).observers.Keys;
  }

  lemma TickOneAges(s: State, o: Observation)
    requires Waits(s, o)
    ensures TickOne(s, o).observers == s.observers[o := Aged(s.observers[o])]
  {
    hide NotificationTo;
  }

  lemma {:induction false} TickedRegistration(s: State, order: seq<Observation>, o: Observation)
    requires Distinct(order) && forall o | o in order :: Waits(s, o)
    requires o in order
    ensures o in s.observers && TickAll(s, order).observers[o] == Aged(s.observers[o])
    decreases |order|
  {
    hide TickAll, TickOne, Aged, Distinct;
    var front, last := order[..|order| - 1], order[|order| - 1];
    assert Waits(s, o) && order == front + [last];
    TickAllLast(s, order, front, last);
    TickOneAges(TickAll(s, front), last);
    if o != last {
      TickedRegistration(s, front, o);
    }
  }

  lemma ResendsLast(s: State, order: seq<Observation>, front: seq<Observation>, last: Observation)
    requires (forall o | o in order :: Waits(s, o)) && order == front + [last]
    ensures (forall o | o in front :: o in order) && last in order
    ensures Resends(s, order) == Resends(s, front) + Resend(s, last)
  {
    hide Resend;
    assert order[..|order| - 1] == front && order[|order| - 1] == last;
  }

  lemma TickLastSends(s: State, order: seq<Observation>, front: seq<Observation>, last: Observation)
    requires Distinct(order) && (forall o | o in order :: Waits(s, o))
    requires order == front + [last]
    ensures Distinct(front) && (forall o | o in front :: Waits(s, o)) && Waits(s, last)
    ensures TickAll(s, order).outbox == TickAll(s, front).outbox + Resend(s, last)
    ensures Resends(s, order) == Resends(s, front) + Resend(s, last)
  {
    hide TickAll, Resends, Resend, Distinct, TickOne, Waits;
    TickAllLast(s, order, front, last);
    ResendsLast(s, order, front, last);
    ResentWith(s, TickAll(s, front), last);
  }

  lemma {:induction false} TickAllSends(s: State, order: seq<Observation>)
    requires Distinct(order) && forall o | o in order :: Waits(s, o)
    ensures TickAll(s, order).outbox == s.outbox + Resends(s, order)
    decreases |order|
  {
    if order != [] {
      hide TickAll, Resends, Resend, Distinct, Waits;
      var front, last := order[..|order| - 1], order[|order| - 1];
      assert order == front + [last];
      TickLastSends(s, order, front, last);
      TickAllSends(s, front);
    }
  }

  lemma ResentWith(s: State, t: State, o: Observation)
    requires Waits(s, o) && Waits(t, o) && t.observers[o] == s.observers[o]
    requires t.versions == s.versions && t.lastId == s.lastId
    ensures TickOne(t, o).outbox == t.outbox + Resend(s, o)
  {
  }

  // A registration one tick later.
  ghost function Aged(r: Registration): Registration {
    if r.pending.None? then r
    else if r.pending.value.tries > MAX_TRIES then r.(pending := None)
    else r.(pending := Some(r.pending.value.(tries := r.pending.value.tries + 1)))
  }

  ghost function Resends(s: State, order: seq<Observation>): seq<Sent>
    requires forall o | o in order :: Waits(s, o)
  {
    if order == [] then []
    else
      var front, last := order[..|order| - 1], order[|order| - 1];
      assert last in order && Waits(s, last);
      Resends(s, front) + Resend(s, last)
  }

  // What a tick sends to one observer.
  ghost function Resend(s: State, o: Observation): seq<Sent>
    requires Waits(s, o)
  {
    if s.observers[o].pending.value.tries > MAX_TRIES then [] else [NotificationTo(s, o, s.lastId)]
  }
}
