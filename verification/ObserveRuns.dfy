/** Whole runs of the Observe registry: the version history its packets tell, and the end of
    retransmission. */
module ObserveRuns {
  import opened Coap
  import opened Etag
  import opened ObserveSpec
  import opened ObserveLaws

  // ---------------------------------------------------------------- runs

  ghost predicate Executable(s: State, events: seq<Event>)
    decreases |events|
  {
    WellFormed(s) && (events == [] || (Enabled(s, events[0]) && Executable(Step(s, events[0]), events[1..])))
  }

  ghost function Run(s: State, events: seq<Event>): State
    requires Executable(s, events)
    decreases |events|
  {
    if events == [] then s else Run(Step(s, events[0]), events[1..])
  }

  lemma {:induction false} RunIsWellFormed(s: State, events: seq<Event>)
    requires Executable(s, events)
    ensures WellFormed(Run(s, events))
    decreases |events|
  {
    if events != [] {
      RunIsWellFormed(Step(s, events[0]), events[1..]);
    }
  }

  // ---------------------------------------------------------------- the version history

  // What a packet shows is the PUT it names.
  ghost predicate IsTrue(s: State, p: Sent) {
    p.shown.Some? ==>
      && p.path in s.versions
      && p.shown.value.version < |s.versions[p.path]|
      && s.versions[p.path][p.shown.value.version] == p.shown.value.payload
  }

  ghost predicate InOrder(p: Sent, q: Sent) {
    p.shown.Some? && q.shown.Some? && p.path == q.path ==> p.shown.value.version <= q.shown.value.version
  }

  ghost predicate History(s: State) {
    && (forall i | 0 <= i < |s.outbox| :: IsTrue(s, s.outbox[i]))
    && (forall i, j | 0 <= i < j < |s.outbox| :: InOrder(s.outbox[i], s.outbox[j]))
  }

  ghost predicate ShowsLatest(s: State, p: Sent) {
    p.shown.Some? ==>
      && p.path in s.versions && s.versions[p.path] != []
      && p.shown.value.version == |s.versions[p.path]| - 1
      && p.shown.value.payload == s.versions[p.path][|s.versions[p.path]| - 1]
  }

  // Versions are only ever appended.
  ghost predicate Grows(s: State, t: State) {
    forall path | path in s.versions :: path in t.versions && s.versions[path] <= t.versions[path]
  }

  lemma GrowthIsTransitive(s: State, t: State, u: State)
    requires Grows(s, t) && Grows(t, u)
    ensures Grows(s, u)
  {
  }

  lemma LatestPacketsKeepHistory(s: State, t: State, sent: seq<Sent>)
    requires History(s) && Grows(s, t)
    requires t.outbox == s.outbox + sent
    requires forall i | 0 <= i < |sent| :: ShowsLatest(t, sent[i])
    ensures History(t)
  {
    forall i | 0 <= i < |t.outbox| ensures IsTrue(t, t.outbox[i]) {
      if i < |s.outbox| {
        assert IsTrue(s, s.outbox[i]);
      } else {
        assert ShowsLatest(t, sent[i - |s.outbox|]);
      }
    }
    forall i, j | 0 <= i < j < |t.outbox| ensures InOrder(t.outbox[i], t.outbox[j]) {
      if j < |s.outbox| {
        assert InOrder(s.outbox[i], s.outbox[j]);
      } else {
        assert IsTrue(t, t.outbox[i]) && ShowsLatest(t, sent[j - |s.outbox|]);
      }
    }
  }

  lemma {:induction false} NoticesShowLatest(s: State, order: seq<Observation>)
    requires forall o | o in order :: Shows(s, o)
    ensures forall i | 0 <= i < |Notices(s, order)| :: ShowsLatest(s, Notices(s, order)[i])
  {
    if order != [] {
      NoticesShowLatest(s, order[..|order| - 1]);
      assert order[|order| - 1] in order && Shows(s, order[|order| - 1]);
    }
  }

  lemma {:induction false} ResendsShowLatest(s: State, order: seq<Observation>)
    requires forall o | o in order :: Waits(s, o)
    ensures forall i | 0 <= i < |Resends(s, order)| :: ShowsLatest(s, Resends(s, order)[i])
  {
    if order != [] {
      ResendsShowLatest(s, order[..|order| - 1]);
      assert order[|order| - 1] in order && Waits(s, order[|order| - 1]);
    }
  }

  lemma PutKeepsHistory(s: State, path: string, payload: Bytes, order: seq<Observation>)
    requires WellFormed(s) && Enumerates(order, ObserversOf(s, path)) && History(s)
    ensures forall o | o in order :: o in s.observers && o.path == path
    ensures History(Put(s, path, payload, order)) && Grows(s, Put(s, path, payload, order))
  {
    ObserversShow(s, path, payload, order);
    var r := RecordVersion(s, path, payload);
    NotifyAllSends(r, order);
    NoticesShowLatest(r, order);
    var t := NotifyAll(r, order);
    forall i | 0 <= i < |Notices(r, order)| ensures ShowsLatest(t, Notices(r, order)[i]) {
      assert ShowsLatest(r, Notices(r, order)[i]);
    }
    LatestPacketsKeepHistory(s, t, Notices(r, order));
  }

  lemma TickKeepsHistory(s: State, order: seq<Observation>)
    requires WellFormed(s) && Enumerates(order, Unacknowledged(s)) && History(s)
    ensures forall o | o in order :: Waits(s, o)
    ensures History(TickAll(s, order)) && Grows(s, TickAll(s, order))
  {
    hide TickAll, Resends, Waits, IsTrue, InOrder;
    TickAges(s, order);
    TickAllSends(s, order);
    ResendsShowLatest(s, order);
    var t := TickAll(s, order);
    forall i | 0 <= i < |Resends(s, order)| ensures ShowsLatest(t, Resends(s, order)[i]) {
      assert ShowsLatest(s, Resends(s, order)[i]);
    }
    LatestPacketsKeepHistory(s, t, Resends(s, order));
  }

  lemma RegisterKeepsHistory(s: State, responder: SocketAddr, path: string, token: Bytes,
                             preferred: Option<nat>, reply: Option<ReplyTemplate>)
    requires WellFormed(s) && History(s)
    ensures History(Register(s, responder, path, token, preferred, reply))
  {
    var t := Register(s, responder, path, token, preferred, reply);
    LatestPacketsKeepHistory(s, t, t.outbox[|s.outbox|..]);
  }

  lemma StepKeepsHistory(s: State, e: Event)
    requires WellFormed(s) && Enabled(s, e) && History(s)
    ensures History(Step(s, e)) && Grows(s, Step(s, e))
  {
    match e
    case RegisterRequest(responder, path, token, preferred, reply) =>
      RegisterKeepsHistory(s, responder, path, token, preferred, reply);
    case PutRequest(path, payload, order) =>
      PutKeepsHistory(s, path, payload, order);
    case Tick(order) =>
      TickKeepsHistory(s, order);
    case _ =>
      var t := Step(s, e);
      assert t.outbox == s.outbox + [] && t.versions == s.versions;
      LatestPacketsKeepHistory(s, t, []);
  }

  /** Over any run every packet that carries an Observe value shows exactly the PUT of that number,
      and along the log the versions shown for a path never go back. */
  lemma {:induction false} RunKeepsHistory(s: State, events: seq<Event>)
    requires Executable(s, events) && History(s)
    ensures History(Run(s, events)) && Grows(s, Run(s, events))
    decreases |events|
  {
    if events != [] {
      var t := Step(s, events[0]);
      StepKeepsHistory(s, events[0]);
      RunKeepsHistory(t, events[1..]);
      GrowthIsTransitive(s, t, Run(s, events));
    }
  }

  // Packets are only cut to sizes a Block2 option can name.
  ghost predicate ValidlyCut(p: Sent) {
    p.shown.Some? && p.shown.value.blockSize.Some? ==> ValidBlockSize(p.shown.value.blockSize.value)
  }

  ghost predicate AllValidlyCut(log: seq<Sent>) {
    forall i | 0 <= i < |log| :: ValidlyCut(log[i])
  }

  lemma {:induction false} NoticesAreValidlyCut(s: State, order: seq<Observation>)
    requires WellFormed(s) && forall o | o in order :: Shows(s, o)
    ensures AllValidlyCut(Notices(s, order))
  {
    if order != [] {
      NoticesAreValidlyCut(s, order[..|order| - 1]);
      assert order[|order| - 1] in order && Shows(s, order[|order| - 1]);
    }
  }

  lemma {:induction false} ResendsAreValidlyCut(s: State, order: seq<Observation>)
    requires WellFormed(s) && forall o | o in order :: Waits(s, o)
    ensures AllValidlyCut(Resends(s, order))
  {
    if order != [] {
      ResendsAreValidlyCut(s, order[..|order| - 1]);
      assert order[|order| - 1] in order && Waits(s, order[|order| - 1]);
    }
  }

  lemma StepKeepsBlockSizes(s: State, e: Event)
    requires WellFormed(s) && Enabled(s, e) && AllValidlyCut(s.outbox)
    ensures AllValidlyCut(Step(s, e).outbox)
  {
    match e
    case PutRequest(path, payload, order) =>
      var r := RecordVersion(s, path, payload);
      ObserversShow(s, path, payload, order);
      RecordKeepsWellFormed(s, path, payload);
      NotifyAllSends(r, order);
      NoticesAreValidlyCut(r, order);
    case Tick(order) =>
      TickAges(s, order);
      TickAllSends(s, order);
      ResendsAreValidlyCut(s, order);
    case _ =>
  }

  lemma {:induction false} RunKeepsBlockSizes(s: State, events: seq<Event>)
    requires Executable(s, events) && AllValidlyCut(s.outbox)
    ensures AllValidlyCut(Run(s, events).outbox)
    decreases |events|
  {
    if events != [] {
      StepKeepsBlockSizes(s, events[0]);
      RunKeepsBlockSizes(Step(s, events[0]), events[1..]);
    }
  }

  // A message that carries version `version` of a resource, with content `payload`.
  predicate Represents(m: Message, version: nat, payload: Bytes) {
    && m.observe == Some(version % 0x1_0000_0000)
    && m.etag == Some(EtagOf(payload))
    && m.size2 == Some(EncodeCoapUint(|payload|))
    && match m.block2
       case Absent => m.payload == payload
       case Malformed => false
       case Block(b) =>
         && b.num == 0 && b.more && b.Size() == |m.payload| < |payload|
         && m.payload == payload[..|m.payload|]
  }

  lemma PacketRepresents(p: Sent)
    requires p.shown.Some? && (p.shown.value.blockSize.Some? ==> ValidBlockSize(p.shown.value.blockSize.value))
    ensures Represents(MessageOf(p), p.shown.value.version, p.shown.value.payload)
  {
    var (block2, body) := FirstBlock(p.shown.value.payload, p.shown.value.blockSize);
    assert MessageOf(p).block2 == block2 && MessageOf(p).payload == body;
  }

  /** The same in terms of the messages on the wire, for a run from the empty registry: a message with
      an Observe value carries that version's ETag and Size2, and its payload or first block. */
  lemma MessagesTellTheHistory(events: seq<Event>, i: nat)
    requires Executable(Initial, events) && i < |Run(Initial, events).outbox|
    requires MessageOf(Run(Initial, events).outbox[i]).observe.Some?
    ensures var s := Run(Initial, events);
      var p := s.outbox[i];
      && p.shown.Some? && p.path in s.versions && p.shown.value.version < |s.versions[p.path]|
      && Represents(MessageOf(p), p.shown.value.version, s.versions[p.path][p.shown.value.version])
  {
    RunKeepsHistory(Initial, events);
    RunKeepsBlockSizes(Initial, events);
    var s := Run(Initial, events);
    assert IsTrue(s, s.outbox[i]) && ValidlyCut(s.outbox[i]);
    PacketRepresents(s.outbox[i]);
  }

  /** While a path has seen at most 2^32 PUTs, the Observe values sent for it never decrease. */
  lemma ObserveValuesNeverDecrease(events: seq<Event>, i: nat, j: nat)
    requires Executable(Initial, events) && i < j < |Run(Initial, events).outbox|
    requires var s := Run(Initial, events);
      && s.outbox[i].path == s.outbox[j].path
      && MessageOf(s.outbox[i]).observe.Some? && MessageOf(s.outbox[j]).observe.Some?
      && (s.outbox[i].path in s.versions ==> |s.versions[s.outbox[i].path]| <= 0x1_0000_0000)
    ensures var s := Run(Initial, events);
      MessageOf(s.outbox[i]).observe.value <= MessageOf(s.outbox[j]).observe.value
  {
    hide EtagOf, EncodeCoapUint, FirstBlock;
    RunKeepsHistory(Initial, events);
    var s := Run(Initial, events);
    assert IsTrue(s, s.outbox[i]) && IsTrue(s, s.outbox[j]) && InOrder(s.outbox[i], s.outbox[j]);
  }

  // ---------------------------------------------------------------- everybody gets the latest version

  // A packet to the observer that shows the latest version of its path.
  ghost predicate BringsLatest(s: State, o: Observation, p: Sent) {
    && o in s.observers && p.to == s.observers[o].responder && p.path == o.path && p.shown.Some?
    && o.path in s.versions && p.shown.value.version + 1 == |s.versions[o.path]|
  }

  ghost predicate SentLatest(s: State, o: Observation) {
    exists i :: 0 <= i < |s.outbox| && BringsLatest(s, o, s.outbox[i])
  }

  ghost predicate UpToDate(s: State) {
    forall o | o in s.observers :: SentLatest(s, o)
  }

  // Whoever registers is answered.
  predicate AllReplied(events: seq<Event>) {
    forall i | 0 <= i < |events| && events[i].RegisterRequest? :: events[i].reply.Some?
  }

  lemma StaysUpToDate(s: State, t: State, o: Observation)
    requires o in s.observers && SentLatest(s, o)
    requires o in t.observers && t.observers[o].responder == s.observers[o].responder
    requires o.path in t.versions && t.versions[o.path] == s.versions[o.path]
    requires s.outbox <= t.outbox
    ensures SentLatest(t, o)
  {
    var i :| 0 <= i < |s.outbox| && BringsLatest(s, o, s.outbox[i]);
    assert BringsLatest(t, o, t.outbox[i]);
  }

  lemma PutBringsLatest(s: State, path: string, payload: Bytes, order: seq<Observation>)
    requires WellFormed(s) && Enumerates(order, ObserversOf(s, path)) && UpToDate(s)
    ensures forall o | o in order :: o in s.observers && o.path == path
    ensures UpToDate(Put(s, path, payload, order))
  {
    hide WellFormed, Put, SentLatest;
    PutNotifiesOnlyObservers(s, path, payload, order);
    var t := Put(s, path, payload, order);
    forall o | o in t.observers ensures SentLatest(t, o) {
      assert o in s.observers.Keys;
      if o.path == path {
        PutReaches(s, path, payload, order, o);
      } else {
        ObserverHasVersions(s, o);
        StaysUpToDate(s, t, o);
      }
    }
  }

  lemma ObserverHasVersions(s: State, o: Observation)
    requires WellFormed(s) && o in s.observers
    ensures o.path in s.versions
  {
    assert Shows(s, o);
  }

  lemma PutReaches(s: State, path: string, payload: Bytes, order: seq<Observation>, o: Observation)
    requires WellFormed(s) && Enumerates(order, ObserversOf(s, path)) && o in s.observers && o.path == path
    ensures forall o | o in order :: o in s.observers && o.path == path
    ensures SentLatest(Put(s, path, payload, order), o)
  {
    hide WellFormed, Put;
    assert o in ObserversOf(s, path);
    var i :| 0 <= i < |order| && order[i] == o;
    PutNotifiesOnlyObservers(s, path, payload, order);
    PutNotifiesEachObserver(s, path, payload, order, i);
    var t := Put(s, path, payload, order);
    assert BringsLatest(t, o, t.outbox[|s.outbox| + i]);
  }

  lemma TickKeepsUpToDate(s: State, order: seq<Observation>)
    requires WellFormed(s) && Enumerates(order, Unacknowledged(s)) && UpToDate(s)
    ensures forall o | o in order :: Waits(s, o)
    ensures UpToDate(TickAll(s, order))
  {
    hide WellFormed, SentLatest, Resends;
    TickAges(s, order);
    TickAllSends(s, order);
    var t := TickAll(s, order);
    forall o | o in t.observers ensures SentLatest(t, o) {
      assert o in s.observers.Keys;
      ObserverHasVersions(s, o);
      StaysUpToDate(s, t, o);
    }
  }

  lemma RegisterBringsLatest(s: State, responder: SocketAddr, path: string, token: Bytes, preferred: Option<nat>,
                             reply: ReplyTemplate)
    requires WellFormed(s) && UpToDate(s)
    ensures UpToDate(Register(s, responder, path, token, preferred, Some(reply)))
  {
    hide SentLatest;
    var t := Register(s, responder, path, token, preferred, Some(reply));
    forall o | o in t.observers ensures SentLatest(t, o) {
      if path in s.versions && o == Observation(responder.text, path) {
        assert BringsLatest(t, o, t.outbox[|s.outbox|]);
        LatestAt(t, o, |s.outbox|);
      } else {
        ObserverHasVersions(s, o);
        StaysUpToDate(s, t, o);
      }
    }
  }

  lemma LatestAt(s: State, o: Observation, i: nat)
    requires i < |s.outbox| && BringsLatest(s, o, s.outbox[i])
    ensures SentLatest(s, o)
  {
  }

  // Deregistrations, resets and acknowledgements only take observers away or their pending ids.
  lemma OthersKeepUpToDate(s: State, e: Event)
    requires WellFormed(s) && Enabled(s, e) && UpToDate(s)
    requires !e.RegisterRequest? && !e.PutRequest? && !e.Tick?
    ensures UpToDate(Step(s, e))
  {
    hide SentLatest;
    var t := Step(s, e);
    forall o | o in t.observers ensures SentLatest(t, o) {
      ObserverHasVersions(s, o);
      StaysUpToDate(s, t, o);
    }
  }

  lemma StepKeepsUpToDate(s: State, e: Event)
    requires WellFormed(s) && Enabled(s, e) && UpToDate(s) && (e.RegisterRequest? ==> e.reply.Some?)
    ensures UpToDate(Step(s, e))
  {
    hide WellFormed, UpToDate;
    match e
    case RegisterRequest(responder, path, token, preferred, reply) =>
      RegisterBringsLatest(s, responder, path, token, preferred, reply.value);
    case PutRequest(path, payload, order) =>
      PutBringsLatest(s, path, payload, order);
    case Tick(order) =>
      TickKeepsUpToDate(s, order);
    case _ =>
      OthersKeepUpToDate(s, e);
  }

  lemma {:induction false} RunKeepsUpToDate(s: State, events: seq<Event>)
    requires Executable(s, events) && UpToDate(s) && AllReplied(events)
    ensures UpToDate(Run(s, events))
    decreases |events|
  {
    hide WellFormed, UpToDate, Step, Enabled;
    if events != [] {
      assert events[0].RegisterRequest? ==> events[0].reply.Some?;
      StepKeepsUpToDate(s, events[0]);
      RunKeepsUpToDate(Step(s, events[0]), events[1..]);
    }
  }

  /** Nobody is left behind: in any run that answers its registrations, whatever else happens in it, every observer
      has been sent the latest version of its path, and every packet for the path since then shows that version
      too. */
  lemma EveryObserverIsSentTheLatest(events: seq<Event>, o: Observation) returns (i: nat)
    requires Executable(Initial, events) && AllReplied(events) && o in Run(Initial, events).observers
    ensures var s := Run(Initial, events);
      && o.path in s.versions && s.versions[o.path] != []
      && i < |s.outbox| && s.outbox[i].to == s.observers[o].responder && s.outbox[i].path == o.path
      && forall j | i <= j < |s.outbox| && s.outbox[j].path == o.path && (j == i || s.outbox[j].shown.Some?) ::
           ShowsLatest(s, s.outbox[j]) && s.outbox[j].shown.Some?
  {
    RunKeepsUpToDate(Initial, events);
    RunKeepsHistory(Initial, events);
    RunIsWellFormed(Initial, events);
    var s := Run(Initial, events);
    ObserverHasVersions(s, o);
    assert SentLatest(s, o);
    i :| 0 <= i < |s.outbox| && BringsLatest(s, o, s.outbox[i]);
    forall j | i <= j < |s.outbox| && s.outbox[j].path == o.path && (j == i || s.outbox[j].shown.Some?)
      ensures ShowsLatest(s, s.outbox[j]) && s.outbox[j].shown.Some?
    {
      assert IsTrue(s, s.outbox[j]);
      if i < j {
        assert InOrder(s.outbox[i], s.outbox[j]);
      }
    }
  }

  // ---------------------------------------------------------------- retransmission ends

  ghost predicate OnlyTicks(events: seq<Event>) {
    forall i | 0 <= i < |events| :: events[i].Tick?
  }

  // A registration after `ticks` ticks and nothing else.
  ghost function AgedBy(r: Registration, ticks: nat): Registration {
    if r.pending.None? then r
    else if r.pending.value.tries + ticks > MAX_TRIES + 1 then r.(pending := None)
    else r.(pending := Some(r.pending.value.(tries := r.pending.value.tries + ticks)))
  }

  lemma AgedThenAgedBy(r: Registration, ticks: nat)
    ensures AgedBy(Aged(r), ticks) == AgedBy(r, ticks + 1)
  {
  }

  lemma AgedByNothing(s: State, o: Observation)
    requires WellFormed(s) && o in s.observers
    ensures AgedBy(s.observers[o], 0) == s.observers[o]
  {
    assert Shows(s, o);
  }

  /** With nothing but ticks, a notification tried t times is still pending after k of them iff t + k <= 11. */
  lemma {:induction false} TicksAge(s: State, events: seq<Event>, o: Observation)
    requires Executable(s, events) && OnlyTicks(events) && o in s.observers
    ensures o in Run(s, events).observers && Run(s, events).observers[o] == AgedBy(s.observers[o], |events|)
    decreases |events|
  {
    hide WellFormed, Step, Enabled, OnlyTicks, AgedBy, Aged;
    if events == [] {
      AgedByNothing(s, o);
    } else {
      var t := Step(s, events[0]);
      FirstTick(s, events);
      TicksAge(t, events[1..], o);
      AgedThenAgedBy(s.observers[o], |events| - 1);
    }
  }

  lemma FirstTick(s: State, events: seq<Event>)
    requires Executable(s, events) && OnlyTicks(events) && events != []
    ensures Enabled(s, events[0]) && Executable(Step(s, events[0]), events[1..]) && OnlyTicks(events[1..])
    ensures Step(s, events[0]).observers.Keys == s.observers.Keys
    ensures forall o | o in s.observers :: o in Step(s, events[0]).observers
                                           && Step(s, events[0]).observers[o] == Aged(s.observers[o])
  {
    TickAges(s, events[0].order);
  }

  lemma {:induction false} TicksKeepObservations(s: State, events: seq<Event>)
    requires Executable(s, events) && OnlyTicks(events)
    ensures Run(s, events).observers.Keys == s.observers.Keys
    decreases |events|
  {
    if events != [] {
      FirstTick(s, events);
      TicksKeepObservations(Step(s, events[0]), events[1..]);
    }
  }

  /** Eleven quiet ticks leave nothing to retransmit, whatever was pending. */
  lemma ElevenTicksSettle(s: State, events: seq<Event>)
    requires Executable(s, events) && OnlyTicks(events) && |events| >= 11
    ensures Unacknowledged(Run(s, events)) == {}
  {
    var t := Run(s, events);
    TicksKeepObservations(s, events);
    forall o | o in t.observers ensures t.observers[o].pending.None? {
      assert o in s.observers.Keys && Shows(s, o);
      TicksAge(s, events, o);
    }
  }

  // How many packets of a log went out for an observation.
  ghost function CountFor(log: seq<Sent>, o: Observation): nat {
    if log == [] then 0
    else
      var last := log[|log| - 1];
      CountFor(log[..|log| - 1], o) + if last.to.text == o.endpoint && last.path == o.path then 1 else 0
  }

  lemma {:induction false} CountAppends(log: seq<Sent>, more: seq<Sent>, o: Observation)
    ensures CountFor(log + more, o) == CountFor(log, o) + CountFor(more, o)
  {
    if more == [] {
      assert log + more == log;
    } else {
      CountAppends(log, more[..|more| - 1], o);
      assert (log + more)[..|log + more| - 1] == log + more[..|more| - 1];
    }
  }

  lemma CountOne(p: Sent, o: Observation)
    ensures CountFor([p], o) == if p.to.text == o.endpoint && p.path == o.path then 1 else 0
  {
    assert [p][..0] == [];
  }

  ghost predicate Retries(s: State, o: Observation) {
    o in s.observers && s.observers[o].pending.Some? && s.observers[o].pending.value.tries <= MAX_TRIES
  }

  lemma {:induction false} ResendsCount(s: State, order: seq<Observation>, o: Observation)
    requires WellFormed(s) && Distinct(order)
    requires forall q | q in order :: Waits(s, q)
    ensures CountFor(Resends(s, order), o) == if o in order && Retries(s, o) then 1 else 0
  {
    if order != [] {
      var front, last := order[..|order| - 1], order[|order| - 1];
      assert last in order && Waits(s, last) && last !in front;
      ResendsCount(s, front, o);
      var p := NotificationTo(s, last, s.lastId);
      CountAppends(Resends(s, front), [p], o);
      CountOne(p, o);
      assert p.to.text == last.endpoint && p.path == last.path;
      if !Retries(s, last) {
        assert Resends(s, order) == Resends(s, front) + [] == Resends(s, front);
      }
      assert o in order <==> o in front || o == last;
    }
  }

  lemma TickCount(s: State, order: seq<Observation>, o: Observation)
    requires WellFormed(s) && Enumerates(order, Unacknowledged(s))
    ensures forall q | q in order :: Waits(s, q)
    ensures CountFor(TickAll(s, order).outbox, o) == CountFor(s.outbox, o) + if Retries(s, o) then 1 else 0
  {
    TickAges(s, order);
    TickAllSends(s, order);
    ResendsCount(s, order, o);
    CountAppends(s.outbox, Resends(s, order), o);
    if Retries(s, o) {
      assert o in Unacknowledged(s);
    }
  }

  // How often a registration is still resent in `ticks` quiet ticks.
  ghost function Remaining(r: Registration, ticks: nat): nat {
    if r.pending.Some? && r.pending.value.tries <= 11 then Min(ticks, 11 - r.pending.value.tries) else 0
  }

  lemma RemainingTries(r: Registration, ticks: nat)
    requires ticks > 0
    ensures Remaining(r, ticks)
         == Remaining(Aged(r), ticks - 1) + if r.pending.Some? && r.pending.value.tries <= MAX_TRIES then 1 else 0
  {
  }

  // How often what an observer awaits may still be resent.
  ghost function Left(s: State, o: Observation): nat {
    if o in s.observers && s.observers[o].pending.Some? && s.observers[o].pending.value.tries <= 11
    then 11 - s.observers[o].pending.value.tries else 0
  }

  // What an event adds for an observer: a PUT to its path one notification with ten retransmissions to come,
  // a registration of it one reply.
  function Allowance(e: Event, o: Observation): nat {
    match e
    case PutRequest(path, _, _) => if path == o.path then 11 else 0
    case RegisterRequest(responder, path, _, _, _) => if Observation(responder.text, path) == o then 1 else 0
    case _ => 0
  }

  function TotalAllowance(events: seq<Event>, o: Observation): nat {
    if events == [] then 0 else Allowance(events[0], o) + TotalAllowance(events[1..], o)
  }

  lemma {:induction false} NoticesCount(s: State, order: seq<Observation>, o: Observation)
    requires Distinct(order) && forall q | q in order :: Shows(s, q) && s.observers[q].responder.text == q.endpoint
    ensures CountFor(Notices(s, order), o) == if o in order then 1 else 0
  {
    if order != [] {
      var front, last := order[..|order| - 1], order[|order| - 1];
      assert last in order && Shows(s, last);
      NoticesCount(s, front, o);
      var p := NotificationTo(s, last, IdAfter(s.lastId, |order|));
      CountAppends(Notices(s, front), [p], o);
      CountOne(p, o);
      LastIsNew(order);
      assert o in order <==> o in front || o == last;
    }
  }

  lemma PutCount(s: State, path: string, payload: Bytes, order: seq<Observation>, o: Observation)
    requires WellFormed(s) && Enumerates(order, ObserversOf(s, path))
    ensures forall o | o in order :: o in s.observers && o.path == path
    ensures var t := Put(s, path, payload, order);
      CountFor(t.outbox, o) + Left(t, o) <= CountFor(s.outbox, o) + Left(s, o) + if path == o.path then 11 else 0
  {
    ObserversShow(s, path, payload, order);
    var r := RecordVersion(s, path, payload);
    NotifyAllSends(r, order);
    NoticesCount(r, order, o);
    CountAppends(s.outbox, Notices(r, order), o);
    PutLeft(s, path, payload, order, o);
  }

  lemma PutLeft(s: State, path: string, payload: Bytes, order: seq<Observation>, o: Observation)
    requires WellFormed(s) && Enumerates(order, ObserversOf(s, path))
    ensures forall o | o in order :: o in s.observers && o.path == path
    ensures Left(Put(s, path, payload, order), o) == if o in order then 10 else Left(s, o)
  {
    ObserversShow(s, path, payload, order);
    var r := RecordVersion(s, path, payload);
    if o in order {
      var i :| 0 <= i < |order| && order[i] == o;
      NotifiedRegistration(r, order, i);
    } else {
      assert o in NotifyAll(r, order).observers.Keys <==> o in s.observers.Keys;
    }
  }

  lemma RegisterCount(s: State, responder: SocketAddr, path: string, token: Bytes, preferred: Option<nat>,
                      reply: Option<ReplyTemplate>, o: Observation)
    requires WellFormed(s)
    ensures var t := Register(s, responder, path, token, preferred, reply);
      CountFor(t.outbox, o) + Left(t, o)
        <= CountFor(s.outbox, o) + Left(s, o) + if Observation(responder.text, path) == o then 1 else 0
  {
    var t := Register(s, responder, path, token, preferred, reply);
    if reply.Some? {
      RegisterSendsOne(s, responder, path, token, preferred, reply.value);
      var p := t.outbox[|s.outbox|];
      CountAppends(s.outbox, [p], o);
      CountOne(p, o);
    }
    RegisterLeaves(s, responder, path, token, preferred, reply, o);
  }

  lemma RegisterSendsOne(s: State, responder: SocketAddr, path: string, token: Bytes, preferred: Option<nat>,
                         reply: ReplyTemplate)
    requires path in s.versions ==> s.versions[path] != []
    ensures var t := Register(s, responder, path, token, preferred, Some(reply));
      && |t.outbox| == |s.outbox| + 1 && t.outbox == s.outbox + [t.outbox[|s.outbox|]]
      && t.outbox[|s.outbox|].to == responder && t.outbox[|s.outbox|].path == path
  {
  }

  lemma RegisterLeaves(s: State, responder: SocketAddr, path: string, token: Bytes, preferred: Option<nat>,
                       reply: Option<ReplyTemplate>, o: Observation)
    requires path in s.versions ==> s.versions[path] != []
    ensures Left(Register(s, responder, path, token, preferred, reply), o) <= Left(s, o)
    ensures reply.None? ==> Register(s, responder, path, token, preferred, reply).outbox == s.outbox
  {
  }

  /** One event of any kind, seen from one observer: what was sent to it and what may still be resent to it grow
      together by no more than the event's allowance. */
  lemma StepCount(s: State, e: Event, o: Observation)
    requires WellFormed(s) && Enabled(s, e)
    ensures CountFor(Step(s, e).outbox, o) + Left(Step(s, e), o) <= CountFor(s.outbox, o) + Left(s, o) + Allowance(e, o)
  {
    match e
    case RegisterRequest(responder, path, token, preferred, reply) =>
      RegisterCount(s, responder, path, token, preferred, reply, o);
    case PutRequest(path, payload, order) =>
      PutCount(s, path, payload, order, o);
    case Tick(order) =>
      TickCount(s, order, o);
      TickAges(s, order);
      assert o in TickAll(s, order).observers.Keys <==> o in s.observers.Keys;
    case _ =>
      assert Step(s, e).outbox == s.outbox;
  }

  /** Over any run of any events: an observer is sent one packet for a registration, and for a PUT to its path one
      notification and at most ten retransmissions of it. Between two such events it gets only retransmissions, no
      more than the pending notification has left. */
  lemma {:induction false} ResendsAreBounded(s: State, events: seq<Event>, o: Observation)
    requires Executable(s, events)
    ensures CountFor(Run(s, events).outbox, o) + Left(Run(s, events), o)
         <= CountFor(s.outbox, o) + Left(s, o) + TotalAllowance(events, o)
    ensures Left(s, o) <= 10
    decreases |events|
  {
    LeftAtMostTen(s, o);
    if events != [] {
      StepCount(s, events[0], o);
      ResendsAreBounded(Step(s, events[0]), events[1..], o);
    }
  }

  lemma LeftAtMostTen(s: State, o: Observation)
    requires WellFormed(s)
    ensures Left(s, o) <= 10
  {
    if o in s.observers {
      assert Shows(s, o);
    }
  }

  /** The bound is reached: in k ticks and nothing else, a notification tried t times is resent exactly
      min(k, 11 - t) times. */
  lemma {:induction false} QuietResends(s: State, events: seq<Event>, o: Observation)
    requires Executable(s, events) && OnlyTicks(events) && o in s.observers
    ensures s.observers[o].pending.Some? ==> 1 <= s.observers[o].pending.value.tries <= 11
    ensures CountFor(Run(s, events).outbox, o) == CountFor(s.outbox, o) + Remaining(s.observers[o], |events|)
    ensures Remaining(s.observers[o], |events|) <= 10
    decreases |events|
  {
    assert Shows(s, o);
    if events != [] {
      FirstTick(s, events);
      TickCount(s, events[0].order, o);
      QuietResends(Step(s, events[0]), events[1..], o);
      RemainingTries(s.observers[o], |events|);
    }
  }
}
