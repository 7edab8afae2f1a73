/** A notification and the block fetches that complete it, end to end: the server takes any steps,
    PUTs included, between the client's requests. */
module EndToEnd {
  import opened Coap
  import opened Etag
  import opened EtagCollision
  import opened ObserveSpec
  import opened ObserveLaws
  import opened ObserveRuns
  import opened BlockSpec
  import opened BlockLaws

  /** The server runs through `phases`, and after each answers the next fetch from what it has then
      recorded for the path; `Server.ServerCoapState.InterceptResponse` shows that an observer's fetch is
      so answered. Each reply may also be lost or replaced by an error. */
  ghost predicate ServedAlong(s: State, phases: seq<seq<Event>>, path: string, asked: seq<BlockValue>,
                              replies: seq<IoResult<Message>>)
    decreases |phases|
  {
    phases != [] ==>
      && Executable(s, phases[0])
      && var t := Run(s, phases[0]);
         && path in t.versions
         && (asked != [] && replies != [] ==> Answers(replies[0], asked[0], t.versions[path]))
         && ServedAlong(t, phases[1..], path, if asked == [] then [] else asked[1..],
                        if replies == [] then [] else replies[1..])
  }

  ghost function RunPhases(s: State, phases: seq<seq<Event>>, path: string, asked: seq<BlockValue>,
                           replies: seq<IoResult<Message>>): State
    requires ServedAlong(s, phases, path, asked, replies)
    decreases |phases|
  {
    if phases == [] then s
    else RunPhases(Run(s, phases[0]), phases[1..], path, if asked == [] then [] else asked[1..],
                   if replies == [] then [] else replies[1..])
  }

  lemma AnswersGrow(reply: IoResult<Message>, asked: BlockValue, versions: seq<Bytes>, more: seq<Bytes>)
    requires Answers(reply, asked, versions) && versions <= more
    ensures Answers(reply, asked, more)
  {
    if reply.Ok? && reply.value.etag.Some? {
      var v :| 0 <= v < |versions| && reply.value.etag.value == EtagOf(versions[v])
        && (SizeOf(asked.exponent) * asked.num < |versions[v]| ==>
              IsBlockOf(reply.value, versions[v], asked.exponent, asked.num));
      assert more[v] == versions[v];
    }
  }

  lemma {:induction false} RunGrows(s: State, events: seq<Event>)
    requires Executable(s, events)
    ensures Grows(s, Run(s, events))
    decreases |events|
  {
    if events != [] {
      var t := Step(s, events[0]);
      StepGrows(s, events[0]);
      RunGrows(t, events[1..]);
      GrowthIsTransitive(s, t, Run(s, events));
    }
  }

  // Versions are only appended, whatever the log holds.
  lemma StepGrows(s: State, e: Event)
    requires WellFormed(s) && Enabled(s, e)
    ensures Grows(s, Step(s, e))
  {
    match e
    case PutRequest(path, payload, order) =>
      assert Grows(s, RecordVersion(s, path, payload));
    case _ =>
      assert Step(s, e).versions == s.versions;
  }

  lemma {:induction false} PhasesAnswer(s: State, phases: seq<seq<Event>>, path: string, asked: seq<BlockValue>,
                                        replies: seq<IoResult<Message>>)
    requires ServedAlong(s, phases, path, asked, replies)
    requires path in s.versions && |phases| >= |replies|
    ensures var t := RunPhases(s, phases, path, asked, replies);
      Grows(s, t) && path in t.versions && AllAnswer(replies, asked, t.versions[path])
    decreases |phases|
  {
    if phases != [] {
      var u := Run(s, phases[0]);
      var t := RunPhases(s, phases, path, asked, replies);
      var restAsked := if asked == [] then [] else asked[1..];
      var restReplies := if replies == [] then [] else replies[1..];
      RunGrows(s, phases[0]);
      PhasesAnswer(u, phases[1..], path, restAsked, restReplies);
      GrowthIsTransitive(s, u, t);
      forall i | 0 <= i < |asked| && i < |replies| ensures Answers(replies[i], asked[i], t.versions[path]) {
        if i == 0 {
          AnswersGrow(replies[0], asked[0], u.versions[path], t.versions[path]);
        } else {
          assert Answers(restReplies[i - 1], restAsked[i - 1], t.versions[path]);
        }
      }
    }
  }

  lemma {:induction false} OkCarriesEtag(m: Message, p: Progress, etag: Option<Bytes>, replies: seq<IoResult<Message>>)
    requires etag.Some? && Transfer(m, p, etag, replies).0.Ok?
    ensures Transfer(m, p, etag, replies).0.value.etag == etag
    decreases |replies|
  {
    hide ExtendingSplice, SizeOf;
    if HandleBlock(m, p).More? {
      OkCarriesEtag(replies[0].value, HandleBlock(m, p).progress, etag, replies[1..]);
    }
  }

  // The first packet of a version is its block 0.
  lemma FirstPacketIsBlockZero(m: Message, version: nat, payload: Bytes)
    requires Represents(m, version, payload) && m.block2.Block?
    ensures InTransfer(m, payload, m.block2.value.exponent, 0) && m.block2.value.more
  {
    var size := m.block2.value.Size();
    assert size * 0 == 0 && size * (0 + 1) == size;
    assert payload[0..size] == payload[..size];
  }

  /** A packet of some version, whole or cut: the handler gets an error or that version under its ETag. */
  lemma DeliveryIsOneVersion(m: Message, version: nat, payload: Bytes, replies: seq<IoResult<Message>>,
      versions: seq<Bytes>)
    requires Represents(m, version, payload) && EtagNames(payload, versions)
    requires AllAnswer(replies, Transfer(m, Fresh, m.etag, replies).1, versions)
    ensures var delivered := Delivery(Ok(m), replies);
      && delivered.Some?
      && (delivered.value.Ok? ==>
            delivered.value.value.payload == payload && delivered.value.value.etag == Some(EtagOf(payload)))
  {
    hide Transfer, EtagNames, EtagOf, AllAnswer, InTransfer;
    if m.block2.Block? && m.block2.value.more {
      FirstPacketIsBlockZero(m, version, payload);
      NeverMixesVersions(m, payload, m.block2.value.exponent, replies, versions);
      if Transfer(m, Fresh, m.etag, replies).0.Ok? {
        OkCarriesEtag(m, Fresh, m.etag, replies);
      }
    }
  }

  lemma ShownIsRecorded(events: seq<Event>, i: nat)
    requires Executable(Initial, events) && i < |Run(Initial, events).outbox|
    requires Run(Initial, events).outbox[i].shown.Some?
    ensures var s := Run(Initial, events);
      var p := s.outbox[i];
      && MessageOf(p).observe == Some(p.shown.value.version % 0x1_0000_0000)
      && p.path in s.versions && p.shown.value.version < |s.versions[p.path]|
      && s.versions[p.path][p.shown.value.version] == p.shown.value.payload
  {
    hide EtagOf, EncodeCoapUint, FirstBlock;
    assert History(Initial);
    RunKeepsHistory(Initial, events);
    assert IsTrue(Run(Initial, events), Run(Initial, events).outbox[i]);
  }

  /** Take any run of the server, any packet it sent with an Observe value, and let the server go on through
      further events between the client's block fetches. As long as no other version of the resource has
      the same ETag, the handler is called with an error, or with exactly the payload of the PUT that the
      packet's Observe value numbers, under that PUT's ETag. */
  lemma ObserveDeliveryIsOneVersion(before: seq<Event>, i: nat, phases: seq<seq<Event>>,
      replies: seq<IoResult<Message>>)
    requires Executable(Initial, before) && i < |Run(Initial, before).outbox|
    requires Run(Initial, before).outbox[i].shown.Some? && |phases| >= |replies|
    requires var s := Run(Initial, before);
      var (p, m) := (s.outbox[i], MessageOf(s.outbox[i]));
      var asked := Transfer(m, Fresh, m.etag, replies).1;
      && ServedAlong(s, phases, p.path, asked, replies)
      && var t := RunPhases(s, phases, p.path, asked, replies);
         p.path in t.versions && EtagNames(p.shown.value.payload, t.versions[p.path])
    ensures var s := Run(Initial, before);
      var (p, m) := (s.outbox[i], MessageOf(s.outbox[i]));
      && p.path in s.versions && p.shown.value.version < |s.versions[p.path]|
      && m.observe == Some(p.shown.value.version % 0x1_0000_0000)
      && var delivered := Delivery(Ok(m), replies);
         && delivered.Some?
         && (delivered.value.Ok? ==>
               && delivered.value.value.payload == s.versions[p.path][p.shown.value.version]
               && delivered.value.value.etag == Some(EtagOf(s.versions[p.path][p.shown.value.version])))
  {
    hide *;
    var s := Run(Initial, before);
    var p, m := s.outbox[i], MessageOf(s.outbox[i]);
    ShownIsRecorded(before, i);
    MessagesTellTheHistory(before, i);
    var asked := Transfer(m, Fresh, m.etag, replies).1;
    PhasesAnswer(s, phases, p.path, asked, replies);
    var t := RunPhases(s, phases, p.path, asked, replies);
    assert Represents(m, p.shown.value.version, p.shown.value.payload);
    DeliveryIsOneVersion(m, p.shown.value.version, p.shown.value.payload, replies, t.versions[p.path]);
  }

  // ---------------------------------------------------------------- without distinct ETags

  // Block `k` of a payload under its ETag.
  function LaterBlock(m: Message, payload: Bytes, e: Exponent, k: U16): Message {
    m.(block2 := Block(BlockValue(k, SizeOf(e) * (k + 1) < |payload|, e)), payload := Chunk(payload, SizeOf(e), k),
       etag := Some(EtagOf(payload)))
  }

  lemma LaterBlockIsBlock(m: Message, payload: Bytes, e: Exponent, k: U16)
    requires SizeOf(e) * k <= |payload|
    ensures InTransfer(LaterBlock(m, payload, e, k), payload, e, k)
  {
  }

  // A client that asks for blocks of 16 bytes registers for a resource set to FIRST.
  function BeforeCollision(path: string, responder: SocketAddr, token: Bytes, reply: ReplyTemplate): seq<Event> {
    [PutRequest(path, FIRST, []), RegisterRequest(responder, path, token, Some(16), Some(reply))]
  }

  // After its first packet the resource is set to SECOND.
  function Collision(path: string, responder: SocketAddr): seq<Event> {
    [PutRequest(path, SECOND, [Observation(responder.text, path)])]
  }

  lemma AfterRegistration(path: string, responder: SocketAddr, token: Bytes, reply: ReplyTemplate)
    ensures var events := BeforeCollision(path, responder, token, reply);
      && Executable(Initial, events)
      && var s := Run(Initial, events);
         && s.outbox == [Sent(responder, path, NonConfirmable, reply.id, reply.token, Some(Shown(0, FIRST, Some(16))))]
         && s.versions == map[path := [FIRST]]
         && s.observers == map[Observation(responder.text, path) := Registration(responder, token, Some(16), None)]
  {
    hide EtagOf, FIRST;
    FirstRegistration(path, FIRST, responder, token, Some(16), reply);
  }

  lemma SecondPutRuns(s: State, path: string, o: Observation)
    requires WellFormed(s) && s.observers.Keys == {o} && s.observers[o].pending.None? && o.path == path
    ensures var put := PutRequest(path, SECOND, [o]);
      && Enabled(s, put) && Executable(s, [put]) && WellFormed(Step(s, put))
      && Run(s, [put]).versions == s.versions[path := VersionsOf(s, path) + [SECOND]]
  {
    hide WellFormed, SECOND;
    assert forall p, id: U16 :: !Owns(s, p, id);
    assert forall p :: !OwnsTurn(s, p, 0);
    assert SafeAt(s, [o], 0);
    assert o in ObserversOf(s, path) && Enumerates([o], ObserversOf(s, path));
    PutNotifiesOnlyObservers(s, path, SECOND, [o]);
    RunsOne(s, PutRequest(path, SECOND, [o]));
    StepKeepsWellFormed(s, PutRequest(path, SECOND, [o]));
  }

  lemma FirstIsCut(p: Sent)
    requires p.shown == Some(Shown(0, FIRST, Some(16)))
    ensures InTransfer(MessageOf(p), FIRST, 0, 0) && MessageOf(p).block2.Block? && MessageOf(p).block2.value.more
  {
    hide EtagOf, EncodeCoapUint;
    EtagsCollide();
    assert SizeOf(0) == 16 && SizeOf(0) * 0 == 0 && SizeOf(0) * (0 + 1) == 16;
    assert FirstBlock(FIRST, Some(16)) == (Block(BlockValue(0, true, 0)), FIRST[..16]);
    assert FIRST[0..16] == FIRST[..16];
  }

  /** The hypothesis on ETags cannot be dropped. A client registers for a resource set to FIRST and, after its
      block 0 is sent, the resource is set to SECOND: the server answers the fetch as it should, and the handler
      gets a payload the resource never had. */
  lemma CollisionIsDelivered(path: string, responder: SocketAddr, token: Bytes, reply: ReplyTemplate)
    ensures var before := BeforeCollision(path, responder, token, reply);
      && Executable(Initial, before)
      && var s := Run(Initial, before);
         && |s.outbox| == 1 && s.outbox[0].shown.Some? && s.outbox[0].path == path
         && var m := MessageOf(s.outbox[0]);
            var replies, phases := [Ok(LaterBlock(m, SECOND, 0, 1))], [Collision(path, responder)];
            var asked := Transfer(m, Fresh, m.etag, replies).1;
            && ServedAlong(s, phases, path, asked, replies)
            && var t := RunPhases(s, phases, path, asked, replies);
               && path in t.versions && t.versions[path] == [FIRST, SECOND]
               && var delivered := Delivery(Ok(m), replies);
                  && delivered.Some? && delivered.value.Ok?
                  && delivered.value.value.payload !in t.versions[path]
  {
    hide EtagOf, FIRST, SECOND, Transfer, MessageOf, Executable, Run, WellFormed, Step;
    AfterRegistration(path, responder, token, reply);
    var before := BeforeCollision(path, responder, token, reply);
    var s := Run(Initial, before);
    RunIsWellFormed(Initial, before);
    SecondPutRuns(s, path, Observation(responder.text, path));
    FirstIsCut(s.outbox[0]);
    var m := MessageOf(s.outbox[0]);
    MixtureIsDelivered(m);
    var replies: seq<IoResult<Message>> := [Ok(LaterBlock(m, SECOND, 0, 1))];
    var asked := Transfer(m, Fresh, m.etag, replies).1;
    var phases := [Collision(path, responder)];
    var t := Run(s, phases[0]);
    assert t.versions[path] == [FIRST] + [SECOND] == [FIRST, SECOND];
    assert phases[1..] == [];
  }

  // What the client makes of block 0 of FIRST and block 1 of SECOND.
  lemma MixtureIsDelivered(m: Message)
    requires InTransfer(m, FIRST, 0, 0) && m.block2.Block? && m.block2.value.more
    ensures var reply := LaterBlock(m, SECOND, 0, 1);
      var (result, asked) := Transfer(m, Fresh, m.etag, [Ok(reply)]);
      && (asked != [] ==> Answers(Ok(reply), asked[0], [FIRST, SECOND]))
      && Delivery(Ok(m), [Ok(reply)]) == Some(result) && result.Ok?
      && result.value.payload !in [FIRST, SECOND]
  {
    hide EtagOf, Transfer;
    EtagsCollide();
    assert SizeOf(0) == 16;
    LaterBlockIsBlock(m, SECOND, 0, 1);
    CollidingEtagsMix(m, FIRST, 0, SECOND, LaterBlock(m, SECOND, 0, 1));
  }

  // ---------------------------------------------------------------- a resource at rest

  ghost predicate NeverPut(events: seq<Event>, path: string) {
    forall i | 0 <= i < |events| && events[i].PutRequest? :: events[i].path != path
  }

  /** As ServedAlong, but nobody sets the path in the meantime, and the first `n` fetches, for the blocks from `k`
      on, are answered from what is then the latest version, as InterceptResponse answers an observer. */
  ghost predicate ServedAtRest(s: State, phases: seq<seq<Event>>, path: string, e: Exponent, k: nat, n: nat,
                               replies: seq<IoResult<Message>>)
    decreases n
  {
    n > 0 ==>
      && phases != [] && replies != [] && Executable(s, phases[0]) && NeverPut(phases[0], path)
      && var t := Run(s, phases[0]);
         && path in t.versions && t.versions[path] != []
         && Continues(replies[0], Latest(t, path), e, k, Some(EtagOf(Latest(t, path))))
         && ServedAtRest(t, phases[1..], path, e, k + 1, n - 1, replies[1..])
  }

  lemma {:induction false} RestKeepsVersions(s: State, events: seq<Event>, path: string)
    requires Executable(s, events) && NeverPut(events, path) && path in s.versions
    ensures path in Run(s, events).versions && Run(s, events).versions[path] == s.versions[path]
    decreases |events|
  {
    if events != [] {
      var t := Step(s, events[0]);
      assert path in t.versions && t.versions[path] == s.versions[path] by {
        if events[0].PutRequest? {
          assert events[0].path != path;
        }
      }
      RestKeepsVersions(t, events[1..], path);
    }
  }

  lemma {:induction false} RestSupplies(s: State, phases: seq<seq<Event>>, path: string, e: Exponent, k: nat, n: nat,
                                        replies: seq<IoResult<Message>>)
    requires ServedAtRest(s, phases, path, e, k, n, replies) && path in s.versions && s.versions[path] != []
    ensures Supplies(replies, Latest(s, path), e, k, n, Some(EtagOf(Latest(s, path))))
    decreases n
  {
    hide Continues, EtagOf;
    if n > 0 {
      var t := Run(s, phases[0]);
      RestKeepsVersions(s, phases[0], path);
      RestSupplies(t, phases[1..], path, e, k + 1, n - 1, replies[1..]);
      var payload, etag := Latest(s, path), Some(EtagOf(Latest(s, path)));
      forall i | 0 <= i < n ensures Continues(replies[i], payload, e, k + i, etag) {
        if i > 0 {
          assert Continues(replies[1..][i - 1], payload, e, k + 1 + (i - 1), etag);
        }
      }
    }
  }

  lemma FirstPacketStarts(m: Message, version: nat, payload: Bytes)
    requires Represents(m, version, payload) && m.block2.Block?
    ensures m.block2.value.more && Continues(Ok(m), payload, m.block2.value.exponent, 0, m.etag)
  {
    FirstPacketIsBlockZero(m, version, payload);
  }

  /** A packet of a version whose later blocks all come: the handler gets that version whole. */
  lemma DeliveryCompletes(m: Message, version: nat, payload: Bytes, replies: seq<IoResult<Message>>)
    requires Represents(m, version, payload)
    requires m.block2.Block? ==>
      var e := m.block2.value.exponent;
      LastBlock(|payload|, e) < 0x1_0000 && Supplies(replies, payload, e, 1, LastBlock(|payload|, e),
          Some(EtagOf(payload)))
    ensures var delivered := Delivery(Ok(m), replies);
      && delivered.Some? && delivered.value.Ok?
      && delivered.value.value.payload == payload && delivered.value.value.etag == Some(EtagOf(payload))
  {
    hide Transfer, Supplies, EtagOf;
    if m.block2.Block? {
      FirstPacketStarts(m, version, payload);
      ReceiveReassembles(m, payload, m.block2.value.exponent, m.etag, replies);
    }
  }

  /** And it does deliver: for any run of the server and any packet that shows the latest version of its path,
      if nobody sets the path while its blocks are fetched, and the fetches are answered, the handler gets that
      version whole. */
  lemma RestingResourceIsDelivered(before: seq<Event>, i: nat, phases: seq<seq<Event>>, replies: seq<IoResult<Message>>)
    requires Executable(Initial, before) && i < |Run(Initial, before).outbox|
    requires var s := Run(Initial, before);
      var (p, m) := (s.outbox[i], MessageOf(s.outbox[i]));
      && p.shown.Some? && p.path in s.versions && p.shown.value.version + 1 == |s.versions[p.path]|
      && (m.block2.Block? ==>
            var last := LastBlock(|p.shown.value.payload|, m.block2.value.exponent);
            last < 0x1_0000 && ServedAtRest(s, phases, p.path, m.block2.value.exponent, 1, last, replies))
    ensures var s := Run(Initial, before);
      var (p, m) := (s.outbox[i], MessageOf(s.outbox[i]));
      var delivered := Delivery(Ok(m), replies);
      && delivered.Some? && delivered.value.Ok?
      && delivered.value.value.payload == Latest(s, p.path)
      && delivered.value.value.etag == Some(EtagOf(Latest(s, p.path)))
  {
    hide Executable, Run, ServedAtRest, Supplies, Delivery, EtagOf, Represents, MessageOf;
    var s := Run(Initial, before);
    var p, m := s.outbox[i], MessageOf(s.outbox[i]);
    ShownIsRecorded(before, i);
    MessagesTellTheHistory(before, i);
    assert Latest(s, p.path) == p.shown.value.payload;
    if m.block2.Block? {
      var last := LastBlock(|p.shown.value.payload|, m.block2.value.exponent);
      RestSupplies(s, phases, p.path, m.block2.value.exponent, 1, last, replies);
    }
    DeliveryCompletes(m, p.shown.value.version, p.shown.value.payload, replies);
  }

  lemma {:induction false} RestIsPossible(s: State, path: string, m: Message, e: Exponent, k: nat, n: nat)
    returns (phases: seq<seq<Event>>, replies: seq<IoResult<Message>>)
    requires WellFormed(s) && path in s.versions && s.versions[path] != []
    requires n > 0 ==> k + n <= 0x1_0000 && SizeOf(e) * (k + n - 1) <= |Latest(s, path)|
    ensures ServedAtRest(s, phases, path, e, k, n, replies)
    decreases n
  {
    hide WellFormed, EtagOf;
    phases, replies := [], [];
    if n > 0 {
      var rest, more := RestIsPossible(s, path, m, e, k + 1, n - 1);
      BlockReached(e, k, n, |Latest(s, path)|);
      phases, replies := [[]] + rest, [Ok(LaterBlock(m, Latest(s, path), e, k))] + more;
      assert phases[1..] == rest && replies[1..] == more;
    }
  }

  lemma BlockReached(e: Exponent, k: nat, n: nat, length: nat)
    requires n > 0 && SizeOf(e) * (k + n - 1) <= length
    ensures SizeOf(e) * k <= length
  {
    assert SizeOf(e) * (k + n - 1) == SizeOf(e) * k + SizeOf(e) * (n - 1);
  }

  /** The theorems are about something: a PUT and then a registration make a run whose one packet shows version 0,
      cut to the size the client asked for when it is longer; and answers to all its fetches exist, so that the
      handler gets the payload. */
  lemma DeliveriesHappen(path: string, payload: Bytes, responder: SocketAddr, token: Bytes, preferred: Option<nat>,
                         reply: ReplyTemplate)
    returns (phases: seq<seq<Event>>, replies: seq<IoResult<Message>>)
    requires preferred.Some? ==> ValidBlockSize(preferred.value)
    requires preferred.Some? ==> LastBlock(|payload|, ExponentFor(preferred.value)) < 0x1_0000
    ensures var put := PutRequest(path, payload, []);
      var events := [put, RegisterRequest(responder, path, token, preferred, Some(reply))];
      && Executable(Initial, events)
      && var s := Run(Initial, events);
         && s.outbox
              == [Sent(responder, path, NonConfirmable, reply.id, reply.token, Some(Shown(0, payload, preferred)))]
         && s.versions == map[path := [payload]]
         && var m := MessageOf(s.outbox[0]);
            && (m.block2.Block? <==> preferred.Some? && preferred.value < |payload|)
            && Delivery(Ok(m), replies).Some? && Delivery(Ok(m), replies).value.Ok?
            && Delivery(Ok(m), replies).value.value.payload == payload
  {
    hide Delivery, EtagOf, ServedAtRest, EncodeCoapUint;
    FirstRegistration(path, payload, responder, token, preferred, reply);
    var events := [PutRequest(path, payload, []), RegisterRequest(responder, path, token, preferred, Some(reply))];
    var s := Run(Initial, events);
    RunIsWellFormed(Initial, events);
    var m := MessageOf(s.outbox[0]);
    phases, replies := [], [];
    if m.block2.Block? {
      var e := m.block2.value.exponent;
      var last := LastBlock(|payload|, e);
      LastBlockBounds(|payload|, e);
      phases, replies := RestIsPossible(s, path, m, e, 1, last);
    }
    RestingResourceIsDelivered(events, 0, phases, replies);
  }

  lemma FirstRegistration(path: string, payload: Bytes, responder: SocketAddr, token: Bytes, preferred: Option<nat>,
                          reply: ReplyTemplate)
    requires preferred.Some? ==> ValidBlockSize(preferred.value)
    ensures var put := PutRequest(path, payload, []);
      var events := [put, RegisterRequest(responder, path, token, preferred, Some(reply))];
      && Executable(Initial, events)
      && var s := Run(Initial, events);
         && s.outbox
              == [Sent(responder, path, NonConfirmable, reply.id, reply.token, Some(Shown(0, payload, preferred)))]
         && s.versions == map[path := [payload]]
         && s.observers == map[Observation(responder.text, path) := Registration(responder, token, preferred, None)]
  {
    var put, register := PutRequest(path, payload, []), RegisterRequest(responder, path, token, preferred, Some(reply));
    assert WellFormed(Initial) && Enabled(Initial, put);
    var t := Step(Initial, put);
    assert t == NotifyAll(RecordVersion(Initial, path, payload), []);
    assert RecordVersion(Initial, path, payload).versions == map[path := [payload]] by {
      assert [] + [payload] == [payload];
    }
    RunsOne(t, register);
    assert [put, register][1..] == [register];
  }

  lemma RunsOne(s: State, e: Event)
    requires WellFormed(s) && Enabled(s, e)
    ensures Executable(s, [e]) && Run(s, [e]) == Step(s, e)
  {
    StepKeepsWellFormed(s, e);
  }
}
