/** The Observe registry of src/observer.rs: four cross-indexed tables updated in place. Every method
    is proved to keep the tables in agreement and to follow the transitions of ObserveSpec; every
    lookup the source unwraps and every condition it asserts is proved to hold where it stands. */
module ObserverRegistry {
  import opened Coap
  import opened Etag
  import opened ObserverTables
  import Spec = ObserveSpec
  import Laws = ObserveLaws
  import Ids = MessageIds

  datatype Method = Get | PutMethod | OtherMethod

  datatype ObserveFlag = NoObserve | InvalidObserve | RegisterFlag | DeregisterFlag

  datatype Request = Request(
    mtype: MessageType,
    method_: Method,
    observe: ObserveFlag,
    path: string,
    id: U16,
    token: Bytes,
    block2: BlockOption,
    payload: Bytes,
    source: Option<SocketAddr>,
    response: Option<Spec.ReplyTemplate>)

  // The packets handed out are the messages of the log.
  ghost predicate Delivers(outbox: seq<(SocketAddr, Message)>, log: seq<Spec.Sent>) {
    && |outbox| == |log|
    && forall i | 0 <= i < |log| :: outbox[i] == (log[i].to, Spec.MessageOf(log[i]))
  }

  // Collects a hash set into a vector, in no particular order.
  method Collect<T(==, !new)>(members: set<T>) returns (order: seq<T>)
    ensures Spec.Enumerates(order, members)
  {
    order := [];
    var rest := members;
    while rest != {}
      invariant Spec.Distinct(order)
      invariant forall o :: o in order <==> o in members && o !in rest
      invariant rest <= members
      decreases rest
    {
      var o :| o in rest;
      order := order + [o];
      rest := rest - {o};
    }
  }

  // The block a first packet carries; `expect("valid block size")` cannot fail.
  method CutFirstBlock(payload: Bytes, preferred: Option<nat>) returns (block2: BlockOption, body: Bytes)
    requires preferred.Some? ==> ValidBlockSize(preferred.value)
    ensures (block2, body) == Spec.FirstBlock(payload, preferred)
  {
    if preferred.Some? && |payload| > preferred.value {
      var block := NewBlockValue(0, true, preferred.value);
      assert block.Some?;
      block2, body := Block(block.value), payload[..preferred.value];
    } else {
      block2, body := Absent, payload;
    }
  }

  class Observer {
    var registers: map<string, RegisterItem>
    var resources: map<string, ResourceItem>
    var registerResources: map<string, RegisterResourceItem>
    var unacknowledgeMessages: map<U16, UnacknowledgeMessageItem>
    var currentMessageId: U16

    // Every packet handed to a responder's encoder, with its destination.
    var outbox: seq<(SocketAddr, Message)>

    ghost var spec: Spec.State

    function Tables(): Tables
      reads this
    {
      ObserverTables.Tables(registers, resources, registerResources, unacknowledgeMessages)
    }

    ghost predicate Valid()
      reads this
    {
      && Models(Tables(), spec)
      && spec.lastId == currentMessageId
      && Delivers(outbox, spec.outbox)
    }

    constructor ()
      ensures Valid() && spec == Spec.Initial && outbox == []
    {
      registers, resources, registerResources, unacknowledgeMessages := map[], map[], map[], map[];
      currentMessageId := 0;
      outbox := [];
      spec := Spec.Initial;
    }

    /** Membership in the plain registry. */
    method IsObserving(addr: SocketAddr, path: string) returns (r: bool)
      requires Valid() && Printed(addr.text)
      ensures r <==> Spec.Observation(addr.text, path) in spec.observers
    {
      KeyLookup(Tables(), spec, Spec.Observation(addr.text, path));
      r := FormatRegisterResource(addr.text, path) in registerResources;
    }

    // What is observed has been set.
    lemma ObservedIsRecorded(endpoint: AddressText, path: string)
      requires Valid() && Spec.Observation(endpoint, path) in spec.observers
      ensures path in spec.versions && spec.versions[path] != []
    {
      ModelledIsWellFormed(Tables(), spec);
      assert Spec.Shows(spec, Spec.Observation(endpoint, path));
    }

    /** The latest version of a resource and its ETag. */
    method GetResourcePayloadAndEtag(path: string) returns (r: Option<(Bytes, Bytes)>)
      requires Valid()
      ensures r.Some? <==> path in spec.versions
      ensures r.Some? ==>
        spec.versions[path] != [] && r.value == (Spec.Latest(spec, path), EtagOf(Spec.Latest(spec, path)))
    {
      if path in resources {
        assert path in spec.versions.Keys && StandsFor(resources[path], spec.versions[path]);
        r := Some((resources[path].payload, resources[path].etag));
      } else {
        assert path !in spec.versions.Keys;
        r := None;
      }
    }

    // `responder.respond`: the packet leaves the registry.
    method Respond(to: SocketAddr, message: Message, ghost p: Spec.Sent)
      requires Valid() && to == p.to && message == Spec.MessageOf(p)
      modifies this`outbox, this`spec
      ensures Valid() && outbox == old(outbox) + [(to, message)]
      ensures spec == old(spec).(outbox := old(spec).outbox + [p])
    {
      hide Models, Spec.MessageOf;
      LogIsIrrelevant(Tables(), spec, spec.(outbox := spec.outbox + [p]));
      outbox := outbox + [(to, message)];
      spec := spec.(outbox := spec.outbox + [p]);
    }

    method RecordRegisterResource(responder: SocketAddr, path: string, token: Bytes, preferred: Option<nat>)
      requires Valid() && Printed(responder.text) && path in resources
      requires preferred.Some? ==> ValidBlockSize(preferred.value)
      modifies this`registers, this`resources, this`registerResources, this`unacknowledgeMessages, this`spec
      ensures Valid()
      ensures spec == old(spec).(observers := old(spec).observers[
                Spec.Observation(responder.text, path) := Spec.Registration(responder, token, preferred, None)])
    {
      hide Models, Delivers, Refiled, Coap.Printed;
      ghost var t := Tables();
      ghost var o := Spec.Observation(responder.text, path);
      KeyLookup(t, spec, o);
      var resource := resources[path];
      var key := FormatRegisterResource(responder.text, path);
      var item := RegisterResourceItem(responder, path, token, None, preferred);
      if key in registerResources {
        var existing := registerResources[key];
        if existing.unacknowledgeMessage.Some? {
          unacknowledgeMessages := unacknowledgeMessages - {existing.unacknowledgeMessage.value};
        }
        registerResources := registerResources[key := existing.(unacknowledgeMessage := None,
          registeredResponder := responder, token := token, preferredBlockSize := preferred)];
      } else {
        registerResources := registerResources[key := item];
      }
      resources := resources[path := resource.(registerResources := resource.registerResources + {key})];
      if responder.text in registers {
        var register := registers[responder.text];
        registers := registers[responder.text := RegisterItem(register.registerResources + {key})];
      } else {
        registers := registers[responder.text := RegisterItem({key})];
        assert {key} == Members(t.registers, responder.text) + {key};
      }
      RefiledModels(t, spec, item);
      RefiledParts(t, item);
      ghost var u := Refiled(t, item);
      assert registerResources == u.registerResources;
      assert unacknowledgeMessages == u.unacknowledgeMessages;
      assert resources == u.resources;
      assert registers == u.registers;
      spec := spec.(observers := spec.observers[o := RegistrationOf(t, item)]);
    }

    /** Deregistration: false exactly when the observation is registered under another token. */
    method RemoveRegisterResource(address: SocketAddr, path: string, token: Bytes) returns (done: bool)
      requires Valid() && Printed(address.text)
      modifies this`registers, this`resources, this`registerResources, this`unacknowledgeMessages, this`spec
      ensures Valid() && spec == Spec.Deregister(old(spec), address, path, token)
      ensures done <==> var o := Spec.Observation(address.text, path);
                        o in old(spec).observers ==> old(spec).observers[o].token == token
    {
      hide Models, Delivers, Discarded, Coap.Printed;
      ghost var t := Tables();
      ghost var o := Spec.Observation(address.text, path);
      KeyLookup(t, spec, o);
      var key := FormatRegisterResource(address.text, path);
      if key in registerResources {
        ModelledLinks(t, spec, key);
        DiscardedModels(t, spec, key);
        DiscardedParts(t, key);
        var registerResource := registerResources[key];
        if registerResource.token != token {
          return false;
        }
        if registerResource.unacknowledgeMessage.Some? {
          var id := registerResource.unacknowledgeMessage.value;
          assert id in unacknowledgeMessages;
          unacknowledgeMessages := unacknowledgeMessages - {id};
        }
        assert path in resources && key in resources[path].registerResources;
        var resource := resources[path];
        resources := resources[path := resource.(registerResources := resource.registerResources - {key})];
        var text := registerResource.registeredResponder.text;
        assert text in registers && key in registers[text].registerResources;
        var rest := registers[text].registerResources - {key};
        registers := registers[text := RegisterItem(rest)];
        if rest == {} {
          registers := registers - {text};
        }
        spec := Spec.Removed(spec, o);
      }
      registerResources := registerResources - {key};
      if key in t.registerResources {
        ghost var u := Discarded(t, key);
        assert registerResources == u.registerResources;
        assert unacknowledgeMessages == u.unacknowledgeMessages;
        assert resources == u.resources;
        assert registers == u.registers;
      } else {
        assert registerResources == t.registerResources;
      }
      done := true;
    }

    method Register(request: Request, responder: SocketAddr) returns (left: Option<Spec.ReplyTemplate>)
      requires Valid() && Printed(responder.text)
      modifies this
      ensures Valid() && currentMessageId == old(currentMessageId)
      ensures spec == Spec.Register(old(spec), responder, request.path, request.token,
                                    PreferredBlockSize(request.block2), request.response)
      ensures left == None
    {
      hide Models, Delivers, Spec.MessageOf;
      var resourcePath := request.path;
      left := None;
      ModelledVersions(Tables(), spec, resourcePath);
      if resourcePath !in resources {
        if request.response.Some? {
          var r := request.response.value;
          ghost var p := Spec.Sent(responder, resourcePath, r.mtype, r.id, r.token, None);
          NotFoundMessage(p);
          Respond(responder, Message(r.mtype, NotFound, r.id, r.token, None, None, None, Absent, Absent, []), p);
        }
        return;
      }
      var preferred := PreferredBlockSize(request.block2);
      RecordRegisterResource(responder, resourcePath, request.token, preferred);
      ModelledVersions(Tables(), spec, resourcePath);
      var resource := resources[resourcePath];
      if request.response.Some? {
        var r := request.response.value;
        ghost var p := Spec.Show(spec, responder, resourcePath, NonConfirmable, r.id, r.token, preferred);
        var message := Representation(resource, NonConfirmable, r.id, r.token, preferred, p);
        Respond(responder, message, p);
      }
    }

    method Deregister(request: Request)
      requires Valid() && request.source.Some? && Printed(request.source.value.text)
      modifies this`registers, this`resources, this`registerResources, this`unacknowledgeMessages, this`spec
      ensures Valid() && spec == Spec.Deregister(old(spec), request.source.value, request.path, request.token)
    {
      var _ := RemoveRegisterResource(request.source.value, request.path, request.token);
    }

    /** A reset removes the observer only for a pending id and from the registered endpoint. */
    method ResetNotification(request: Request)
      requires Valid()
      modifies this`registers, this`resources, this`registerResources, this`unacknowledgeMessages, this`spec
      ensures Valid() && spec == Spec.ResetNotification(old(spec), request.id, request.source)
    {
      hide Models, Delivers;
      ghost var t := Tables();
      ModelledIsWellFormed(t, spec);
      IdLookup(t, spec, request.id);
      if request.id !in unacknowledgeMessages {
        return;
      }
      var key := unacknowledgeMessages[request.id].registerResource;
      if key !in registerResources {
        return;
      }
      ghost var o := ObservationOf(registerResources[key]);
      ModelledLinks(t, spec, key);
      Laws.OnlyOwnerRemoved(spec, request.id, request.source, o);
      var item := registerResources[key];
      var expected := item.registeredResponder;
      if request.source != Some(expected) {
        return;
      }
      ClearedModels(t, spec, key);
      unacknowledgeMessages := unacknowledgeMessages - {request.id};
      registerResources := registerResources[key := item.(unacknowledgeMessage := None)];
      assert Tables() == Cleared(t, key);
      spec := Spec.Retired(spec, o);
      var _ := RemoveRegisterResource(expected, item.resource, item.token);
      assert Spec.Removed(Spec.Retired(old(spec), o), o) == Spec.Removed(old(spec), o);
    }

    /** An acknowledgement retires a pending id only when it carries the registered token. */
    method RemoveUnacknowledgeMessage(id: U16, token: Bytes)
      requires Valid()
      modifies this`registerResources, this`unacknowledgeMessages, this`spec
      ensures Valid() && spec == Spec.Acknowledge(old(spec), id, token)
    {
      hide Models, Delivers;
      ghost var t := Tables();
      ModelledIsWellFormed(t, spec);
      IdLookup(t, spec, id);
      if id in unacknowledgeMessages {
        var key := unacknowledgeMessages[id].registerResource;
        assert key in registerResources;
        ghost var o := ObservationOf(registerResources[key]);
        ModelledLinks(t, spec, key);
        Laws.OnlyOwnerRetired(spec, id, token, o);
        if registerResources[key].token != token {
          return;
        }
        ClearedModels(t, spec, key);
        registerResources := registerResources[key := registerResources[key].(unacknowledgeMessage := None)];
        spec := Spec.Retired(spec, o);
      }
      unacknowledgeMessages := unacknowledgeMessages - {id};
      assert id in t.unacknowledgeMessages ==> Tables() == Cleared(t, t.unacknowledgeMessages[id].registerResource);
      assert id !in t.unacknowledgeMessages ==> Tables() == t;
    }

    method Acknowledge(request: Request)
      requires Valid()
      modifies this`registerResources, this`unacknowledgeMessages, this`spec
      ensures Valid() && spec == Spec.Acknowledge(old(spec), request.id, request.token)
    {
      RemoveUnacknowledgeMessage(request.id, request.token);
    }

    method RecordResource(path: string, payload: Bytes)
      requires Valid()
      modifies this`resources, this`spec
      ensures Valid() && spec == Spec.RecordVersion(old(spec), path, payload)
      ensures path in resources
      ensures resources[path].registerResources ==
        if path in old(resources) then old(resources[path].registerResources) else {}
    {
      hide Models, Delivers;
      ghost var t := Tables();
      UpdatedModels(t, spec, path, payload);
      var etag := ComputeEtag(payload);
      if path in resources {
        var r := resources[path];
        r := r.(sequence := if r.sequence == 0xFFFF_FFFF then 0 else r.sequence + 1);
        r := r.(payload := payload);
        r := r.(etag := etag);
        resources := resources[path := r];
      } else {
        resources := resources[path := ResourceItem(payload, {}, 0, etag)];
      }
      assert Tables() == Updated(t, path, payload);
      spec := Spec.RecordVersion(spec, path, payload);
    }

    method GenMessageId()
      requires Valid()
      modifies this`currentMessageId, this`spec
      ensures Valid() && spec == old(spec).(lastId := Successor(old(spec).lastId))
    {
      hide Models, Delivers;
      ghost var next := spec.(lastId := Successor(spec.lastId));
      LogIsIrrelevant(Tables(), spec, next);
      currentMessageId := Successor(currentMessageId);
      spec := next;
    }

    method NotifyRegisterWithNewestResource(key: string)
      requires Valid() && key in registerResources
      modifies this`outbox, this`spec
      ensures Valid()
      ensures var o := ObservationOf(registerResources[key]);
        && Spec.Shows(old(spec), o)
        && spec == old(spec).(outbox := old(spec).outbox + [Spec.NotificationTo(old(spec), o, currentMessageId)])
    {
      hide Models, Delivers, Spec.MessageOf;
      var messageId := currentMessageId;
      ModelledLinks(Tables(), spec, key);
      var registerResource := registerResources[key];
      ModelledVersions(Tables(), spec, registerResource.resource);
      var resource := resources[registerResource.resource];
      ghost var p := Spec.NotificationTo(spec, ObservationOf(registerResource), messageId);
      var message := Representation(resource, Confirmable, messageId, registerResource.token,
                                    registerResource.preferredBlockSize, p);
      Respond(registerResource.registeredResponder, message, p);
    }

    method RecordUnacknowledgeMessage(key: string)
      requires Valid() && key in registerResources && !Stale(Tables(), key, currentMessageId)
      modifies this`registerResources, this`unacknowledgeMessages, this`spec
      ensures Valid()
      ensures var o := old(ObservationOf(registerResources[key]));
        && o in old(spec).observers
        && spec == Pended(old(spec), o, currentMessageId, 1)
    {
      hide Models, Delivers;
      ghost var t := Tables();
      ghost var o := ObservationOf(registerResources[key]);
      var messageId := currentMessageId;
      RecordedModels(t, spec, key, messageId);
      var registerResource := registerResources[key];
      if registerResource.unacknowledgeMessage.Some? {
        unacknowledgeMessages := unacknowledgeMessages - {registerResource.unacknowledgeMessage.value};
      }
      registerResources := registerResources[key := registerResource.(unacknowledgeMessage := Some(messageId))];
      unacknowledgeMessages := unacknowledgeMessages[messageId := UnacknowledgeMessageItem(key, 1)];
      assert Tables() == Recorded(t, key, messageId);
      spec := Pended(spec, o, messageId, 1);
    }

    /** Counts a retry, or gives up after ten of them; the registration stays either way. */
    method TryUnacknowledgeMessage(key: string) returns (tryAgain: bool)
      requires Valid() && key in registerResources && registerResources[key].unacknowledgeMessage.Some?
      modifies this`registerResources, this`unacknowledgeMessages, this`spec
      ensures Valid() && key in registerResources
      ensures ObservationOf(registerResources[key]) == old(ObservationOf(registerResources[key]))
      ensures var o := ObservationOf(registerResources[key]);
        && o in old(spec).observers && old(spec).observers[o].pending.Some?
        && var p := old(spec).observers[o].pending.value;
        && tryAgain == (p.tries <= Spec.MAX_TRIES)
        && spec == if tryAgain then Pended(old(spec), o, p.id, p.tries + 1) else Spec.Retired(old(spec), o)
    {
      hide Models, Delivers;
      ghost var t := Tables();
      ghost var o := ObservationOf(registerResources[key]);
      var registerResource := registerResources[key];
      var messageId := registerResource.unacknowledgeMessage.value;
      RetriedModels(t, spec, key, messageId);
      ClearedModels(t, spec, key);
      assert messageId in unacknowledgeMessages;
      var message := unacknowledgeMessages[messageId];
      if message.tryTimes > Spec.MAX_TRIES {
        tryAgain := false;
      } else {
        unacknowledgeMessages := unacknowledgeMessages[messageId := message.(tryTimes := message.tryTimes + 1)];
        tryAgain := true;
      }
      if !tryAgain {
        registerResources := registerResources[key := registerResource.(unacknowledgeMessage := None)];
        unacknowledgeMessages := unacknowledgeMessages - {messageId};
      }
      assert Tables() == if tryAgain then Retried(t, messageId) else Cleared(t, key);
      spec := if tryAgain then Pended(spec, o, messageId, message.tryTimes + 1) else Spec.Retired(spec, o);
    }

    /** A PUT numbers one notification per observer. None of these ids may be pending still, the last one apart,
        which may be for an observer of the path: exactly what makes the PUT safe in whatever order the set of
        observers is walked (MessageIds). */
    ghost predicate IdsAvailable(path: string)
      reads this
    {
      TablesAvailable(Tables(), currentMessageId, path)
    }

    /** Before the counter has wrapped they always are. */
    lemma UnwrappedIdsAreAvailable(path: string)
      requires Valid() && Ids.Unwrapped(spec) && spec.lastId + |Spec.ObserversOf(spec, path)| < 0x1_0000
      ensures IdsAvailable(path)
    {
      hide Models, Delivers;
      Ids.UnwrappedIsAvailable(spec, path);
      AvailableIff(Tables(), spec, path);
    }

    // The body of the notification loop.
    method NotifyOne(key: string, ghost o: Spec.Observation)
      requires Valid() && o in spec.observers && key == KeyOf(o)
      requires forall p :: Spec.Owns(spec, p, Successor(spec.lastId)) ==> p == o
      modifies this
      ensures Valid() && Spec.Shows(old(spec), o) && spec == Spec.NotifyOne(old(spec), o)
    {
      hide Models, Delivers;
      ghost var soFar := spec;
      KeyIsFiled(Tables(), spec, o);
      GenMessageId();
      NotifyRegisterWithNewestResource(key);
      OnlyOwnIsNotStale(Tables(), spec, key, currentMessageId, o) by {
        assert forall p :: Spec.Owns(spec, p, currentMessageId) ==> Spec.Owns(soFar, p, currentMessageId);
      }
      RecordUnacknowledgeMessage(key);
    }

    // The notification loop, over the keys of the observations in `order`.
    method NotifyEach(keys: seq<string>, ghost order: seq<Spec.Observation>)
      requires Valid() && Spec.WellFormed(spec) && Spec.SafeIds(spec, order)
      requires Spec.Distinct(order) && forall o | o in order :: Spec.Shows(spec, o)
      requires |order| == |keys| && forall i | 0 <= i < |order| :: keys[i] == KeyOf(order[i])
      modifies this
      ensures Valid() && spec == Spec.NotifyAll(old(spec), order)
    {
      hide Models, Delivers, Spec.WellFormed, Spec.SafeIds, Spec.Shows, Spec.NotifyOne;
      ghost var start := spec;
      for n := 0 to |keys|
        invariant Valid()
        invariant forall o | o in order[..n] :: Spec.Shows(start, o)
        invariant spec == Spec.NotifyAll(start, order[..n])
      {
        NextNotification(start, order, n);
        NextIdIsFree(start, order, n);
        NotifyOne(keys[n], order[n]);
      }
      assert order[..|keys|] == order;
    }

    /** A PUT: the new version, then one numbered notification per observer of the path. */
    method ResourceChanged(request: Request) returns (ghost order: seq<Spec.Observation>)
      requires Valid() && IdsAvailable(request.path)
      modifies this
      ensures Valid()
      ensures Spec.Enabled(old(spec), Spec.PutRequest(request.path, request.payload, order))
      ensures forall o | o in order :: o in old(spec).observers && o.path == request.path
      ensures spec == Spec.Put(old(spec), request.path, request.payload, order)
    {
      hide Models, Delivers, Spec.WellFormed, Spec.SafeIds, Spec.Shows, Spec.NotifyAll;
      ghost var before := Tables();
      ModelledIsWellFormed(before, spec);
      RecordResource(request.path, request.payload);
      ModelledIsWellFormed(Tables(), spec);
      var keys := Collect(resources[request.path].registerResources);
      order := ObserversBehind(before, old(spec), request.path, keys);
      Laws.EnumerationLength(keys, resources[request.path].registerResources);
      AvailableIff(before, old(spec), request.path);
      Ids.AvailableIsSafe(old(spec), request.path, order);
      Laws.RecordKeepsIds(old(spec), request.path, request.payload, order);
      Laws.ObserversShow(old(spec), request.path, request.payload, order);
      NotifyEach(keys, order);
    }

    // The body of the timer loop.
    method TickOne(key: string, ghost o: Spec.Observation)
      requires Valid() && o in spec.observers && spec.observers[o].pending.Some? && key == KeyOf(o)
      modifies this
      ensures Valid() && Spec.Shows(old(spec), o) && spec == Spec.TickOne(old(spec), o)
    {
      hide Models, Delivers;
      KeyIsFiled(Tables(), spec, o);
      HeldRegistration(Tables(), spec, o);
      var tryAgain := TryUnacknowledgeMessage(key);
      if tryAgain {
        NotifyRegisterWithNewestResource(key);
      }
    }

    // The keys of all pending notifications, as the tick starts.
    method PendingKeys() returns (keys: seq<string>, ghost order: seq<Spec.Observation>)
      requires Valid()
      ensures Spec.Enumerates(order, Spec.Unacknowledged(spec))
      ensures |order| == |keys| && forall i | 0 <= i < |order| :: keys[i] == KeyOf(order[i])
    {
      hide Models, Delivers;
      var ids := Collect(unacknowledgeMessages.Keys);
      keys := [];
      for n := 0 to |ids|
        invariant |keys| == n
        invariant forall i | 0 <= i < n ::
          ids[i] in unacknowledgeMessages && keys[i] == unacknowledgeMessages[ids[i]].registerResource
      {
        assert ids[n] in ids;
        keys := keys + [unacknowledgeMessages[ids[n]].registerResource];
      }
      order := WaitersBehind(Tables(), spec, ids, keys);
    }

    /** A timer tick: every pending notification is resent or, after ten retries, given up. */
    method TimerHandler() returns (ghost order: seq<Spec.Observation>)
      requires Valid()
      modifies this
      ensures Valid()
      ensures Spec.WellFormed(old(spec)) && Spec.Enabled(old(spec), Spec.Tick(order))
      ensures spec == Spec.Step(old(spec), Spec.Tick(order))
    {
      hide Models, Delivers, Spec.WellFormed, Spec.Waits, Spec.TickOne;
      ghost var start := spec;
      ModelledIsWellFormed(Tables(), start);
      var registerResourceKeys;
      registerResourceKeys, order := PendingKeys();
      Laws.TickAges(start, order);
      for n := 0 to |registerResourceKeys|
        invariant Valid()
        invariant forall o | o in order[..n] :: Spec.Waits(start, o)
        invariant Spec.Distinct(order[..n])
        invariant spec == Spec.TickAll(start, order[..n])
      {
        NextTick(start, order, n);
        TickOne(registerResourceKeys[n], order[n]);
      }
      assert order[..|registerResourceKeys|] == order;
    }

    /** The dispatcher: what each message does to the registry, and whether the request goes on to the
        application's handler. */
    method RequestHandler(request: Request, responder: SocketAddr)
      returns (forward: bool, left: Option<Spec.ReplyTemplate>, ghost event: Spec.Event)
      requires Valid() && Printed(responder.text)
      requires Deregisters(request) ==> request.source.Some?
      requires request.source.Some? ==> Printed(request.source.value.text)
      requires Puts(request) ==> IdsAvailable(request.path)
      modifies this
      ensures Valid() && Spec.WellFormed(old(spec))
      ensures Spec.Enabled(old(spec), event) && spec == Spec.Step(old(spec), event)
      ensures IsEventOf(event, request, responder)
      ensures forward <==> !event.AckMessage? && !event.ResetMessage? && !event.RegisterRequest?
      ensures left == if event.RegisterRequest? then None else request.response
    {
      ModelledIsWellFormed(Tables(), spec);
      left := request.response;
      match request.mtype {
        case Acknowledgement =>
          event := Spec.AckMessage(request.id, request.token);
          Acknowledge(request);
          return false, left, event;
        case Reset =>
          event := Spec.ResetMessage(request.id, request.source);
          ResetNotification(request);
          return false, left, event;
        case _ =>
      }
      match (request.method_, request.observe) {
        case (Get, RegisterFlag) =>
          event := Spec.RegisterRequest(responder, request.path, request.token, PreferredBlockSize(request.block2),
                                        request.response);
          left := Register(request, responder);
          forward := false;
        case (Get, DeregisterFlag) =>
          event := Spec.DeregisterRequest(request.source.value, request.path, request.token);
          Deregister(request);
          forward := true;
        case (PutMethod, _) =>
          ghost var order := ResourceChanged(request);
          event := Spec.PutRequest(request.path, request.payload, order);
          forward := true;
        case _ =>
          event := Spec.OtherRequest;
          forward := true;
      }
    }
  }

  // A deregistration unwraps the request's source.
  predicate Deregisters(request: Request) {
    IsRequest(request) && request.method_.Get? && request.observe.DeregisterFlag?
  }

  predicate Puts(request: Request) {
    IsRequest(request) && request.method_.PutMethod?
  }

  predicate IsRequest(request: Request) {
    !request.mtype.Acknowledgement? && !request.mtype.Reset?
  }

  /** Which event a request is, in terms of its header. */
  ghost predicate IsEventOf(e: Spec.Event, request: Request, responder: SocketAddr) {
    if request.mtype.Acknowledgement? then e == Spec.AckMessage(request.id, request.token)
    else if request.mtype.Reset? then e == Spec.ResetMessage(request.id, request.source)
    else match (request.method_, request.observe)
      case (Get, RegisterFlag) =>
        var preferred := if request.block2.Block? then Some(request.block2.value.Size()) else None;
        e == Spec.RegisterRequest(responder, request.path, request.token, preferred, request.response)
      case (Get, DeregisterFlag) =>
        request.source.Some? && e == Spec.DeregisterRequest(request.source.value, request.path, request.token)
      case (PutMethod, _) => e.PutRequest? && e.path == request.path && e.payload == request.payload
      case _ => e.OtherRequest?
  }

  lemma KeyIsFiled(t: ObserverTables.Tables, s: Spec.State, o: Spec.Observation)
    requires Models(t, s) && o in s.observers
    ensures KeyOf(o) in t.registerResources && ObservationOf(t.registerResources[KeyOf(o)]) == o
    ensures s.observers[o].pending.Some? <==> t.registerResources[KeyOf(o)].unacknowledgeMessage.Some?
  {
    HeldRegistration(t, s, o);
  }

  // The observations a resource's keys stand for.
  ghost function Behind(t: ObserverTables.Tables, keys: seq<string>): (order: seq<Spec.Observation>)
    requires forall k | k in keys :: k in t.registerResources
    ensures |order| == |keys|
    ensures forall i | 0 <= i < |keys| :: order[i] == ObservationOf(t.registerResources[keys[i]])
  {
    if keys == [] then []
    else
      var front, last := keys[..|keys| - 1], keys[|keys| - 1];
      assert last in keys;
      Behind(t, front) + [ObservationOf(t.registerResources[last])]
  }

  lemma ObserversBehind(t: ObserverTables.Tables, s: Spec.State, path: string, keys: seq<string>)
    returns (order: seq<Spec.Observation>)
    requires Models(t, s)
    requires Spec.Enumerates(keys, if path in t.resources then t.resources[path].registerResources else {})
    ensures Spec.Enumerates(order, Spec.ObserversOf(s, path))
    ensures |order| == |keys| && forall i | 0 <= i < |order| :: keys[i] == KeyOf(order[i])
  {
    forall k | k in keys ensures k in t.registerResources {
    }
    order := Behind(t, keys);
    forall i | 0 <= i < |order| ensures keys[i] == KeyOf(order[i]) && order[i] in Spec.ObserversOf(s, path) {
      assert keys[i] in keys;
      ModelledLinks(t, s, keys[i]);
    }
    forall o | o in Spec.ObserversOf(s, path) ensures o in order {
      HeldRegistration(t, s, o);
      assert KeyOf(o) in keys;
      var i :| 0 <= i < |keys| && keys[i] == KeyOf(o);
      assert order[i] == o;
    }
    forall i, j | 0 <= i < j < |order| ensures order[i] != order[j] {
      assert keys[i] != keys[j];
    }
  }

  lemma OnlyOwnIsNotStale(t: ObserverTables.Tables, s: Spec.State, key: string, id: U16, o: Spec.Observation)
    requires Models(t, s) && o in s.observers && key == KeyOf(o)
    requires forall p :: Spec.Owns(s, p, id) ==> p == o
    ensures !Stale(t, key, id)
  {
    hide Models;
    IdLookup(t, s, id);
    if id in t.unacknowledgeMessages {
      ModelledLinks(t, s, t.unacknowledgeMessages[id].registerResource);
    }
  }

  // The keys of a path's observers are as many as its observers.
  lemma MembersAreObservers(t: ObserverTables.Tables, s: Spec.State, path: string)
    requires Models(t, s)
    ensures |Spec.ObserversOf(s, path)| == if path in t.resources then |t.resources[path].registerResources| else 0
  {
    hide Models;
    var members := if path in t.resources then t.resources[path].registerResources else {};
    var keys := Ids.SomeOrder(members);
    var order := ObserversBehind(t, s, path, keys);
    Laws.EnumerationLength(keys, members);
    Laws.EnumerationLength(order, Spec.ObserversOf(s, path));
  }

  // The id `i` turns on may be used in a PUT to `path` that has `count` turns.
  ghost predicate TableIdAvailable(t: ObserverTables.Tables, lastId: U16, path: string, i: nat)
    requires path in t.resources
  {
    var id, members := IdAfter(lastId, i + 1), t.resources[path].registerResources;
    id in t.unacknowledgeMessages ==> i + 1 == |members| && t.unacknowledgeMessages[id].registerResource in members
  }

  ghost predicate TablesAvailable(t: ObserverTables.Tables, lastId: U16, path: string) {
    path in t.resources ==>
      && |t.resources[path].registerResources| <= 0x1_0000
      && forall i | 0 <= i < |t.resources[path].registerResources| :: TableIdAvailable(t, lastId, path, i)
  }

  lemma AvailableAtIff(t: ObserverTables.Tables, s: Spec.State, path: string, i: nat)
    requires Models(t, s) && path in t.resources
    ensures TableIdAvailable(t, s.lastId, path, i) <==> Ids.AvailableAt(s, path, i)
  {
    hide Models, IdAfter;
    MembersAreObservers(t, s, path);
    ModelledIsWellFormed(t, s);
    var id, members := IdAfter(s.lastId, i + 1), t.resources[path].registerResources;
    IdLookup(t, s, id);
    if id in t.unacknowledgeMessages {
      var key := t.unacknowledgeMessages[id].registerResource;
      var o := ObservationOf(t.registerResources[key]);
      MemberIffPath(t, s, path, key);
      assert Spec.OwnsTurn(s, o, i);
      forall p | Spec.OwnsTurn(s, p, i) ensures p == o {
        Laws.OneOwner(s, p, o, id);
      }
    }
  }

  lemma MemberIffPath(t: ObserverTables.Tables, s: Spec.State, path: string, key: string)
    requires Models(t, s) && path in t.resources && key in t.registerResources
    ensures key in t.resources[path].registerResources <==> t.registerResources[key].resource == path
  {
    ModelledLinks(t, s, key);
  }

  /** The tables' condition is the plain state's, which MessageIds shows to be exact. */
  lemma AvailableIff(t: ObserverTables.Tables, s: Spec.State, path: string)
    requires Models(t, s)
    ensures TablesAvailable(t, s.lastId, path) <==> Ids.AvailableIds(s, path)
  {
    hide Models, TableIdAvailable, Ids.AvailableAt;
    MembersAreObservers(t, s, path);
    if path in t.resources {
      forall i | 0 <= i < |t.resources[path].registerResources|
        ensures TableIdAvailable(t, s.lastId, path, i) <==> Ids.AvailableAt(s, path, i)
      {
        AvailableAtIff(t, s, path, i);
      }
    }
  }

  /** The failure that the wrapped counter leads to: on tables that stand for the end of MessageIds.WrappingRun,
      recording the next notification of `b` overwrites the entry that `a` awaits; once `b` acknowledges, `a`
      still points at an id that is gone, and the source's `unwrap` of that look-up fails. */
  lemma WrappedCounterBreaksUnwrap(t: ObserverTables.Tables, s: Spec.State, a: Spec.Observation, b: Spec.Observation)
    requires Models(t, s) && Ids.Wrapping(s, a, b, 0xFFFF)
    ensures KeyOf(a) in t.registerResources && KeyOf(b) in t.registerResources
    ensures var id := IdAfter(s.lastId, 1);
      var u := Recorded(t, KeyOf(b), id);
      && u.registerResources[KeyOf(b)].unacknowledgeMessage == Some(id)
      && var v := Cleared(u, KeyOf(b));
         && v.registerResources[KeyOf(a)].unacknowledgeMessage == Some(id) && id !in v.unacknowledgeMessages
  {
    hide Models, Spec.WellFormed;
    var id := IdAfter(s.lastId, 1);
    Ids.StaleAfterWrap(s, a, b);
    assert b in Spec.ObserversOf(s, b.path);
    HeldRegistration(t, s, a);
    HeldRegistration(t, s, b);
    ModelledIsCoherent(t, s);
    assert KeyOf(a) != KeyOf(b);
    StaleIdBreaksUnwrap(t, KeyOf(b), id);
  }

  lemma WaitersBehind(t: ObserverTables.Tables, s: Spec.State, ids: seq<U16>, keys: seq<string>)
    returns (order: seq<Spec.Observation>)
    requires Models(t, s) && Spec.Enumerates(ids, t.unacknowledgeMessages.Keys)
    requires |keys| == |ids|
    requires forall i | 0 <= i < |ids| :: ids[i] in t.unacknowledgeMessages
    requires forall i | 0 <= i < |ids| :: keys[i] == t.unacknowledgeMessages[ids[i]].registerResource
    ensures Spec.Enumerates(order, Spec.Unacknowledged(s))
    ensures |order| == |keys| && forall i | 0 <= i < |order| :: keys[i] == KeyOf(order[i])
  {
    forall k | k in keys ensures k in t.registerResources {
      var i :| 0 <= i < |keys| && keys[i] == k;
      IdLookup(t, s, ids[i]);
    }
    order := Behind(t, keys);
    forall i | 0 <= i < |order|
      ensures keys[i] == KeyOf(order[i]) && order[i] in Spec.Unacknowledged(s) && Spec.Owns(s, order[i], ids[i])
    {
      assert keys[i] in keys;
      IdLookup(t, s, ids[i]);
      ModelledLinks(t, s, keys[i]);
    }
    forall o | o in Spec.Unacknowledged(s) ensures o in order {
      HeldRegistration(t, s, o);
      var id := s.observers[o].pending.value.id;
      assert id in ids;
      var i :| 0 <= i < |ids| && ids[i] == id;
      assert IsRegistered(t, o) && order[i] == o;
    }
    forall i, j | 0 <= i < j < |order| ensures order[i] != order[j] {
      assert ids[i] != ids[j] && Spec.Owns(s, order[i], ids[i]) && Spec.Owns(s, order[j], ids[j]);
    }
  }

  // One more turn of the notification loop.
  lemma NextNotification(s: Spec.State, order: seq<Spec.Observation>, n: nat)
    requires Spec.Distinct(order) && n < |order| && forall o | o in order :: Spec.Shows(s, o)
    ensures forall o | o in order[..n + 1] :: Spec.Shows(s, o)
    ensures forall o | o in order[..n] :: Spec.Shows(s, o)
    ensures order[n] in Spec.NotifyAll(s, order[..n]).observers && Spec.Shows(Spec.NotifyAll(s, order[..n]), order[n])
    ensures Spec.NotifyAll(s, order[..n + 1]) == Spec.NotifyOne(Spec.NotifyAll(s, order[..n]), order[n])
  {
    var front := order[..n];
    assert order[n] in order && Spec.Shows(s, order[n]);
    assert order[..n + 1][..n] == front;
    assert order[n] in Spec.NotifyAll(s, front).observers.Keys;
  }

  lemma NextIdIsFree(s: Spec.State, order: seq<Spec.Observation>, n: nat)
    requires Spec.WellFormed(s) && Spec.Distinct(order) && n < |order|
    requires forall o | o in order :: Spec.Shows(s, o)
    requires Spec.SafeIds(s, order)
    ensures forall o | o in order[..n] :: Spec.Shows(s, o)
    ensures var t := Spec.NotifyAll(s, order[..n]);
      forall p :: Spec.Owns(t, p, Successor(t.lastId)) ==> p == order[n]
  {
    assert forall o | o in order[..n] :: o in order;
    var t := Spec.NotifyAll(s, order[..n]);
    forall p ensures Spec.Owns(t, p, Successor(t.lastId)) ==> p == order[n] {
      Laws.NextIdIsSafe(s, order, n, p);
    }
  }

  // One more turn of the timer loop.
  lemma NextTick(s: Spec.State, order: seq<Spec.Observation>, n: nat)
    requires Spec.Distinct(order) && n < |order|
    requires forall o | o in order :: Spec.Waits(s, o)
    ensures forall o | o in order[..n + 1] :: Spec.Waits(s, o)
    ensures forall o | o in order[..n] :: Spec.Waits(s, o)
    ensures Spec.Distinct(order[..n + 1]) && Spec.Distinct(order[..n])
    ensures var t := Spec.TickAll(s, order[..n]);
      && order[n] in t.observers && t.observers[order[n]].pending.Some? && Spec.Waits(t, order[n])
      && Spec.TickAll(s, order[..n + 1]) == Spec.TickOne(t, order[n])
  {
    var front := order[..n];
    assert order[n] in order && order[n] !in front;
    assert order[..n + 1][..n] == front;
    assert order[n] in Spec.TickAll(s, front).observers.Keys;
  }

  // The block size a client asks for with a readable Block2 option.
  function PreferredBlockSize(block2: BlockOption): (r: Option<nat>)
    ensures r.Some? ==> ValidBlockSize(r.value)
  {
    match block2
    case Block(b) => Some(b.Size())
    case _ => None
  }

  lemma NotFoundMessage(p: Spec.Sent)
    requires p.shown.None?
    ensures Spec.MessageOf(p) == Message(p.mtype, NotFound, p.id, p.token, None, None, None, Absent, Absent, [])
  {
  }

  // The packet that shows a resource, as registration replies and notifications build it.
  method Representation(resource: ResourceItem, mtype: MessageType, id: U16, token: Bytes, preferred: Option<nat>,
                        ghost p: Spec.Sent)
    returns (message: Message)
    requires preferred.Some? ==> ValidBlockSize(preferred.value)
    requires p.mtype == mtype && p.id == id && p.token == token && p.shown.Some?
    requires p.shown.value.payload == resource.payload && p.shown.value.blockSize == preferred
    requires resource.sequence == p.shown.value.version % 0x1_0000_0000 && resource.etag == EtagOf(resource.payload)
    ensures message == Spec.MessageOf(p)
  {
    var totalSize := |resource.payload|;
    var block2, body := CutFirstBlock(resource.payload, preferred);
    message := Message(mtype, Content, id, token, Some(resource.sequence), Some(resource.etag),
                       Some(EncodeCoapUint(totalSize)), Absent, block2, body);
  }
}
