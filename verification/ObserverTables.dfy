/** The four cross-indexed tables of the Observe registry as values: what it means for them to agree,
    what they stand for, and that each elementary change keeps both. */
module ObserverTables {
  import opened Coap
  import opened Etag
  import Spec = ObserveSpec

  datatype RegisterItem = RegisterItem(registerResources: set<string>)

  datatype ResourceItem = ResourceItem(payload: Bytes, registerResources: set<string>, sequence: U32, etag: Bytes)

  datatype RegisterResourceItem = RegisterResourceItem(
    registeredResponder: SocketAddr,
    resource: string,
    token: Bytes,
    unacknowledgeMessage: Option<U16>,
    preferredBlockSize: Option<nat>)

  datatype UnacknowledgeMessageItem = UnacknowledgeMessageItem(registerResource: string, tryTimes: nat)

  datatype Tables = Tables(
    registers: map<string, RegisterItem>,
    resources: map<string, ResourceItem>,
    registerResources: map<string, RegisterResourceItem>,
    unacknowledgeMessages: map<U16, UnacknowledgeMessageItem>)

  // ---------------------------------------------------------------- keys

  // `format!("{}${}", address, path)`
  function FormatRegisterResource(text: AddressText, path: string): string {
    text + "$" + path
  }

  lemma PrintedHasNoDollar(text: AddressText)
    requires Printed(text)
    ensures '$' !in text
  {
  }

  /** Keys identify their parts, because a printed address never contains the separator. */
  lemma KeysAreInjective(a: AddressText, p: string, b: AddressText, q: string)
    requires Printed(a) && Printed(b)
    ensures FormatRegisterResource(a, p) == FormatRegisterResource(b, q) <==> a == b && p == q
  {
    PrintedHasNoDollar(a);
    PrintedHasNoDollar(b);
    var k, l := FormatRegisterResource(a, p), FormatRegisterResource(b, q);
    if k == l {
      assert k[|a|] == '$' && l[|b|] == '$';
      assert |a| == |b|;
      assert a == k[..|a|] && b == l[..|b|];
      assert p == k[|a| + 1..] && q == l[|b| + 1..];
    }
  }

  // ---------------------------------------------------------------- agreement

  function ObservationOf(item: RegisterResourceItem): Spec.Observation {
    Spec.Observation(item.registeredResponder.text, item.resource)
  }

  function KeyOf(o: Spec.Observation): string {
    FormatRegisterResource(o.endpoint, o.path)
  }

  // A registration is filed under its own key, its resource and its address, and awaits the id that
  // is filed under it.
  ghost predicate Linked(t: Tables, key: string)
    requires key in t.registerResources
  {
    var item := t.registerResources[key];
    && Printed(item.registeredResponder.text)
    && key == KeyOf(ObservationOf(item))
    && item.resource in t.resources
    && key in t.resources[item.resource].registerResources
    && item.registeredResponder.text in t.registers
    && key in t.registers[item.registeredResponder.text].registerResources
    && (item.preferredBlockSize.Some? ==> ValidBlockSize(item.preferredBlockSize.value))
    && (item.unacknowledgeMessage.Some? ==>
          && item.unacknowledgeMessage.value in t.unacknowledgeMessages
          && t.unacknowledgeMessages[item.unacknowledgeMessage.value].registerResource == key)
  }

  ghost predicate Awaited(t: Tables, id: U16)
    requires id in t.unacknowledgeMessages
  {
    var item := t.unacknowledgeMessages[id];
    && item.registerResource in t.registerResources
    && t.registerResources[item.registerResource].unacknowledgeMessage == Some(id)
    && 1 <= item.tryTimes <= Spec.MAX_TRIES + 1
  }

  ghost predicate AllLinked(t: Tables) {
    forall key | key in t.registerResources :: Linked(t, key)
  }

  ghost predicate ResourcesListOnly(t: Tables) {
    forall path, key | path in t.resources && key in t.resources[path].registerResources ::
      key in t.registerResources && t.registerResources[key].resource == path
  }

  ghost predicate AddressesListOnly(t: Tables) {
    && (forall text | text in t.registers :: t.registers[text].registerResources != {})
    && (forall text, key | text in t.registers && key in t.registers[text].registerResources ::
          key in t.registerResources && t.registerResources[key].registeredResponder.text == text)
  }

  ghost predicate AllAwaited(t: Tables) {
    forall id | id in t.unacknowledgeMessages :: Awaited(t, id)
  }

  /** The tables agree: every registration is in exactly its resource's set and its address's set,
      those sets hold nothing else, no address set is empty, and pending ids and registrations point
      at each other. */
  ghost predicate Coherent(t: Tables) {
    AllLinked(t) && ResourcesListOnly(t) && AddressesListOnly(t) && AllAwaited(t)
  }

  // ---------------------------------------------------------------- meaning

  ghost function RegistrationOf(t: Tables, item: RegisterResourceItem): Spec.Registration
    requires item.unacknowledgeMessage.Some? ==> item.unacknowledgeMessage.value in t.unacknowledgeMessages
  {
    Spec.Registration(item.registeredResponder, item.token, item.preferredBlockSize,
      if item.unacknowledgeMessage.None? then None
      else Some(Spec.Pending(item.unacknowledgeMessage.value,
                             t.unacknowledgeMessages[item.unacknowledgeMessage.value].tryTimes)))
  }

  ghost predicate StandsFor(item: ResourceItem, versions: seq<Bytes>) {
    && versions != []
    && item.payload == versions[|versions| - 1]
    && item.sequence == (|versions| - 1) % 0x1_0000_0000
    && item.etag == EtagOf(item.payload)
  }

  ghost predicate RepresentsRegistration(t: Tables, s: Spec.State, key: string)
    requires key in t.registerResources
  {
    var item := t.registerResources[key];
    && (item.unacknowledgeMessage.Some? ==> item.unacknowledgeMessage.value in t.unacknowledgeMessages)
    && ObservationOf(item) in s.observers
    && s.observers[ObservationOf(item)] == RegistrationOf(t, item)
  }

  ghost predicate IsRegistered(t: Tables, o: Spec.Observation) {
    KeyOf(o) in t.registerResources && ObservationOf(t.registerResources[KeyOf(o)]) == o
  }

  ghost predicate HoldsObservers(t: Tables, s: Spec.State) {
    && (forall key | key in t.registerResources :: RepresentsRegistration(t, s, key))
    && (forall o | o in s.observers :: IsRegistered(t, o))
  }

  ghost predicate HoldsVersions(t: Tables, s: Spec.State) {
    && t.resources.Keys == s.versions.Keys
    && (forall path | path in t.resources :: StandsFor(t.resources[path], s.versions[path]))
  }

  /** The tables agree, and hold exactly the observers and the latest version of every path. */
  ghost predicate Models(t: Tables, s: Spec.State) {
    Coherent(t) && HoldsObservers(t, s) && HoldsVersions(t, s)
  }

  lemma HeldRegistration(t: Tables, s: Spec.State, o: Spec.Observation)
    requires Models(t, s) && o in s.observers
    ensures IsRegistered(t, o) && Linked(t, KeyOf(o)) && RepresentsRegistration(t, s, KeyOf(o))
    ensures Spec.Shows(s, o) && s.observers[o].responder.text == o.endpoint
    ensures s.observers[o].blockSize.Some? ==> ValidBlockSize(s.observers[o].blockSize.value)
    ensures s.observers[o].pending.Some? ==>
      var p := s.observers[o].pending.value;
      && 1 <= p.tries <= Spec.MAX_TRIES + 1
      && p.id in t.unacknowledgeMessages && t.unacknowledgeMessages[p.id].registerResource == KeyOf(o)
  {
    assert IsRegistered(t, o) && Linked(t, KeyOf(o)) && RepresentsRegistration(t, s, KeyOf(o));
    assert o.path in t.resources.Keys && StandsFor(t.resources[o.path], s.versions[o.path]);
    if s.observers[o].pending.Some? {
      assert Awaited(t, s.observers[o].pending.value.id);
    }
  }

  lemma ModelledIsWellFormed(t: Tables, s: Spec.State)
    requires Models(t, s)
    ensures Spec.WellFormed(s)
  {
    forall o | o in s.observers
      ensures Spec.Shows(s, o) && s.observers[o].responder.text == o.endpoint
      ensures s.observers[o].blockSize.Some? ==> ValidBlockSize(s.observers[o].blockSize.value)
      ensures s.observers[o].pending.Some? ==> 1 <= s.observers[o].pending.value.tries <= Spec.MAX_TRIES + 1
    {
      HeldRegistration(t, s, o);
    }
    forall path | path in s.versions ensures s.versions[path] != [] {
      assert path in t.resources.Keys && StandsFor(t.resources[path], s.versions[path]);
    }
    forall o, p, id | Spec.Owns(s, o, id) && Spec.Owns(s, p, id) ensures o == p {
      HeldRegistration(t, s, o);
      HeldRegistration(t, s, p);
    }
  }

  // Looking a key up is looking the observation up.
  lemma KeyLookup(t: Tables, s: Spec.State, o: Spec.Observation)
    requires Models(t, s) && Printed(o.endpoint)
    ensures KeyOf(o) in t.registerResources <==> o in s.observers
    ensures o in s.observers ==> IsRegistered(t, o) && RepresentsRegistration(t, s, KeyOf(o))
  {
    if KeyOf(o) in t.registerResources {
      assert Linked(t, KeyOf(o)) && RepresentsRegistration(t, s, KeyOf(o));
      var p := ObservationOf(t.registerResources[KeyOf(o)]);
      KeysAreInjective(o.endpoint, o.path, p.endpoint, p.path);
    }
    if o in s.observers {
      assert IsRegistered(t, o) && RepresentsRegistration(t, s, KeyOf(o));
    }
  }

  // Looking a pending id up is looking its owner up.
  lemma IdLookup(t: Tables, s: Spec.State, id: U16)
    requires Models(t, s)
    ensures id in t.unacknowledgeMessages ==>
      var key := t.unacknowledgeMessages[id].registerResource;
      key in t.registerResources && Spec.Owns(s, ObservationOf(t.registerResources[key]), id)
    ensures id !in t.unacknowledgeMessages ==> forall o :: !Spec.Owns(s, o, id)
  {
    if id in t.unacknowledgeMessages {
      assert Awaited(t, id);
      assert RepresentsRegistration(t, s, t.unacknowledgeMessages[id].registerResource);
    } else {
      forall o ensures !Spec.Owns(s, o, id) {
        if o in s.observers {
          assert IsRegistered(t, o) && Linked(t, KeyOf(o)) && RepresentsRegistration(t, s, KeyOf(o));
        }
      }
    }
  }

  // ---------------------------------------------------------------- elementary changes

  // The pending id of `key` is retired.
  function Cleared(t: Tables, key: string): Tables
    requires key in t.registerResources
  {
    var item := t.registerResources[key];
    if item.unacknowledgeMessage.None? then t
    else t.(registerResources := t.registerResources[key := item.(unacknowledgeMessage := None)],
            unacknowledgeMessages := t.unacknowledgeMessages - {item.unacknowledgeMessage.value})
  }

  // The id `id` is filed as pending for `key`.
  function Awaiting(t: Tables, key: string, id: U16): Tables
    requires key in t.registerResources
  {
    t.(registerResources := t.registerResources[key := t.registerResources[key].(unacknowledgeMessage := Some(id))],
       unacknowledgeMessages := t.unacknowledgeMessages[id := UnacknowledgeMessageItem(key, 1)])
  }

  // The pending id of `key` has been tried once more.
  function Retried(t: Tables, id: U16): Tables
    requires id in t.unacknowledgeMessages
  {
    var m := t.unacknowledgeMessages[id];
    t.(unacknowledgeMessages := t.unacknowledgeMessages[id := m.(tryTimes := m.tryTimes + 1)])
  }

  function Members(registers: map<string, RegisterItem>, text: string): set<string> {
    if text in registers then registers[text].registerResources else {}
  }

  // `item`, which awaits nothing, is filed under its key, its resource and its address.
  function Filed(t: Tables, item: RegisterResourceItem): Tables
    requires item.resource in t.resources
  {
    var key, text := KeyOf(ObservationOf(item)), item.registeredResponder.text;
    var resource := t.resources[item.resource];
    t.(registerResources := t.registerResources[key := item],
       resources := t.resources[item.resource := resource.(registerResources := resource.registerResources + {key})],
       registers := t.registers[text := RegisterItem(Members(t.registers, text) + {key})])
  }

  // `key`, which awaits nothing, is taken out everywhere, and its address when it was the last.
  function Unfiled(t: Tables, key: string): Tables
    requires key in t.registerResources
    requires t.registerResources[key].resource in t.resources
  {
    var item := t.registerResources[key];
    var text := item.registeredResponder.text;
    var resource := t.resources[item.resource];
    var rest := Members(t.registers, text) - {key};
    t.(registerResources := t.registerResources - {key},
       resources := t.resources[item.resource := resource.(registerResources := resource.registerResources - {key})],
       registers := if rest == {} then t.registers - {text} else t.registers[text := RegisterItem(rest)])
  }

  // The resource `path` has been set to `payload`.
  function Updated(t: Tables, path: string, payload: Bytes): Tables {
    var r := if path in t.resources then t.resources[path].(
                 payload := payload,
                 sequence := if t.resources[path].sequence == 0xFFFF_FFFF then 0 else t.resources[path].sequence + 1,
                 etag := EtagOf(payload))
             else ResourceItem(payload, {}, 0, EtagOf(payload));
    t.(resources := t.resources[path := r])
  }

  lemma ClearedLinks(t: Tables, key: string)
    requires AllLinked(t) && AllAwaited(t) && key in t.registerResources
    ensures AllLinked(Cleared(t, key))
  {
    hide KeyOf, ValidBlockSize, Printed;
    var u := Cleared(t, key);
    assert Linked(t, key);
    forall k | k in u.registerResources ensures Linked(u, k) {
      assert Linked(t, k);
    }
  }

  lemma ClearedAwaited(t: Tables, key: string)
    requires AllAwaited(t) && key in t.registerResources
    ensures AllAwaited(Cleared(t, key))
  {
    var u := Cleared(t, key);
    forall id | id in u.unacknowledgeMessages ensures Awaited(u, id) {
      assert Awaited(t, id);
    }
  }

  lemma ClearedIsCoherent(t: Tables, key: string)
    requires Coherent(t) && key in t.registerResources
    ensures Coherent(Cleared(t, key))
  {
    hide AllLinked, AllAwaited;
    ClearedLinks(t, key);
    ClearedAwaited(t, key);
  }

  // Registration `k` and what it awaits are the same in both tables.
  ghost predicate SameRegistration(t: Tables, u: Tables, k: string) {
    && k in t.registerResources && k in u.registerResources
    && u.registerResources[k] == t.registerResources[k]
    && var awaited := t.registerResources[k].unacknowledgeMessage;
       awaited.Some? && awaited.value in t.unacknowledgeMessages ==>
         && awaited.value in u.unacknowledgeMessages
         && u.unacknowledgeMessages[awaited.value] == t.unacknowledgeMessages[awaited.value]
  }

  // Changing the registration of one observation.
  lemma PointUpdate(t: Tables, s: Spec.State, u: Tables, v: Spec.State, o: Spec.Observation)
    requires HoldsObservers(t, s)
    requires IsRegistered(u, o) && RepresentsRegistration(u, v, KeyOf(o))
    requires Keyed(t) && forall k | k in u.registerResources && k != KeyOf(o) :: SameRegistration(t, u, k)
    requires forall k | k in t.registerResources :: k in u.registerResources
    requires KeyOf(o) in t.registerResources ==> IsRegistered(t, o)
    requires o in v.observers && v.observers == s.observers[o := v.observers[o]]
    ensures HoldsObservers(u, v)
  {
    forall k | k in u.registerResources ensures RepresentsRegistration(u, v, k) {
      if k != KeyOf(o) {
        assert SameRegistration(t, u, k) && RepresentsRegistration(t, s, k);
      }
    }
    forall p | p in v.observers ensures IsRegistered(u, p) {
      if p != o {
        assert IsRegistered(t, p);
        assert KeyOf(p) != KeyOf(o) && SameRegistration(t, u, KeyOf(p));
      }
    }
  }

  ghost predicate Keyed(t: Tables) {
    forall k | k in t.registerResources :: k == KeyOf(ObservationOf(t.registerResources[k]))
  }

  // Nobody but `key` awaits `id`.
  ghost predicate SoleWaiter(t: Tables, key: string, id: U16) {
    forall k | k in t.registerResources && k != key :: t.registerResources[k].unacknowledgeMessage != Some(id)
  }

  lemma CoherentIsKeyed(t: Tables)
    requires Coherent(t)
    ensures Keyed(t)
  {
    forall k | k in t.registerResources ensures k == KeyOf(ObservationOf(t.registerResources[k])) {
      assert Linked(t, k);
    }
  }

  lemma IdsHaveOneWaiter(t: Tables, key: string, id: U16)
    requires Coherent(t)
    requires id in t.unacknowledgeMessages ==> t.unacknowledgeMessages[id].registerResource == key
    ensures SoleWaiter(t, key, id)
  {
    forall k | k in t.registerResources && k != key ensures t.registerResources[k].unacknowledgeMessage != Some(id) {
      assert Linked(t, k);
    }
  }

  lemma ClearedObservers(t: Tables, s: Spec.State, key: string)
    requires HoldsObservers(t, s) && Keyed(t) && key in t.registerResources
    requires t.registerResources[key].unacknowledgeMessage.Some? ==>
               SoleWaiter(t, key, t.registerResources[key].unacknowledgeMessage.value)
    ensures ObservationOf(t.registerResources[key]) in s.observers
    ensures HoldsObservers(Cleared(t, key), Spec.Retired(s, ObservationOf(t.registerResources[key])))
  {
    assert RepresentsRegistration(t, s, key);
    var o := ObservationOf(t.registerResources[key]);
    var u, v := Cleared(t, key), Spec.Retired(s, o);
    assert RepresentsRegistration(u, v, key);
    PointUpdate(t, s, u, v, o);
  }

  lemma ClearedModels(t: Tables, s: Spec.State, key: string)
    requires Models(t, s) && key in t.registerResources
    ensures ObservationOf(t.registerResources[key]) in s.observers
    ensures Models(Cleared(t, key), Spec.Retired(s, ObservationOf(t.registerResources[key])))
  {
    CoherentIsKeyed(t);
    if t.registerResources[key].unacknowledgeMessage.Some? {
      assert Linked(t, key);
      IdsHaveOneWaiter(t, key, t.registerResources[key].unacknowledgeMessage.value);
    }
    ClearedIsCoherent(t, key);
    ClearedObservers(t, s, key);
  }

  lemma AwaitingLinks(t: Tables, key: string, id: U16)
    requires AllLinked(t) && key in t.registerResources && t.registerResources[key].unacknowledgeMessage.None?
    requires id !in t.unacknowledgeMessages
    ensures AllLinked(Awaiting(t, key, id))
  {
    var u := Awaiting(t, key, id);
    forall k | k in u.registerResources ensures Linked(u, k) {
      assert Linked(t, k);
    }
  }

  lemma AwaitingAwaited(t: Tables, key: string, id: U16)
    requires AllAwaited(t) && key in t.registerResources && t.registerResources[key].unacknowledgeMessage.None?
    ensures AllAwaited(Awaiting(t, key, id))
  {
    var u := Awaiting(t, key, id);
    forall i | i in u.unacknowledgeMessages ensures Awaited(u, i) {
      if i != id {
        assert Awaited(t, i);
      }
    }
  }

  // Whatever the registration awaited is retired, then it awaits `id`: what recording a sent notification does.
  function Recorded(t: Tables, key: string, id: U16): Tables
    requires key in t.registerResources
  {
    Awaiting(Cleared(t, key), key, id)
  }

  // The id is pending for another registration.
  ghost predicate Stale(t: Tables, key: string, id: U16) {
    id in t.unacknowledgeMessages && t.unacknowledgeMessages[id].registerResource != key
  }

  lemma ClearedIds(t: Tables, key: string, id: U16)
    requires Coherent(t) && key in t.registerResources
    ensures id in Cleared(t, key).unacknowledgeMessages <==> Stale(t, key, id)
    ensures Stale(t, key, id) ==> Cleared(t, key).unacknowledgeMessages[id] == t.unacknowledgeMessages[id]
  {
    hide ResourcesListOnly, AddressesListOnly;
    assert Linked(t, key);
    if id in t.unacknowledgeMessages {
      assert Awaited(t, id);
    }
  }

  /** Recording a notification keeps the tables in agreement exactly when its id is not still pending for another
      registration. Message ids are u16 and wrap, so a stale pending id is what could break the registry. */
  lemma RecordedIsCoherentIff(t: Tables, key: string, id: U16)
    requires Coherent(t) && key in t.registerResources
    ensures Coherent(Recorded(t, key, id)) <==> !Stale(t, key, id)
  {
    hide AllLinked, AllAwaited, ResourcesListOnly, AddressesListOnly, Linked, Awaited;
    ClearedIsCoherent(t, key);
    ClearedIds(t, key, id);
    AwaitingIsCoherentIff(Cleared(t, key), key, id);
  }

  /** What breaks: filing a stale id and then acknowledging it leaves its first owner pointing at an id that is
      gone, and the next look-up the source unwraps for that owner finds nothing. */
  lemma StaleIdBreaksUnwrap(t: Tables, key: string, id: U16)
    requires Coherent(t) && key in t.registerResources && Stale(t, key, id)
    ensures var owner := t.unacknowledgeMessages[id].registerResource;
      var u := Recorded(t, key, id);
      && u.registerResources[key].unacknowledgeMessage == Some(id)
      && var v := Cleared(u, key);
         && owner in v.registerResources && v.registerResources[owner].unacknowledgeMessage == Some(id)
         && id !in v.unacknowledgeMessages
  {
    hide ResourcesListOnly, AddressesListOnly, AllLinked;
    assert Awaited(t, id);
  }

  /** Filing an id under a registration that awaits nothing keeps the tables in agreement exactly when
      the id is not pending. */
  lemma AwaitingIsCoherentIff(t: Tables, key: string, id: U16)
    requires Coherent(t) && key in t.registerResources && t.registerResources[key].unacknowledgeMessage.None?
    ensures Coherent(Awaiting(t, key, id)) <==> id !in t.unacknowledgeMessages
  {
    if id in t.unacknowledgeMessages {
      hide ResourcesListOnly, AddressesListOnly, AllLinked;
      assert Awaited(t, id);
      StaleIdUnlinks(t, key, id);
    } else {
      hide AllLinked, AllAwaited;
      AwaitingLinks(t, key, id);
      AwaitingAwaited(t, key, id);
    }
  }

  lemma StaleIdUnlinks(t: Tables, key: string, id: U16)
    requires key in t.registerResources && t.registerResources[key].unacknowledgeMessage.None?
    requires id in t.unacknowledgeMessages && Awaited(t, id)
    ensures !AllLinked(Awaiting(t, key, id))
  {
    assert !Linked(Awaiting(t, key, id), t.unacknowledgeMessages[id].registerResource);
  }

  // `o` awaits `id`, tried `tries` times.
  ghost function Pended(s: Spec.State, o: Spec.Observation, id: U16, tries: nat): Spec.State
    requires o in s.observers
  {
    s.(observers := s.observers[o := s.observers[o].(pending := Some(Spec.Pending(id, tries)))])
  }

  lemma AwaitingObservers(t: Tables, s: Spec.State, key: string, id: U16)
    requires HoldsObservers(t, s) && Keyed(t) && key in t.registerResources && SoleWaiter(t, key, id)
    ensures ObservationOf(t.registerResources[key]) in s.observers
    ensures HoldsObservers(Awaiting(t, key, id), Pended(s, ObservationOf(t.registerResources[key]), id, 1))
  {
    assert RepresentsRegistration(t, s, key);
    var o := ObservationOf(t.registerResources[key]);
    var u, v := Awaiting(t, key, id), Pended(s, o, id, 1);
    assert RepresentsRegistration(u, v, key);
    PointUpdate(t, s, u, v, o);
  }

  lemma AwaitingModels(t: Tables, s: Spec.State, key: string, id: U16)
    requires Models(t, s) && key in t.registerResources && t.registerResources[key].unacknowledgeMessage.None?
    requires id !in t.unacknowledgeMessages
    ensures ObservationOf(t.registerResources[key]) in s.observers
    ensures Models(Awaiting(t, key, id), Pended(s, ObservationOf(t.registerResources[key]), id, 1))
  {
    CoherentIsKeyed(t);
    IdsHaveOneWaiter(t, key, id);
    AwaitingIsCoherentIff(t, key, id);
    AwaitingObservers(t, s, key, id);
  }

  lemma RecordedModels(t: Tables, s: Spec.State, key: string, id: U16)
    requires Models(t, s) && key in t.registerResources && !Stale(t, key, id)
    ensures ObservationOf(t.registerResources[key]) in s.observers
    ensures Models(Recorded(t, key, id), Pended(s, ObservationOf(t.registerResources[key]), id, 1))
  {
    hide Models, Coherent, Stale;
    ModelledLinks(t, s, key);
    ModelledIsCoherent(t, s);
    ClearedIds(t, key, id);
    ClearedModels(t, s, key);
    var o := ObservationOf(t.registerResources[key]);
    AwaitingModels(Cleared(t, key), Spec.Retired(s, o), key, id);
    assert Pended(Spec.Retired(s, o), o, id, 1) == Pended(s, o, id, 1);
  }

  lemma RetriedLinks(t: Tables, id: U16)
    requires AllLinked(t) && id in t.unacknowledgeMessages
    ensures AllLinked(Retried(t, id))
  {
    hide KeyOf, ValidBlockSize, Printed;
    var u := Retried(t, id);
    forall k | k in u.registerResources ensures Linked(u, k) {
      assert Linked(t, k);
    }
  }

  lemma RetriedAwaited(t: Tables, id: U16)
    requires AllAwaited(t) && id in t.unacknowledgeMessages && t.unacknowledgeMessages[id].tryTimes <= Spec.MAX_TRIES
    ensures AllAwaited(Retried(t, id))
  {
    var u := Retried(t, id);
    forall i | i in u.unacknowledgeMessages ensures Awaited(u, i) {
      assert Awaited(t, i);
    }
  }

  lemma RetriedIsCoherent(t: Tables, id: U16)
    requires Coherent(t) && id in t.unacknowledgeMessages
    requires t.unacknowledgeMessages[id].tryTimes <= Spec.MAX_TRIES
    ensures Coherent(Retried(t, id))
  {
    hide AllLinked, AllAwaited;
    RetriedLinks(t, id);
    RetriedAwaited(t, id);
  }

  lemma RetriedObservers(t: Tables, s: Spec.State, key: string, id: U16)
    requires HoldsObservers(t, s) && Keyed(t) && key in t.registerResources && SoleWaiter(t, key, id)
    requires id in t.unacknowledgeMessages && t.registerResources[key].unacknowledgeMessage == Some(id)
    ensures var o := ObservationOf(t.registerResources[key]);
      && o in s.observers
      && s.observers[o].pending == Some(Spec.Pending(id, t.unacknowledgeMessages[id].tryTimes))
      && HoldsObservers(Retried(t, id), Pended(s, o, id, t.unacknowledgeMessages[id].tryTimes + 1))
  {
    assert RepresentsRegistration(t, s, key);
    var o := ObservationOf(t.registerResources[key]);
    var u, v := Retried(t, id), Pended(s, o, id, t.unacknowledgeMessages[id].tryTimes + 1);
    assert RepresentsRegistration(u, v, key);
    PointUpdate(t, s, u, v, o);
  }

  lemma RetriedModels(t: Tables, s: Spec.State, key: string, id: U16)
    requires Models(t, s) && key in t.registerResources
    requires t.registerResources[key].unacknowledgeMessage == Some(id)
    ensures id in t.unacknowledgeMessages
    ensures var o := ObservationOf(t.registerResources[key]);
      && o in s.observers
      && s.observers[o].pending == Some(Spec.Pending(id, t.unacknowledgeMessages[id].tryTimes))
      && (t.unacknowledgeMessages[id].tryTimes <= Spec.MAX_TRIES ==>
            Models(Retried(t, id), Pended(s, o, id, t.unacknowledgeMessages[id].tryTimes + 1)))
  {
    CoherentIsKeyed(t);
    assert Linked(t, key);
    IdsHaveOneWaiter(t, key, id);
    if t.unacknowledgeMessages[id].tryTimes <= Spec.MAX_TRIES {
      RetriedIsCoherent(t, id);
    }
    RetriedObservers(t, s, key, id);
  }

  // The registration a new one replaces, if any, is the same observation's.
  lemma FiledReplaces(t: Tables, item: RegisterResourceItem)
    requires AllLinked(t) && Printed(item.registeredResponder.text)
    ensures var key := KeyOf(ObservationOf(item));
      key in t.registerResources ==>
        t.registerResources[key].resource == item.resource
        && t.registerResources[key].registeredResponder.text == item.registeredResponder.text
  {
    var key := KeyOf(ObservationOf(item));
    if key in t.registerResources {
      assert Linked(t, key);
      var p, q := ObservationOf(item), ObservationOf(t.registerResources[key]);
      KeysAreInjective(p.endpoint, p.path, q.endpoint, q.path);
    }
  }

  lemma FiledLinks(t: Tables, item: RegisterResourceItem)
    requires AllLinked(t) && item.resource in t.resources && Printed(item.registeredResponder.text)
    requires item.unacknowledgeMessage.None?
    requires item.preferredBlockSize.Some? ==> ValidBlockSize(item.preferredBlockSize.value)
    ensures AllLinked(Filed(t, item))
  {
    hide FormatRegisterResource, ValidBlockSize, Printed;
    var key := KeyOf(ObservationOf(item));
    var u := Filed(t, item);
    forall k | k in u.registerResources ensures Linked(u, k) {
      if k != key {
        assert Linked(t, k);
      }
    }
  }

  lemma FiledLists(t: Tables, item: RegisterResourceItem)
    requires AllLinked(t) && ResourcesListOnly(t) && item.resource in t.resources
        && Printed(item.registeredResponder.text)
    ensures ResourcesListOnly(Filed(t, item))
  {
    hide AllLinked, FormatRegisterResource;
    FiledReplaces(t, item);
  }

  lemma FiledAddresses(t: Tables, item: RegisterResourceItem)
    requires AllLinked(t) && AddressesListOnly(t) && item.resource in t.resources
        && Printed(item.registeredResponder.text)
    ensures AddressesListOnly(Filed(t, item))
  {
    hide AllLinked, FormatRegisterResource;
    FiledReplaces(t, item);
  }

  lemma FiledAwaited(t: Tables, item: RegisterResourceItem)
    requires AllAwaited(t) && item.resource in t.resources
    requires var key := KeyOf(ObservationOf(item));
      key in t.registerResources ==> t.registerResources[key].unacknowledgeMessage.None?
    ensures AllAwaited(Filed(t, item))
  {
    hide FormatRegisterResource;
    var u := Filed(t, item);
    forall id | id in u.unacknowledgeMessages ensures Awaited(u, id) {
      assert Awaited(t, id);
    }
  }

  lemma FiledIsCoherent(t: Tables, item: RegisterResourceItem)
    requires Coherent(t) && item.resource in t.resources && Printed(item.registeredResponder.text)
    requires item.unacknowledgeMessage.None?
    requires item.preferredBlockSize.Some? ==> ValidBlockSize(item.preferredBlockSize.value)
    requires var key := KeyOf(ObservationOf(item));
      key in t.registerResources ==> t.registerResources[key].unacknowledgeMessage.None?
    ensures Coherent(Filed(t, item))
  {
    hide AllLinked, ResourcesListOnly, AddressesListOnly, AllAwaited, Filed;
    FiledLinks(t, item);
    FiledLists(t, item);
    FiledAddresses(t, item);
    FiledAwaited(t, item);
  }

  // Nothing changed but which keys the resources list.
  lemma SameContents(t: Tables, s: Spec.State, u: Tables)
    requires HoldsVersions(t, s) && u.resources.Keys == t.resources.Keys
    requires forall path | path in t.resources ::
               u.resources[path].(registerResources := {}) == t.resources[path].(registerResources := {})
    ensures HoldsVersions(u, s)
  {
    forall path | path in u.resources ensures StandsFor(u.resources[path], s.versions[path]) {
      assert path in t.resources.Keys && StandsFor(t.resources[path], s.versions[path]);
    }
  }

  lemma FiledObservers(t: Tables, s: Spec.State, item: RegisterResourceItem)
    requires HoldsObservers(t, s) && Keyed(t) && item.resource in t.resources && item.unacknowledgeMessage.None?
    requires KeyOf(ObservationOf(item)) in t.registerResources ==> IsRegistered(t, ObservationOf(item))
    ensures HoldsObservers(Filed(t, item), s.(observers := s.observers[ObservationOf(item) := RegistrationOf(t, item)]))
  {
    var o := ObservationOf(item);
    var u, v := Filed(t, item), s.(observers := s.observers[o := RegistrationOf(t, item)]);
    assert RepresentsRegistration(u, v, KeyOf(o));
    PointUpdate(t, s, u, v, o);
  }

  lemma FiledVersions(t: Tables, s: Spec.State, item: RegisterResourceItem)
    requires HoldsVersions(t, s) && item.resource in t.resources
    ensures HoldsVersions(Filed(t, item), s)
  {
    SameContents(t, s, Filed(t, item));
  }

  lemma FiledModels(t: Tables, s: Spec.State, item: RegisterResourceItem)
    requires Models(t, s) && item.resource in t.resources && Printed(item.registeredResponder.text)
    requires item.unacknowledgeMessage.None?
    requires item.preferredBlockSize.Some? ==> ValidBlockSize(item.preferredBlockSize.value)
    requires var key := KeyOf(ObservationOf(item));
      key in t.registerResources ==> t.registerResources[key].unacknowledgeMessage.None?
    ensures Models(Filed(t, item), s.(observers := s.observers[ObservationOf(item) := RegistrationOf(t, item)]))
  {
    CoherentIsKeyed(t);
    KeyLookup(t, s, ObservationOf(item));
    FiledIsCoherent(t, item);
    FiledObservers(t, s, item);
    FiledVersions(t, s, item);
  }

  // A key that is filed where it belongs, and awaits nothing.
  ghost predicate Idle(t: Tables, key: string) {
    key in t.registerResources && Linked(t, key) && t.registerResources[key].unacknowledgeMessage.None?
  }

  lemma UnfiledLinks(t: Tables, key: string)
    requires AllLinked(t) && Idle(t, key)
    ensures AllLinked(Unfiled(t, key))
  {
    hide FormatRegisterResource, ValidBlockSize, Printed;
    var u := Unfiled(t, key);
    forall k | k in u.registerResources ensures Linked(u, k) {
      assert Linked(t, k) && k != key;
      assert k in t.registers[t.registerResources[k].registeredResponder.text].registerResources - {key};
    }
  }

  lemma UnfiledLists(t: Tables, key: string)
    requires ResourcesListOnly(t) && Idle(t, key)
    ensures ResourcesListOnly(Unfiled(t, key))
  {
  }

  lemma UnfiledAddresses(t: Tables, key: string)
    requires AddressesListOnly(t) && Idle(t, key)
    ensures AddressesListOnly(Unfiled(t, key))
  {
  }

  lemma UnfiledAwaited(t: Tables, key: string)
    requires AllAwaited(t) && Idle(t, key)
    ensures AllAwaited(Unfiled(t, key))
  {
    var u := Unfiled(t, key);
    forall id | id in u.unacknowledgeMessages ensures Awaited(u, id) {
      assert Awaited(t, id);
    }
  }

  lemma UnfiledIsCoherent(t: Tables, key: string)
    requires Coherent(t) && key in t.registerResources && t.registerResources[key].unacknowledgeMessage.None?
    ensures t.registerResources[key].resource in t.resources
    ensures Coherent(Unfiled(t, key))
  {
    assert Idle(t, key);
    hide AllLinked, ResourcesListOnly, AddressesListOnly, AllAwaited, Unfiled;
    UnfiledLinks(t, key);
    UnfiledLists(t, key);
    UnfiledAddresses(t, key);
    UnfiledAwaited(t, key);
  }

  lemma UnfiledVersions(t: Tables, s: Spec.State, key: string)
    requires HoldsVersions(t, s) && key in t.registerResources && t.registerResources[key].resource in t.resources
    ensures HoldsVersions(Unfiled(t, key), s)
  {
    SameContents(t, s, Unfiled(t, key));
  }

  lemma UnfiledModels(t: Tables, s: Spec.State, key: string)
    requires Models(t, s) && key in t.registerResources && t.registerResources[key].unacknowledgeMessage.None?
    ensures t.registerResources[key].resource in t.resources
    ensures Models(Unfiled(t, key), Spec.Removed(s, ObservationOf(t.registerResources[key])))
  {
    hide Coherent, HoldsVersions;
    ModelledLinks(t, s, key);
    CoherentIsKeyed(t);
    var o := ObservationOf(t.registerResources[key]);
    UnfiledIsCoherent(t, key);
    UnfiledVersions(t, s, key);
    SameVersions(Unfiled(t, key), s, Spec.Removed(s, o));
    PointRemoval(t, s, Unfiled(t, key), Spec.Removed(s, o), o);
  }

  lemma SameVersions(t: Tables, s: Spec.State, v: Spec.State)
    requires HoldsVersions(t, s) && v.versions == s.versions
    ensures HoldsVersions(t, v)
  {
  }

  lemma PointRemoval(t: Tables, s: Spec.State, u: Tables, v: Spec.State, o: Spec.Observation)
    requires HoldsObservers(t, s)
    requires Keyed(t) && IsRegistered(t, o) && u.registerResources == t.registerResources - {KeyOf(o)}
    requires u.unacknowledgeMessages == t.unacknowledgeMessages && v.observers == s.observers - {o}
    ensures HoldsObservers(u, v)
  {
    forall k | k in u.registerResources ensures RepresentsRegistration(u, v, k) {
      assert RepresentsRegistration(t, s, k);
    }
    forall p | p in v.observers ensures IsRegistered(u, p) {
      assert IsRegistered(t, p);
    }
  }

  lemma NextSequence(count: nat)
    requires count > 0
    ensures count % 0x1_0000_0000
         == if (count - 1) % 0x1_0000_0000 == 0xFFFF_FFFF then 0 else (count - 1) % 0x1_0000_0000 + 1
  {
  }

  lemma UpdatedVersions(t: Tables, s: Spec.State, path: string, payload: Bytes)
    requires HoldsVersions(t, s)
    ensures HoldsVersions(Updated(t, path, payload), Spec.RecordVersion(s, path, payload))
  {
    var u, v := Updated(t, path, payload), Spec.RecordVersion(s, path, payload);
    assert path in t.resources.Keys <==> path in s.versions.Keys;
    forall q | q in u.resources ensures q in v.versions && StandsFor(u.resources[q], v.versions[q]) {
      if q in t.resources {
        assert q in t.resources.Keys && StandsFor(t.resources[q], s.versions[q]);
        NextSequence(|s.versions[q]|);
      }
    }
    assert u.resources.Keys == v.versions.Keys;
  }

  lemma UpdatedIsCoherent(t: Tables, path: string, payload: Bytes)
    requires Coherent(t)
    ensures Coherent(Updated(t, path, payload))
  {
    var u := Updated(t, path, payload);
    forall k | k in u.registerResources ensures Linked(u, k) {
      assert Linked(t, k);
    }
    forall id | id in u.unacknowledgeMessages ensures Awaited(u, id) {
      assert Awaited(t, id);
    }
  }

  lemma UpdatedModels(t: Tables, s: Spec.State, path: string, payload: Bytes)
    requires Models(t, s)
    ensures Models(Updated(t, path, payload), Spec.RecordVersion(s, path, payload))
  {
    UpdatedIsCoherent(t, path, payload);
    UpdatedVersions(t, s, path, payload);
    SameObservers(t, s, Updated(t, path, payload), Spec.RecordVersion(s, path, payload));
  }

  lemma SameObservers(t: Tables, s: Spec.State, u: Tables, v: Spec.State)
    requires HoldsObservers(t, s) && v.observers == s.observers
    requires u.registerResources == t.registerResources && u.unacknowledgeMessages == t.unacknowledgeMessages
    ensures HoldsObservers(u, v)
  {
    forall k | k in u.registerResources ensures RepresentsRegistration(u, v, k) {
      assert RepresentsRegistration(t, s, k);
    }
    forall p | p in v.observers ensures IsRegistered(u, p) {
      assert IsRegistered(t, p);
    }
  }

  lemma ModelledLinks(t: Tables, s: Spec.State, key: string)
    requires Models(t, s) && key in t.registerResources
    ensures Linked(t, key) && RepresentsRegistration(t, s, key)
        && IsRegistered(t, ObservationOf(t.registerResources[key]))
  {
  }

  lemma ModelledIsCoherent(t: Tables, s: Spec.State)
    requires Models(t, s)
    ensures Coherent(t)
  {
  }

  lemma ModelledVersions(t: Tables, s: Spec.State, path: string)
    requires Models(t, s)
    ensures path in t.resources <==> path in s.versions
    ensures path in t.resources ==> StandsFor(t.resources[path], s.versions[path])
  {
    assert path in t.resources.Keys <==> path in s.versions.Keys;
  }

  // The log and the counter are not in the tables.
  lemma LogIsIrrelevant(t: Tables, s: Spec.State, v: Spec.State)
    requires Models(t, s) && v.observers == s.observers && v.versions == s.versions
    ensures Models(t, v)
  {
    SameObservers(t, s, t, v);
  }

  // Refiling a registration: whatever it awaited is retired, then the new one takes its place.
  function Refiled(t: Tables, item: RegisterResourceItem): Tables
    requires item.resource in t.resources
  {
    var key := KeyOf(ObservationOf(item));
    Filed(if key in t.registerResources then Cleared(t, key) else t, item)
  }

  // What refiling comes to, table by table.
  lemma RefiledParts(t: Tables, item: RegisterResourceItem)
    requires item.resource in t.resources
    ensures var (u, key) := (Refiled(t, item), KeyOf(ObservationOf(item)));
      var (text, path) := (item.registeredResponder.text, item.resource);
      && u.registerResources == t.registerResources[key := item]
      && u.unacknowledgeMessages
         == (if key in t.registerResources && t.registerResources[key].unacknowledgeMessage.Some?
             then t.unacknowledgeMessages - {t.registerResources[key].unacknowledgeMessage.value}
             else t.unacknowledgeMessages)
      && u.resources
         == t.resources[path := t.resources[path].(registerResources := t.resources[path].registerResources + {key})]
      && u.registers == t.registers[text := RegisterItem(Members(t.registers, text) + {key})]
  {
  }

  lemma RefiledModels(t: Tables, s: Spec.State, item: RegisterResourceItem)
    requires Models(t, s) && item.resource in t.resources && Printed(item.registeredResponder.text)
    requires item.unacknowledgeMessage.None?
    requires item.preferredBlockSize.Some? ==> ValidBlockSize(item.preferredBlockSize.value)
    ensures Models(Refiled(t, item), s.(observers := s.observers[ObservationOf(item) := RegistrationOf(t, item)]))
  {
    hide Models;
    var o, key := ObservationOf(item), KeyOf(ObservationOf(item));
    KeyLookup(t, s, o);
    if key in t.registerResources {
      var u, v := Cleared(t, key), Spec.Retired(s, o);
      ClearedModels(t, s, key);
      FiledModels(u, v, item);
      assert v.observers[o := RegistrationOf(t, item)] == s.observers[o := RegistrationOf(t, item)];
    } else {
      FiledModels(t, s, item);
    }
  }

  function Discarded(t: Tables, key: string): Tables
    requires key in t.registerResources && t.registerResources[key].resource in t.resources
  {
    Unfiled(Cleared(t, key), key)
  }

  // What discarding a registration comes to, table by table.
  lemma DiscardedParts(t: Tables, key: string)
    requires key in t.registerResources && t.registerResources[key].resource in t.resources
    ensures var (u, item) := (Discarded(t, key), t.registerResources[key]);
      var (text, path) := (item.registeredResponder.text, item.resource);
      && u.registerResources == t.registerResources - {key}
      && u.unacknowledgeMessages
         == (if item.unacknowledgeMessage.None? then t.unacknowledgeMessages
             else t.unacknowledgeMessages - {item.unacknowledgeMessage.value})
      && u.resources
         == t.resources[path := t.resources[path].(registerResources := t.resources[path].registerResources - {key})]
      && u.registers
         == (if Members(t.registers, text) - {key} == {} then t.registers - {text}
             else t.registers[text := RegisterItem(Members(t.registers, text) - {key})])
  {
    assert (t.registerResources[key := t.registerResources[key].(unacknowledgeMessage := None)]) - {key}
        == t.registerResources - {key};
  }

  lemma DiscardedModels(t: Tables, s: Spec.State, key: string)
    requires Models(t, s) && key in t.registerResources
    ensures t.registerResources[key].resource in t.resources
    ensures Models(Discarded(t, key), Spec.Removed(s, ObservationOf(t.registerResources[key])))
  {
    hide Models;
    ModelledLinks(t, s, key);
    var o := ObservationOf(t.registerResources[key]);
    ClearedModels(t, s, key);
    UnfiledModels(Cleared(t, key), Spec.Retired(s, o), key);
    assert Spec.Removed(Spec.Retired(s, o), o) == Spec.Removed(s, o);
  }
}
