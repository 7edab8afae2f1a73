/** The server's state of src/server.rs: the Observe registry behind the block handler, and the rule by
    which the later blocks of an observed resource are served from the registry. */
module Server {
  import opened Coap
  import opened Etag
  import opened BlockLaws
  import opened ObserverRegistry
  import Spec = ObserveSpec
  import Laws = ObserveLaws

  /** coap-lite's BlockHandler on the way out: what it makes of a response, given the request's Block2. */
  type Slicer = (BlockOption, Message) -> Message

  /** What is assumed of it: a fetch within the payload is answered with that block of it, at the size
      asked for, and the ETag is left alone. */
  ghost predicate CutsAsAsked(slice: Slicer) {
    forall b: BlockValue, m: Message ::
      && slice(Block(b), m).etag == m.etag
      && (SizeOf(b.exponent) * b.num < |m.payload| ==> IsBlockOf(slice(Block(b), m), m.payload, b.exponent, b.num))
  }

  // A request for a later block by a client that observes the resource.
  ghost predicate FetchesForObserver(request: Request, s: Spec.State) {
    && !request.block2.Absent? && request.observe.NoObserve? && request.source.Some?
    && Spec.Observation(request.source.value.text, request.path) in s.observers
  }

  // A response that shows the latest version of the resource.
  ghost function ShowingLatest(response: Message, s: Spec.State, path: string): Message
    requires path in s.versions && s.versions[path] != []
  {
    var latest := Spec.Latest(s, path);
    response.(payload := latest, etag := Some(EtagOf(latest)), size2 := Some(EncodeCoapUint(|latest|)))
  }

  lemma ShowingLatestAnswers(slice: Slicer, response: Message, s: Spec.State, path: string, asked: BlockValue)
    requires CutsAsAsked(slice) && path in s.versions && s.versions[path] != []
    ensures Answers(Ok(slice(Block(asked), ShowingLatest(response, s, path))), asked, s.versions[path])
  {
    var m := ShowingLatest(response, s, path);
    var v := |s.versions[path]| - 1;
    assert s.versions[path][v] == m.payload && slice(Block(asked), m).etag == Some(EtagOf(s.versions[path][v]));
  }

  /** What the block handler is given to cut: the application's response with the latest payload for its own, under
      that payload's ETag and with a Size2 that reads as its length, up to 2^32 - 1. */
  lemma ShowingLatestIs(response: Message, s: Spec.State, path: string)
    requires path in s.versions && s.versions[path] != []
    ensures var m, latest := ShowingLatest(response, s, path), s.versions[path][|s.versions[path]| - 1];
      && m.payload == latest && m.etag == Some(EtagOf(latest))
      && m.size2.Some? && |m.size2.value| <= 4
      && DecodeCoapUint(m.size2.value) == (if |latest| < 0x1_0000_0000 then |latest| else 0xFFFF_FFFF)
      && m.(payload := response.payload, etag := response.etag, size2 := response.size2) == response
  {
    CoapUintRoundTrip(|s.versions[path][|s.versions[path]| - 1]|);
  }

  /** Which requests are served so: once a client is registered for a path, exactly its requests for that path with a
      Block2 option and no Observe option; and none any more once it has deregistered. */
  lemma RegisteringServesFetches(s: Spec.State, responder: SocketAddr, path: string, token: Bytes,
                                 preferred: Option<nat>, reply: Option<Spec.ReplyTemplate>, fetch: Request)
    requires Spec.WellFormed(s) && path in s.versions && (preferred.Some? ==> ValidBlockSize(preferred.value))
    requires fetch.source == Some(responder) && fetch.path == path
    ensures var t := Spec.Step(s, Spec.RegisterRequest(responder, path, token, preferred, reply));
      && Spec.WellFormed(t)
      && (FetchesForObserver(fetch, t) <==> fetch.block2 != Absent && fetch.observe == NoObserve)
      && !FetchesForObserver(fetch, Spec.Step(t, Spec.DeregisterRequest(responder, path, token)))
  {
    Laws.StepKeepsWellFormed(s, Spec.RegisterRequest(responder, path, token, preferred, reply));
  }

  lemma ShowingLatestContinues(slice: Slicer, response: Message, s: Spec.State, path: string, asked: BlockValue)
    requires CutsAsAsked(slice) && path in s.versions && s.versions[path] != []
    requires SizeOf(asked.exponent) * asked.num < |Spec.Latest(s, path)|
    ensures var latest := Spec.Latest(s, path);
      Continues(Ok(slice(Block(asked), ShowingLatest(response, s, path))), latest, asked.exponent, asked.num,
          Some(EtagOf(latest)))
  {
    var m := ShowingLatest(response, s, path);
    assert slice(Block(asked), m).etag == m.etag;
  }

  class ServerCoapState {
    const observer: Observer
    // Whether observing is left to the application's handler.
    var disableObserve: bool

    constructor (disableObserve: bool)
      ensures fresh(observer) && observer.Valid() && observer.spec == Spec.Initial
      ensures this.disableObserve == disableObserve
    {
      observer := new Observer();
      this.disableObserve := disableObserve;
    }

    /** A received request. `handled` is what the block handler says of it first: an error or Ok(true)
        ends it there. The registry takes one step, or none when it is bypassed. */
    method InterceptRequest(request: Request, responder: SocketAddr, handled: IoResult<bool>)
      returns (forward: bool, left: Option<Spec.ReplyTemplate>, ghost event: Option<Spec.Event>)
      requires observer.Valid() && Printed(responder.text)
      requires request.source.Some? ==> Printed(request.source.value.text)
      requires handled == Ok(false) && !disableObserve ==>
        && (Deregisters(request) ==> request.source.Some?)
        && (Puts(request) ==> observer.IdsAvailable(request.path))
      modifies observer
      ensures observer.Valid()
      ensures event.None? <==> handled != Ok(false) || disableObserve
      ensures event.None? ==> observer.spec == old(observer.spec) && (forward <==> handled == Ok(false))
      ensures event.Some? ==>
        && Spec.WellFormed(old(observer.spec)) && Spec.Enabled(old(observer.spec), event.value)
        && observer.spec == Spec.Step(old(observer.spec), event.value)
        && IsEventOf(event.value, request, responder)
        && (forward <==> !event.value.AckMessage? && !event.value.ResetMessage? && !event.value.RegisterRequest?)
    {
      left, event := request.response, None;
      if handled != Ok(false) {
        return false, left, None;
      }
      if disableObserve {
        return true, left, None;
      }
      ghost var e;
      forward, left, e := observer.RequestHandler(request, responder);
      event := Some(e);
    }

    /** The application's response on its way out. An observer's fetch is answered from the registry: the
        answer is a block of a recorded version, under that version's ETag; of the latest, if the block is in it. */
    method InterceptResponse(request: Request, response: Option<Message>, slice: Slicer) returns (r: Option<Message>)
      requires observer.Valid()
      requires request.source.Some? ==> Printed(request.source.value.text)
      requires CutsAsAsked(slice)
      ensures response.None? ==> r.None?
      ensures response.Some? && !FetchesForObserver(request, observer.spec) ==>
        r == Some(slice(request.block2, response.value))
      ensures response.Some? && FetchesForObserver(request, observer.spec) ==>
        && request.path in observer.spec.versions && observer.spec.versions[request.path] != []
        && r == Some(slice(request.block2, ShowingLatest(response.value, observer.spec, request.path)))
        && (request.block2.Block? ==>
              Answers(Ok(r.value), request.block2.value, observer.spec.versions[request.path]))
        && (request.block2.Block? ==>
              var asked, latest := request.block2.value, Spec.Latest(observer.spec, request.path);
              SizeOf(asked.exponent) * asked.num < |latest| ==>
                Continues(Ok(r.value), latest, asked.exponent, asked.num, Some(EtagOf(latest))))
    {
      r := response;
      var isBlockFetchForObserver := false;
      if !request.block2.Absent? && request.observe.NoObserve? && request.source.Some? {
        isBlockFetchForObserver := observer.IsObserving(request.source.value, request.path);
      }
      if isBlockFetchForObserver {
        observer.ObservedIsRecorded(request.source.value.text, request.path);
        var resource := observer.GetResourcePayloadAndEtag(request.path);
        if resource.Some? && r.Some? {
          var (payload, etag) := resource.value;
          r := Some(r.value.(payload := payload));
          r := Some(r.value.(etag := Some(etag)));
          r := Some(r.value.(size2 := Some(EncodeCoapUint(|payload|))));
          if request.block2.Block? {
            ShowingLatestAnswers(slice, response.value, observer.spec, request.path, request.block2.value);
            var asked := request.block2.value;
            if SizeOf(asked.exponent) * asked.num < |payload| {
              ShowingLatestContinues(slice, response.value, observer.spec, request.path, asked);
            }
          }
        }
      }
      if r.Some? {
        r := Some(slice(request.block2, r.value));
      }
    }
  }
}
