/** The block-wise client of src/client.rs: requests, transfer state and the client itself are updated
    in place, and every loop is proved to compute the values of BlockSpec. */
module Client {
  import opened Coap
  import opened BlockSpec

  /** A request under way; `response` is the last one received for it. */
  class CoapRequest {
    var id: U16
    var token: Bytes
    var observe: bool
    var block1: BlockOption
    var block2: BlockOption
    var payload: Bytes
    var response: Option<Message>

    constructor (token: Bytes, payload: Bytes)
      ensures this.token == token && this.payload == payload && response.None?
      ensures id == 0 && !observe && block1.Absent? && block2.Absent?
    {
      this.token, this.payload, response := token, payload, None;
      id, observe, block1, block2 := 0, false, Absent, Absent;
    }

    function Snapshot(): Outgoing
      reads this
    {
      Outgoing(id, token, observe, block1, block2, payload)
    }
  }

  // A request as it leaves the client.
  datatype Outgoing = Outgoing(id: U16, token: Bytes, observe: bool, block1: BlockOption, block2: BlockOption,
      payload: Bytes)

  class BlockState {
    var cachedPayload: Option<Bytes>
    var expectedBlockNum: Option<U16>

    constructor ()
      ensures Progress() == Fresh
    {
      cachedPayload, expectedBlockNum := None, None;
    }

    function Progress(): Progress
      reads this
    {
      BlockSpec.Progress(cachedPayload, expectedBlockNum)
    }
  }

  /** Handles the response a request holds: Ok(true) when another block has to be fetched, for which the
      request is then prepared; Ok(false) when the response is complete. */
  method HandleBlockwise(request: CoapRequest, state: BlockState) returns (r: IoResult<bool>)
    requires request.response.Some?
    modifies request`block1, request`block2, request`response, state
    ensures match HandleBlock(old(request.response.value), old(state.Progress()))
      case Failed => r.Err?
      case Complete(full) =>
        r == Ok(false) && request.response == Some(full)
        && request.block1 == old(request.block1) && request.block2 == old(request.block2)
      case More(p, next) =>
        r == Ok(true) && state.Progress() == p
        && request.block1.Absent? && request.block2 == Block(next) && request.response == old(request.response)
  {
    hide ExtendingSplice, SizeOf, Offset;
    var packet := request.response.value;
    ghost var handled := HandleBlock(packet, state.Progress());
    if packet.block2.Block? {
      var block2 := packet.block2.value;
      if state.expectedBlockNum.Some? && block2.num != state.expectedBlockNum.value {
        return Err(OtherKind);
      }
      if state.cachedPayload.None? {
        state.cachedPayload := Some([]);
      }
      var payloadOffset := Offset(block2);
      var spliced := ExtendingSplice(state.cachedPayload.value, payloadOffset, payloadOffset + block2.Size(),
                                     packet.payload, MAX_EXTENSION);
      if spliced.None? {
        return Err(OtherKind);
      }
      state.cachedPayload := spliced;
      if block2.more {
        var nextNum := Successor(block2.num);
        state.expectedBlockNum := Some(nextNum);
        request.block1 := Absent;
        request.block2 := Absent;
        var nextBlock2 := block2;
        nextBlock2 := nextBlock2.(num := nextNum);
        nextBlock2 := nextBlock2.(more := false);
        request.block2 := Block(nextBlock2);
        return Ok(true);
      } else {
        var cachedPayload := state.cachedPayload.value;
        state.cachedPayload := None;
        request.response := Some(packet.(payload := cachedPayload));
      }
    }
    r := Ok(false);
  }

  /** The requests of a transfer: one for each block asked for, under consecutive message ids from `first` on,
      otherwise as `template`. */
  ghost predicate AsksFor(sent: seq<Outgoing>, asked: seq<BlockValue>, template: Outgoing, first: U16) {
    && |sent| == |asked|
    && forall i | 0 <= i < |sent| :: sent[i] == Asking(template, first, i, asked[i])
  }

  function Asking(template: Outgoing, first: U16, i: nat, block: BlockValue): Outgoing {
    template.(id := IdAfter(first, i), block1 := Absent, block2 := Block(block))
  }

  /** The requests of an upload: chunk after chunk as it goes on the wire, under consecutive message ids from
      `first` on, otherwise as `template`. */
  ghost predicate Uploads(sent: seq<Outgoing>, payload: Bytes, size: nat, template: Outgoing, first: U16)
    requires size > 0
  {
    && |sent| <= 0x1_0000
    && forall j | 0 <= j < |sent| :: sent[j] == Uploading(payload, size, template, first, j)
  }

  function Uploading(payload: Bytes, size: nat, template: Outgoing, first: U16, j: U16): Outgoing
    requires size > 0
  {
    var chunk := OnTheWire(payload, size, j);
    template.(id := IdAfter(first, j), block1 := Block(chunk.block1), payload := chunk.payload)
  }

  lemma NothingAsked(template: Outgoing, first: U16)
    ensures AsksFor([], [], template, first) && IdAfter(first, 0) == first
  {
  }

  lemma NothingUploaded(payload: Bytes, size: nat, template: Outgoing, first: U16)
    requires size > 0
    ensures Uploads([], payload, size, template, first)
  {
  }

  lemma AsksForMore(sent: seq<Outgoing>, asked: seq<BlockValue>, template: Outgoing, first: U16, block: BlockValue)
    requires AsksFor(sent, asked, template, first)
    ensures AsksFor(sent + [Asking(template, first, |sent|, block)], asked + [block], template, first)
    ensures IdAfter(first, |sent| + 1) == Successor(IdAfter(first, |sent|))
  {
    hide Asking;
  }

  lemma BlockDeclared(payload: Bytes, size: nat, num: nat)
    requires 0 < size && NewBlockValue(num, num + 1 < ChunkCount(|payload|, size), size).Some?
    ensures num < 0x1_0000
    ensures NewBlockValue(num, num + 1 < ChunkCount(|payload|, size), size).value
        == OnTheWire(payload, size, num).block1
  {
  }

  lemma UploadsMore(sent: seq<Outgoing>, payload: Bytes, size: nat, template: Outgoing, first: U16)
    requires size > 0 && Uploads(sent, payload, size, template, first) && |sent| < 0x1_0000
    ensures Uploads(sent + [Uploading(payload, size, template, first, |sent|)], payload, size, template, first)
  {
    hide Uploading;
  }

  // A transfer that has already asked for some blocks.
  function HavingAsked(asked: seq<BlockValue>, rest: (IoResult<Message>, seq<BlockValue>))
    : (IoResult<Message>, seq<BlockValue>)
  {
    (rest.0, asked + rest.1)
  }

  lemma StartsAt(whole: (IoResult<Message>, seq<BlockValue>))
    ensures HavingAsked([], whole) == whole
  {
    assert [] + whole.1 == whole.1;
  }

  lemma TransferGoesOn(asked: seq<BlockValue>, m: Message, p: Progress, etag: Option<Bytes>,
                       replies: seq<IoResult<Message>>)
    ensures var whole := HavingAsked(asked, Transfer(m, p, etag, replies));
      if etag.Some? && m.etag != etag then whole == (Err(InvalidData), asked)
      else match HandleBlock(m, p)
        case Failed => whole == (Err(Interrupted), asked)
        case Complete(full) => whole == (Ok(full), asked)
        case More(q, next) =>
          if replies == [] then whole == (Err(TimedOut), asked + [next])
          else if replies[0].Err? then whole == (Err(replies[0].error), asked + [next])
          else whole == HavingAsked(asked + [next], Transfer(replies[0].value, q, etag, replies[1..]))
  {
    hide HandleBlock, Transfer;
    TransferOnce(m, p, etag, replies);
    assert asked + [] == asked;
    match HandleBlock(m, p)
    case More(q, next) =>
      if replies != [] && replies[0].Ok? {
        var rest := Transfer(replies[0].value, q, etag, replies[1..]).1;
        assert asked + ([next] + rest) == asked + [next] + rest;
      }
    case _ =>
  }

  /** The checks on the response to one chunk, in the order they are made. */
  method CheckAck(resp: Message, block: BlockValue) returns (verdict: Verdict)
    ensures verdict == JudgeAck(resp, block)
  {
    if resp.block1.Absent? {
      return Stop(Err(Unsupported));
    }
    if resp.block1.Malformed? {
      return Stop(Err(InvalidData));
    }
    var block1Resp := resp.block1.value;
    if block1Resp.num != block.num {
      return Stop(Err(InvalidData));
    }
    var isContinue := resp.status.Continue?;
    if block.more {
      if block1Resp.exponent != block.exponent {
        return Stop(Err(Unsupported));
      }
      if !isContinue {
        return Stop(Ok(resp));
      }
      verdict := Proceed;
    } else if isContinue {
      verdict := Stop(Err(InvalidData));
    } else {
      verdict := Stop(Ok(resp));
    }
  }

  /** A client over a scripted network: `incoming` holds what each further exchange will yield, and an
      exchange beyond it times out. */
  class CoAPClient {
    const block1Size: nat
    var messageId: U16
    var sent: seq<Outgoing>
    var incoming: seq<IoResult<Message>>

    constructor (block1Size: nat, messageId: U16, incoming: seq<IoResult<Message>>)
      ensures this.block1Size == block1Size && this.messageId == messageId
      ensures sent == [] && this.incoming == incoming
    {
      this.block1Size, this.messageId, this.incoming := block1Size, messageId, incoming;
      sent := [];
    }

    method GenMessageId() returns (id: U16)
      modifies this`messageId
      ensures id == old(messageId) && messageId == Successor(id)
    {
      id := messageId;
      messageId := Successor(id);
    }

    // One request and its outcome.
    method SendSingleRequest(request: CoapRequest) returns (r: IoResult<Message>)
      modifies this`sent, this`incoming
      ensures sent == old(sent) + [request.Snapshot()]
      ensures if old(incoming) == [] then r == Err(TimedOut) && incoming == []
              else r == old(incoming)[0] && incoming == old(incoming)[1..]
    {
      sent := sent + [request.Snapshot()];
      if incoming == [] {
        r := Err(TimedOut);
      } else {
        r := incoming[0];
        incoming := incoming[1..];
      }
    }

    /** Fetches the remaining blocks; with an expected ETag every response has to carry it. */
    method ReceiveWithEtagValidation(request: CoapRequest, expectedEtag: Option<Bytes>) returns (r: IoResult<Message>)
      requires request.response.Some?
      modifies this`messageId, this`sent, this`incoming, request`id, request`block1, request`block2, request`response
      ensures r == old(Transfer(request.response.value, Fresh, expectedEtag, incoming)).0
      ensures |sent| >= |old(sent)| && sent[..|old(sent)|] == old(sent)
      ensures AsksFor(sent[|old(sent)|..], old(Transfer(request.response.value, Fresh, expectedEtag, incoming)).1,
                      old(request.Snapshot()), old(messageId))
      ensures messageId == IdAfter(old(messageId), |sent| - |old(sent)|)
    {
      hide HandleBlock, Transfer, AsksFor, IdAfter, Successor, HavingAsked;
      var state := new BlockState();
      ghost var script, m, p := incoming, request.response.value, Fresh;
      ghost var whole := Transfer(m, p, expectedEtag, script);
      ghost var mine: seq<Outgoing>, asked: seq<BlockValue> := [], [];
      ghost var template, first := request.Snapshot(), messageId;
      StartsAt(whole);
      NothingAsked(template, first);
      while true
        invariant request.response == Some(m) && state.Progress() == p && incoming == script
        invariant sent == old(sent) + mine && messageId == IdAfter(first, |mine|)
        invariant request.Snapshot().(id := template.id, block1 := template.block1, block2 := template.block2)
            == template
        invariant AsksFor(mine, asked, template, first)
        invariant whole == HavingAsked(asked, Transfer(m, p, expectedEtag, script))
        decreases |script|
      {
        TransferGoesOn(asked, m, p, expectedEtag, script);
        if expectedEtag.Some? {
          var etagMatches := request.response.value.etag == expectedEtag;
          if !etagMatches {
            r := Err(InvalidData);
            break;
          }
        }
        ghost var handled := HandleBlock(m, p);
        var contains := HandleBlockwise(request, state);
        if contains.Err? {
          r := Err(Interrupted);
          break;
        }
        if !contains.value {
          r := Ok(request.response.value);
          break;
        }
        request.id := GenMessageId();
        AsksForMore(mine, asked, template, first, handled.next);
        assert request.Snapshot() == Asking(template, first, |mine|, handled.next);
        mine, asked := mine + [request.Snapshot()], asked + [handled.next];
        var resp := SendSingleRequest(request);
        if resp.Err? {
          r := resp;
          break;
        }
        request.response := Some(resp.value);
        m, p, script := resp.value, handled.progress, script[1..];
      }
      assert whole == (r, asked);
      assert sent[|old(sent)|..] == mine;
    }

    /** `receive`: the same without an expected ETag. */
    method Receive(request: CoapRequest) returns (r: IoResult<Message>)
      requires request.response.Some?
      modifies this`messageId, this`sent, this`incoming, request`id, request`block1, request`block2, request`response
      ensures r == old(Transfer(request.response.value, Fresh, None, incoming)).0
      ensures |sent| >= |old(sent)| && sent[..|old(sent)|] == old(sent)
      ensures AsksFor(sent[|old(sent)|..], old(Transfer(request.response.value, Fresh, None, incoming)).1,
                      old(request.Snapshot()), old(messageId))
      ensures messageId == IdAfter(old(messageId), |sent| - |old(sent)|)
    {
      r := ReceiveWithEtagValidation(request, None);
    }

    // The upload loop of `send_request`.
    method SendChunks(request: CoapRequest, payload: Bytes) returns (r: IoResult<Message>, ghost mine: seq<Outgoing>)
      requires 0 < block1Size < |payload|
      modifies this`messageId, this`sent, this`incoming, request`id, request`block1, request`payload
      ensures sent == old(sent) + mine
      ensures (r, |mine|) == Upload(payload, block1Size, 0, old(incoming))
      ensures Uploads(mine, payload, block1Size, old(request.Snapshot()), old(messageId))
      ensures incoming == After(old(incoming), |mine|) && messageId == IdAfter(old(messageId), |mine|)
      ensures r.Ok? ==> mine != [] && request.Snapshot() == mine[|mine| - 1]
    {
      hide Upload, Uploads, JudgeAck, Chunk, ChunkCount, OnTheWire;
      var count := ChunkCount(|payload|, block1Size);
      ChunkCountPositive(|payload|, block1Size);
      ghost var script, total := incoming, Upload(payload, block1Size, 0, incoming);
      ghost var template, first := request.Snapshot(), messageId;
      mine := [];
      NothingUploaded(payload, block1Size, template, first);
      r := Err(OtherKind);
      var idx := 0;
      while true
        invariant incoming == script && sent == old(sent) + mine && |mine| == idx < count
        invariant messageId == IdAfter(first, idx)
        invariant idx <= |old(incoming)| && script == old(incoming)[idx..]
        invariant request.Snapshot().(id := template.id, block1 := template.block1, payload := template.payload)
            == template
        invariant Uploads(mine, payload, block1Size, template, first)
        invariant total.0 == Upload(payload, block1Size, idx, script).0
        invariant total.1 == idx + Upload(payload, block1Size, idx, script).1
        decreases |script|
      {
        UploadOnce(payload, block1Size, idx, script);
        var moreBlocks := idx + 1 < count;
        var block := NewBlockValue(idx, moreBlocks, block1Size);
        if block.None? {
          r := Err(OtherKind);
          break;
        }
        BlockDeclared(payload, block1Size, idx);
        request.block1 := Absent;
        request.block1 := Block(block.value);
        request.payload := Chunk(payload, block1Size, idx);
        request.id := GenMessageId();
        WireParts(payload, block1Size, idx);
        UploadsMore(mine, payload, block1Size, template, first);
        assert request.Snapshot() == Uploading(payload, block1Size, template, first, idx);
        mine := mine + [request.Snapshot()];
        var resp := SendSingleRequest(request);
        if resp.Err? {
          r := resp;
          break;
        }
        var verdict := CheckAck(resp.value, block.value);
        if verdict.Stop? {
          r := verdict.result;
          break;
        }
        script := script[1..];
        idx := idx + 1;
      }
    }

    /** Sends a request, in numbered chunks when its payload exceeds the block size. */
    method SendRequest(request: CoapRequest) returns (r: IoResult<Message>)
      requires request.payload != [] ==> block1Size > 0
      modifies this`messageId, this`sent, this`incoming, request`id, request`block1, request`payload
      ensures |sent| >= |old(sent)| && sent[..|old(sent)|] == old(sent)
      ensures (r, |sent| - |old(sent)|) == FirstLeg(old(request.payload), block1Size, old(incoming))
      ensures incoming == After(old(incoming), |sent| - |old(sent)|)
      ensures SentInFull(sent[|old(sent)|..], old(request.Snapshot()), block1Size, old(messageId))
      ensures messageId == IdAfterFirst(old(request.Snapshot()), block1Size, old(messageId), |sent| - |old(sent)|)
      ensures r.Ok? ==> |sent| > |old(sent)| && request.Snapshot() == sent[|sent| - 1]
    {
      hide Upload, Uploads;
      if |request.payload| <= block1Size {
        if request.id == 0 {
          request.id := GenMessageId();
        }
        r := SendSingleRequest(request);
        assert sent[|old(sent)|..] == [request.Snapshot()];
        return;
      }
      var payload := request.payload;
      request.payload := [];
      ghost var mine;
      r, mine := SendChunks(request, payload);
      UploadsAnyway(mine, payload, block1Size, old(request.Snapshot()), old(request.Snapshot()).(payload := []),
          old(messageId));
      assert sent[|old(sent)|..] == mine;
    }

    /** `send`: the request, then the rest of a block-wise response, asked for like the last request sent. */
    method Send(request: CoapRequest) returns (r: IoResult<Message>)
      requires request.payload != [] ==> block1Size > 0
      modifies this`messageId, this`sent, this`incoming, request
      ensures r == Exchange(old(request.payload), block1Size, old(incoming))
      ensures var (first, used) := FirstLeg(old(request.payload), block1Size, old(incoming));
        && |sent| >= |old(sent)| + used && sent[..|old(sent)|] == old(sent)
        && SentInFull(sent[|old(sent)|..|old(sent)| + used], old(request.Snapshot()), block1Size, old(messageId))
        && (first.Err? ==> |sent| == |old(sent)| + used)
        && (first.Ok? ==> used > 0 && AsksFor(sent[|old(sent)| + used..],
              Transfer(first.value, Fresh, None, After(old(incoming), used)).1, sent[|old(sent)| + used - 1],
              IdAfterFirst(old(request.Snapshot()), block1Size, old(messageId), used)))
    {
      hide Transfer, Uploads, AsksFor, SentInFull, FirstLeg, Exchange, IdAfterFirst;
      ExchangeIs(request.payload, block1Size, incoming);
      var first := SendRequest(request);
      ghost var sentFirst := sent;
      InTwoParts(old(sent), sentFirst, sent);
      if first.Err? {
        return first;
      }
      request.response := Some(first.value);
      r := Receive(request);
      InTwoParts(old(sent), sentFirst, sent);
    }

    /** The registration of an observation: the caller's request with the Observe option, under its own message
        id and token or, where it has none, the next id and a token drawn from `random`. */
    method RegisterPacket(request: CoapRequest, random: U16) returns (packet: CoapRequest)
      modifies this`messageId
      ensures fresh(packet) && packet.token != []
      ensures packet.Snapshot() == request.Snapshot().(
                id := if request.id == 0 then old(messageId) else request.id,
                token := RegistrationToken(request.token, random), observe := true)
      ensures messageId == if request.id == 0 then Successor(old(messageId)) else old(messageId)
    {
      packet := new CoapRequest(request.token, request.payload);
      packet.id, packet.block1, packet.block2 := request.id, request.block1, request.block2;
      if packet.id == 0 {
        packet.id := GenMessageId();
      }
      if packet.token == [] {
        packet.token := GenToken(random);
      }
      packet.observe := true;
    }

    method GenToken(random: U16) returns (token: Bytes)
      ensures token == TokenOf(random)
    {
      token := [random / 256, random % 256];
    }

    /** Handles a packet of an observation: what the handler is called with, if anything. The remaining blocks are
        asked for under a token of their own, drawn from `random`, and without the Observe option. */
    method ReceiveAndHandleMessageObserve(request: CoapRequest, socketResult: IoResult<Message>, random: U16)
      returns (handled: Option<IoResult<Message>>)
      modifies this`messageId, this`sent, this`incoming
      modifies request`id, request`token, request`observe, request`block1, request`block2, request`response
      ensures handled == old(Delivery(socketResult, incoming))
      ensures |sent| >= |old(sent)| && sent[..|old(sent)|] == old(sent)
      ensures if socketResult.Ok? && Announces(socketResult.value) then
          AsksFor(sent[|old(sent)|..], Transfer(socketResult.value, Fresh, socketResult.value.etag, old(incoming)).1,
                  old(request.Snapshot()).(token := TokenOf(random), observe := false), Successor(old(messageId)))
        else sent == old(sent) && messageId == old(messageId)
    {
      hide Transfer, AsksFor;
      match socketResult
      case Ok(response) =>
        if response.block2.Block? {
          var block2 := response.block2.value;
          if block2.more {
            var expectedEtag := response.etag;
            request.response := Some(response);
            request.token := GenToken(random);
            request.id := GenMessageId();
            request.observe := false;
            request.block2 := Absent;
            request.block2 := Block(block2.(num := Successor(block2.num)).(more := false));
            ghost var template := request.Snapshot();
            var fullDatagram := ReceiveWithEtagValidation(request, expectedEtag);
            AsksForAnyway(sent[|old(sent)|..], old(Transfer(response, Fresh, response.etag, incoming)).1, template,
                          old(request.Snapshot()).(token := TokenOf(random), observe := false),
                              Successor(old(messageId)));
            handled := Some(fullDatagram);
          } else {
            handled := Some(Ok(response));
          }
        } else {
          handled := Some(Ok(response));
        }
      case Err(e) =>
        if e == WouldBlock {
          handled := None;
        } else {
          handled := Some(Err(e));
        }
    }
  }

  lemma InTwoParts<T>(before: seq<T>, between: seq<T>, after: seq<T>)
    requires |before| <= |between| <= |after| && between[..|before|] == before && after[..|between|] == between
    ensures after[..|before|] == before && after[|before|..|between|] == between[|before|..]
    ensures |between| > 0 ==> after[|between| - 1] == between[|between| - 1]
  {
    assert after[..|before|] == after[..|between|][..|before|];
    assert after[|before|..|between|] == after[..|between|][|before|..];
  }

  lemma ExchangeIs(payload: Bytes, size: nat, replies: seq<IoResult<Message>>)
    requires payload != [] ==> size > 0
    ensures var (first, used) := FirstLeg(payload, size, replies);
      Exchange(payload, size, replies)
      == if first.Err? then first else Transfer(first.value, Fresh, None, After(replies, used)).0
  {
  }

  // A response whose remaining blocks have to be fetched.
  predicate Announces(m: Message) {
    m.block2.Block? && m.block2.value.more
  }

  // `gen_token`: two random bytes.
  function TokenOf(random: U16): Bytes {
    [random / 256, random % 256]
  }

  // The token an observation is registered under: the caller's, or a drawn one where the caller's is empty.
  function RegistrationToken(requested: Bytes, random: U16): (token: Bytes)
    ensures token != [] && (requested != [] ==> token == requested)
  {
    if requested == [] then TokenOf(random) else requested
  }

  /** What `send_request` sends: the request as it is, numbered if it was not, or all its chunks up to the last one
      answered. */
  ghost predicate SentInFull(sent: seq<Outgoing>, request: Outgoing, size: nat, first: U16) {
    if |request.payload| <= size then sent == [request.(id := if request.id == 0 then first else request.id)]
    else size > 0 && Uploads(sent, request.payload, size, request, first)
  }

  // The next message id then.
  function IdAfterFirst(request: Outgoing, size: nat, first: U16, used: nat): U16 {
    if |request.payload| > size then IdAfter(first, used) else if request.id == 0 then Successor(first) else first
  }

  // A template's id, block options and, for an upload, payload do not matter.
  lemma AsksForAnyway(sent: seq<Outgoing>, asked: seq<BlockValue>, template: Outgoing, other: Outgoing, first: U16)
    requires AsksFor(sent, asked, template, first)
    requires other == template.(id := other.id, block1 := other.block1, block2 := other.block2)
    ensures AsksFor(sent, asked, other, first)
  {
    forall i | 0 <= i < |sent| ensures sent[i] == Asking(other, first, i, asked[i]) {
      assert sent[i] == Asking(template, first, i, asked[i]);
    }
  }

  lemma UploadsAnyway(sent: seq<Outgoing>, payload: Bytes, size: nat, other: Outgoing, template: Outgoing, first: U16)
    requires size > 0 && Uploads(sent, payload, size, template, first)
    requires other == template.(payload := other.payload)
    ensures Uploads(sent, payload, size, other, first)
  {
    hide OnTheWire;
    forall j | 0 <= j < |sent| ensures sent[j] == Uploading(payload, size, other, first, j) {
      assert sent[j] == Uploading(payload, size, template, first, j);
    }
  }

  lemma WireParts(payload: Bytes, size: nat, num: U16)
    requires size > 0
    ensures OnTheWire(payload, size, num).payload == Chunk(payload, size, num)
  {
  }
}
