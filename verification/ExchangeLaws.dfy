/** What `send` returns, whatever the peer does: requests that fit into one block, uploads that break off, and what of
    it reaches an observe handler. And what the requests are on the wire. */
module ExchangeLaws {
  import opened Coap
  import opened BlockSpec
  import opened BlockLaws
  import opened UploadLaws
  import Client

  // ---------------------------------------------------------------- requests in one piece

  /** A request that fits into a block, as every GET does, goes out once. With no reply the result is a timeout, an
      error is passed on, and a response without a readable Block2 option is the result as it is, whatever its status
      and with or without a Block1 option. */
  lemma WholeRequestIsAnswered(payload: Bytes, size: nat, replies: seq<IoResult<Message>>)
    requires |payload| <= size
    ensures replies == [] ==> Exchange(payload, size, replies) == Err(TimedOut)
    ensures replies != [] && replies[0].Err? ==> Exchange(payload, size, replies) == replies[0]
    ensures replies != [] && replies[0].Ok? && !replies[0].value.block2.Block? ==>
      Exchange(payload, size, replies) == replies[0]
  {
  }

  /** And when the response comes in blocks, the result is the server's whole payload. */
  lemma WholeRequestFetchesAll(payload: Bytes, size: nat, replies: seq<IoResult<Message>>, response: Bytes, e: Exponent)
    requires |payload| <= size
    requires LastBlock(|response|, e) < 0x1_0000
    requires Supplies(replies, response, e, 0, LastBlock(|response|, e) + 1, None)
    ensures Exchange(payload, size, replies).Ok? && Exchange(payload, size, replies).value.payload == response
  {
    hide Transfer, Supplies;
    SuppliesRest(replies, response, e, 0, LastBlock(|response|, e) + 1, None);
    SuppliesEnough(replies, response, e, 0, LastBlock(|response|, e) + 1, None);
    ReceiveReassembles(replies[0].value, response, e, None, replies[1..]);
  }

  // ---------------------------------------------------------------- uploads that break off

  // The first `j` replies acknowledge chunks from `i` on, and ask for the next.
  ghost predicate AskOn(replies: seq<IoResult<Message>>, i: nat, j: nat, e: Exponent) {
    j <= |replies| && forall x | 0 <= x < j :: AsksOn(replies[x], i + x, e)
  }

  predicate AsksOn(reply: IoResult<Message>, num: nat, e: Exponent) {
    Acks(reply, num) && reply.value.block1.value.exponent == e && reply.value.status.Continue?
  }

  lemma AskOnRest(replies: seq<IoResult<Message>>, i: nat, j: nat, e: Exponent)
    requires AskOn(replies, i, j, e) && j > 0
    ensures AsksOn(replies[0], i, e) && AskOn(replies[1..], i + 1, j - 1, e)
  {
    assert AsksOn(replies[0], i + 0, e);
    forall x | 0 <= x < j - 1 ensures AsksOn(replies[1..][x], i + 1 + x, e) {
      assert AsksOn(replies[x + 1], i + (x + 1), e);
    }
  }

  // The answer to chunk `num`, and whether it is the last.
  ghost predicate EndsUpload(result: IoResult<Message>, reply: IoResult<Message>, num: nat, isLast: bool, e: Exponent) {
    match reply
    case Err(error) => result == Err(error)
    case Ok(response) =>
      match response.block1
      case Absent => result == Err(Unsupported)
      case Malformed => result == Err(InvalidData)
      case Block(acked) =>
        if acked.num != num then result == Err(InvalidData)
        else if !isLast && acked.exponent != e then result == Err(Unsupported)
        else if isLast && response.status.Continue? then result == Err(InvalidData)
        else result == Ok(response)
  }

  lemma {:induction false} UploadFrom(payload: Bytes, size: nat, i: nat, replies: seq<IoResult<Message>>, j: nat)
    requires 0 < size < 4096 && i + j < ChunkCount(|payload|, size) && i + j < 0x1_0000
    requires AskOn(replies, i, j, ExponentFor(size))
    ensures var (result, sent) := Upload(payload, size, i, replies);
      var isLast := i + j + 1 == ChunkCount(|payload|, size);
      && (j == |replies| ==> result == Err(TimedOut) && sent == j + 1)
      && (j < |replies| && (isLast || !AsksOn(replies[j], i + j, ExponentFor(size))) ==>
            EndsUpload(result, replies[j], i + j, isLast, ExponentFor(size)) && sent == j + 1)
    decreases j
  {
    hide Upload, ChunkCount, ExponentFor;
    UploadOnce(payload, size, i, replies);
    if j > 0 {
      AskOnRest(replies, i, j, ExponentFor(size));
      assert AsksOn(replies[0], i, ExponentFor(size));
      UploadFrom(payload, size, i + 1, replies[1..], j - 1);
    }
  }

  /** How an upload ends: `j` chunks were acknowledged and the next asked for, and then comes something else, or the
      answer to the last chunk. A lost reply is a timeout and an error is passed on. Otherwise the response has to
      acknowledge the chunk just sent: without a Block1 option the result is Unsupported, with an unreadable one or
      another number InvalidData, with another size before the last Unsupported. If it does, it is the result, early
      or not - but for a 2.31 Continue to the last chunk, which is InvalidData. No further chunk is sent. */
  lemma UploadEnds(payload: Bytes, size: nat, replies: seq<IoResult<Message>>, j: nat)
    requires 0 < size < 4096 && j < ChunkCount(|payload|, size) && j < 0x1_0000
    requires AskOn(replies, 0, j, ExponentFor(size))
    requires j < |replies| && j + 1 < ChunkCount(|payload|, size) ==> !AsksOn(replies[j], j, ExponentFor(size))
    ensures var (result, sent) := Upload(payload, size, 0, replies);
      var isLast := j + 1 == ChunkCount(|payload|, size);
      && sent == j + 1
      && if j == |replies| then result == Err(TimedOut)
         else if replies[j].Err? then result == replies[j]
         else
           var response := replies[j].value;
           match response.block1
           case Absent => result == Err(Unsupported)
           case Malformed => result == Err(InvalidData)
           case Block(acked) =>
             if acked.num != j then result == Err(InvalidData)
             else if !isLast && acked.exponent != ExponentFor(size) then result == Err(Unsupported)
             else if isLast && response.status.Continue? then result == Err(InvalidData)
             else result == Ok(response)
  {
    hide Upload, ChunkCount, ExponentFor, AskOn;
    UploadFrom(payload, size, 0, replies, j);
    AsksEnough(replies, 0, j, ExponentFor(size));
  }

  lemma AsksEnough(replies: seq<IoResult<Message>>, i: nat, j: nat, e: Exponent)
    requires AskOn(replies, i, j, e)
    ensures j <= |replies|
  {
  }

  /** An upload that cannot be told in a Block1 option breaks off: at once when the size is too large for one, and
      after 2^16 chunks when there are more. */
  lemma {:induction false} UploadBreaksOff(payload: Bytes, size: nat, i: nat, replies: seq<IoResult<Message>>)
    requires 0 < size && i < ChunkCount(|payload|, size)
    ensures size >= 4096 ==> Upload(payload, size, i, replies) == (Err(OtherKind), 0)
    ensures size < 4096 && i <= 0x1_0000 < ChunkCount(|payload|, size)
            && AskOn(replies, i, 0x1_0000 - i, ExponentFor(size)) ==>
      Upload(payload, size, i, replies) == (Err(OtherKind), 0x1_0000 - i)
    decreases |replies|
  {
    hide Upload, ChunkCount, ExponentFor, AskOn;
    UploadOnce(payload, size, i, replies);
    if size < 4096 && i < 0x1_0000 < ChunkCount(|payload|, size) && AskOn(replies, i, 0x1_0000 - i, ExponentFor(size)) {
      AskOnRest(replies, i, 0x1_0000 - i, ExponentFor(size));
      AsksEnough(replies, i, 0x1_0000 - i, ExponentFor(size));
      UploadBreaksOff(payload, size, i + 1, replies[1..]);
    }
  }

  /** What ends the upload is what `send` returns, if it is an error or a response without a readable Block2 option: an
      early 4.13, say, reaches the caller as it is. */
  lemma EndOfUploadIsReturned(payload: Bytes, size: nat, replies: seq<IoResult<Message>>)
    requires 0 < size < |payload|
    ensures ChunkCount(|payload|, size) > 0
    ensures var (result, _) := Upload(payload, size, 0, replies);
      result.Err? || !result.value.block2.Block? ==> Exchange(payload, size, replies) == result
  {
    hide Upload;
    ChunkCountPositive(|payload|, size);
  }

  // ---------------------------------------------------------------- what a handler is told

  /** An observe handler is told everything but that nothing came for a while: every other error as it is, and every
      packet that announces no more blocks as it is. */
  lemma OutcomeIsDelivered(received: IoResult<Message>, replies: seq<IoResult<Message>>)
    ensures Delivery(received, replies).None? <==> received == Err(WouldBlock)
    ensures received.Err? && received.error != WouldBlock ==> Delivery(received, replies) == Some(received)
    ensures received.Ok? && (received.value.block2.Block? ==> !received.value.block2.value.more) ==>
      Delivery(received, replies) == Some(received)
  {
  }

  // ---------------------------------------------------------------- the requests on the wire

  /** The fetches of a transfer, each as it goes out: the block asked for and no Block1 option, everything else as in
      the request they continue but the message id, which is new for each. */
  lemma FetchOnTheWire(sent: seq<Client.Outgoing>, asked: seq<BlockValue>, template: Client.Outgoing, first: U16,
                       i: nat, j: nat)
    requires Client.AsksFor(sent, asked, template, first) && i < |sent|
    ensures |sent| == |asked|
    ensures sent[i].block2 == Block(asked[i]) && sent[i].block1 == Absent
    ensures sent[i].token == template.token && sent[i].observe == template.observe
         && sent[i].payload == template.payload
    ensures i < j < |sent| && j - i < 0x1_0000 ==> sent[i].id != sent[j].id
  {
    assert sent[i] == Client.Asking(template, first, i, asked[i]);
    if i < j < |sent| && j - i < 0x1_0000 {
      assert sent[j] == Client.Asking(template, first, j, asked[j]);
      IdsDiffer(first, i, j);
    }
  }

  lemma {:induction false} IdIsModular(first: U16, n: nat)
    ensures IdAfter(first, n) == (first + n) % 0x1_0000
  {
    if n > 0 {
      IdIsModular(first, n - 1);
      WrapStep(first + (n - 1));
    }
  }

  lemma IdsDiffer(first: U16, i: nat, j: nat)
    requires i < j < i + 0x1_0000
    ensures IdAfter(first, i) != IdAfter(first, j)
  {
    IdIsModular(first, i);
    IdIsModular(first, j);
  }

  /** A request that fits goes out once and as it is, under the next message id if it had none. */
  lemma WholeRequestOnTheWire(sent: seq<Client.Outgoing>, request: Client.Outgoing, size: nat, first: U16)
    requires Client.SentInFull(sent, request, size, first) && |request.payload| <= size
    ensures |sent| == 1 && sent[0].(id := request.id) == request
    ensures sent[0].id == if request.id == 0 then first else request.id
  {
  }

  /** The requests of an upload are what the server receives of it: chunk by chunk, each with its number, its size and
      whether it is the last, under a new message id and the request's token. So everything about what servers make of
      received chunks applies to what the client sends. */
  lemma ChunkOnTheWire(sent: seq<Client.Outgoing>, payload: Bytes, size: nat, template: Client.Outgoing, first: U16,
                       j: nat, k: nat)
    requires size > 0 && Client.Uploads(sent, payload, size, template, first) && j < |sent|
    ensures sent[j].block1.Block? && sent[j].block1.value.num == j
    ensures sent[j].block1.value.more <==> j + 1 < ChunkCount(|payload|, size)
    ensures WasSent(Received(sent[j].block1.value, sent[j].payload), payload, size, |sent|)
    ensures sent[j].token == template.token && sent[j].observe == template.observe
         && sent[j].block2 == template.block2
    ensures j < k < |sent| ==> sent[j].id != sent[k].id
  {
    hide ChunkCount, Chunk;
    assert sent[j] == Client.Uploading(payload, size, template, first, j);
    if j < k < |sent| {
      assert sent[k] == Client.Uploading(payload, size, template, first, k);
      IdsDiffer(first, j, k);
    }
  }
}
