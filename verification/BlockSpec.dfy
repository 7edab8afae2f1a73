/** Block-wise transfer as values: what one response does to a transfer, what a whole exchange with a
    scripted network yields, and how a payload is cut into blocks. */
module BlockSpec {
  import opened Coap

  // ---------------------------------------------------------------- cutting

  function Zeros(n: nat): (z: Bytes)
    ensures |z| == n
  {
    seq(n, i => 0)
  }

  // Bytes `size * k` up to `size * (k + 1)` of the payload, fewer at its end.
  function Chunk(payload: Bytes, size: nat, k: nat): Bytes {
    payload[Min(size * k, |payload|)..Min(size * (k + 1), |payload|)]
  }

  // The number of chunks of a non-empty payload: the length over the size, rounded up.
  function ChunkCount(length: nat, size: nat): nat
    requires size > 0
  {
    (length + size - 1) / size
  }

  lemma ChunkCountPositive(length: nat, size: nat)
    requires 0 < size && 0 < length
    ensures ChunkCount(length, size) > 0
  {
  }

  // ---------------------------------------------------------------- Block2: one response

  /** coap-lite's `extending_splice`: zero-extends `dst` to `end` unless that adds more than `limit`
      bytes, then replaces `dst[start..end]`. */
  function ExtendingSplice(dst: Bytes, start: nat, end: nat, src: Bytes, limit: nat): (r: Option<Bytes>)
    requires start <= end
    ensures r.Some? <==> end <= |dst| + limit
    ensures r.Some? && |dst| <= start ==> r.value == dst + Zeros(start - |dst|) + src
  {
    var extension := if end > |dst| then end - |dst| else 0;
    if extension > limit then None
    else
      var extended := dst + Zeros(extension);
      assert |dst| <= start ==> extended[..start] == dst + Zeros(start - |dst|) && extended[end..] == [];
      Some(extended[..start] + src + extended[end..])
  }

  const MAX_EXTENSION: nat := 16 * 1024

  // `BlockState` of src/client.rs.
  datatype Progress = Progress(cached: Option<Bytes>, expected: Option<U16>)

  const Fresh := Progress(None, None)

  datatype Handled = Failed | Complete(message: Message) | More(progress: Progress, next: BlockValue)

  function Cached(p: Progress): Bytes {
    if p.cached.Some? then p.cached.value else []
  }

  // Where a block starts.
  function Offset(b: BlockValue): nat {
    b.num * b.Size()
  }

  /** What one response does to a transfer. */
  function HandleBlock(m: Message, p: Progress): Handled {
    if !m.block2.Block? then Complete(m)
    else
      var b := m.block2.value;
      if p.expected.Some? && p.expected.value != b.num then Failed
      else
        var offset := Offset(b);
        match ExtendingSplice(Cached(p), offset, offset + b.Size(), m.payload, MAX_EXTENSION)
        case None => Failed
        case Some(bytes) =>
          var next := Successor(b.num);
          if b.more then More(Progress(Some(bytes), Some(next)), BlockValue(next, false, b.exponent))
          else Complete(m.(payload := bytes))
  }

  // ---------------------------------------------------------------- Block2: a whole transfer

  /** The result of a transfer that holds response `m` in state `p`, and the blocks it asks for, when
      the following requests are answered by `replies` and then not at all. With an `etag`, every
      response has to carry it. */
  function Transfer(m: Message, p: Progress, etag: Option<Bytes>, replies: seq<IoResult<Message>>)
    : (IoResult<Message>, seq<BlockValue>)
    decreases |replies|
  {
    if etag.Some? && m.etag != etag then (Err(InvalidData), [])
    else
      match HandleBlock(m, p)
      case Failed => (Err(Interrupted), [])
      case Complete(full) => (Ok(full), [])
      case More(q, next) =>
        if replies == [] then (Err(TimedOut), [next])
        else if replies[0].Err? then (Err(replies[0].error), [next])
        else
          var (result, asked) := Transfer(replies[0].value, q, etag, replies[1..]);
          (result, [next] + asked)
  }

  lemma TransferOnce(m: Message, p: Progress, etag: Option<Bytes>, replies: seq<IoResult<Message>>)
    ensures var whole := Transfer(m, p, etag, replies);
      if etag.Some? && m.etag != etag then whole == (Err(InvalidData), [])
      else match HandleBlock(m, p)
        case Failed => whole == (Err(Interrupted), [])
        case Complete(full) => whole == (Ok(full), [])
        case More(q, next) =>
          && (replies == [] ==> whole == (Err(TimedOut), [next]))
          && (replies != [] && replies[0].Err? ==> whole == (Err(replies[0].error), [next]))
          && (replies != [] && replies[0].Ok? ==>
                whole.0 == Transfer(replies[0].value, q, etag, replies[1..]).0
                && whole.1 == [next] + Transfer(replies[0].value, q, etag, replies[1..]).1)
  {
  }

  /** What an observe handler is called with for a received packet, if it is called. */
  function Delivery(received: IoResult<Message>, replies: seq<IoResult<Message>>): Option<IoResult<Message>> {
    match received
    case Err(WouldBlock) => None
    case Err(e) => Some(Err(e))
    case Ok(m) =>
      if m.block2.Block? && m.block2.value.more then Some(Transfer(m, Fresh, m.etag, replies).0)
      else Some(Ok(m))
  }

  // ---------------------------------------------------------------- Block1

  datatype Verdict = Stop(result: IoResult<Message>) | Proceed

  /** How the client judges the response to chunk `sent`. */
  function JudgeAck(resp: Message, sent: BlockValue): Verdict {
    match resp.block1
    case Absent => Stop(Err(Unsupported))
    case Malformed => Stop(Err(InvalidData))
    case Block(acked) =>
      if acked.num != sent.num then Stop(Err(InvalidData))
      else if sent.more then
        if acked.exponent != sent.exponent then Stop(Err(Unsupported))
        else if !resp.status.Continue? then Stop(Ok(resp))
        else Proceed
      else if resp.status.Continue? then Stop(Err(InvalidData))
      else Stop(Ok(resp))
  }

  // A request as the server receives it.
  datatype Received = Received(block1: BlockValue, payload: Bytes)

  // Chunk `num` as it goes out: numbered, of the declared size, flagged unless it is the last.
  function OnTheWire(payload: Bytes, size: nat, num: U16): Received
    requires size > 0
  {
    Received(BlockValue(num, num + 1 < ChunkCount(|payload|, size), ExponentFor(size)), Chunk(payload, size, num))
  }

  /** The result of uploading `payload` in chunks from number `i` on, and how many chunks are sent. */
  function Upload(payload: Bytes, size: nat, i: nat, replies: seq<IoResult<Message>>): (IoResult<Message>, nat)
    requires size > 0 && i < ChunkCount(|payload|, size)
    decreases |replies|
  {
    match NewBlockValue(i, i + 1 < ChunkCount(|payload|, size), size)
    case None => (Err(OtherKind), 0)
    case Some(block) =>
      if replies == [] then (Err(TimedOut), 1)
      else if replies[0].Err? then (Err(replies[0].error), 1)
      else
        match JudgeAck(replies[0].value, block)
        case Stop(result) => (result, 1)
        case Proceed =>
          var (result, more) := Upload(payload, size, i + 1, replies[1..]);
          (result, more + 1)
  }

  // The script after `n` exchanges.
  function After(replies: seq<IoResult<Message>>, n: nat): seq<IoResult<Message>> {
    if n <= |replies| then replies[n..] else []
  }

  /** The result of the first leg of a request, whole or in chunks, and how many requests it takes. */
  function FirstLeg(payload: Bytes, size: nat, replies: seq<IoResult<Message>>): (IoResult<Message>, nat)
    requires payload != [] ==> size > 0
  {
    if |payload| <= size then (if replies == [] then Err(TimedOut) else replies[0], 1)
    else
      ChunkCountPositive(|payload|, size);
      Upload(payload, size, 0, replies)
  }

  /** The result of a request with whatever block-wise transfers it takes in either direction. */
  function Exchange(payload: Bytes, size: nat, replies: seq<IoResult<Message>>): IoResult<Message>
    requires payload != [] ==> size > 0
  {
    var (first, used) := FirstLeg(payload, size, replies);
    if first.Err? then first else Transfer(first.value, Fresh, None, After(replies, used)).0
  }

  lemma UploadOnce(payload: Bytes, size: nat, i: nat, replies: seq<IoResult<Message>>)
    requires size > 0 && i < ChunkCount(|payload|, size)
    ensures var whole, block := Upload(payload, size, i, replies), NewBlockValue(i, i + 1 < ChunkCount(|payload|,
        size), size);
      && (block.None? ==> whole == (Err(OtherKind), 0))
      && (block.Some? && replies == [] ==> whole == (Err(TimedOut), 1))
      && (block.Some? && replies != [] && replies[0].Err? ==> whole == (Err(replies[0].error), 1))
      && (block.Some? && replies != [] && replies[0].Ok? ==>
            match JudgeAck(replies[0].value, block.value)
            case Stop(result) => whole == (result, 1)
            case Proceed =>
              && i + 1 < ChunkCount(|payload|, size)
              && whole.0 == Upload(payload, size, i + 1, replies[1..]).0
              && whole.1 == Upload(payload, size, i + 1, replies[1..]).1 + 1)
  {
  }
}
