/** What block-wise transfers promise: reassembly, no mixing of versions, and safe uploads. */
module BlockLaws {
  import opened Coap
  import opened Etag
  import opened BlockSpec

  // ---------------------------------------------------------------- a server's blocks

  /** Block `k` of `payload` at block size `SizeOf(e)`, as coap-lite's BlockHandler answers a fetch. */
  predicate IsBlockOf(m: Message, payload: Bytes, e: Exponent, k: U16) {
    && SizeOf(e) * k <= |payload|
    && m.block2 == Block(BlockValue(k, SizeOf(e) * (k + 1) < |payload|, e))
    && m.payload == Chunk(payload, SizeOf(e), k)
  }

  lemma ChunkExtends(payload: Bytes, size: nat, k: nat)
    requires size * k <= |payload|
    ensures size * (k + 1) == size * k + size
    ensures payload[..size * k] + Chunk(payload, size, k) == payload[..Min(size * (k + 1), |payload|)]
    ensures size * (k + 1) <= |payload| ==> |Chunk(payload, size, k)| == size
  {
  }

  // State `p` holds the payload's blocks before `k`, behind or overlaid by an arbitrary prefix.
  predicate Holds(p: Progress, prefix: Bytes, payload: Bytes, e: Exponent, k: nat) {
    && |prefix| <= SizeOf(e) * k <= |payload|
    && Cached(p) == prefix + payload[|prefix|..SizeOf(e) * k]
    && (p.expected.Some? ==> p.expected.value == k)
  }

  lemma HandleNextBlock(m: Message, prefix: Bytes, payload: Bytes, e: Exponent, k: U16, p: Progress)
    requires IsBlockOf(m, payload, e, k) && Holds(p, prefix, payload, e, k)
    ensures |prefix| <= Min(SizeOf(e) * (k + 1), |payload|)
    ensures var q := prefix + payload[|prefix|..Min(SizeOf(e) * (k + 1), |payload|)];
      HandleBlock(m, p)
      == if SizeOf(e) * (k + 1) < |payload|
         then More(Progress(Some(q), Some(Successor(k))), BlockValue(Successor(k), false, e))
         else Complete(m.(payload := q))
  {
    var size := SizeOf(e);
    ChunkExtends(payload, size, k);
    assert k * size == size * k;
    var q := prefix + payload[|prefix|..Min(size * (k + 1), |payload|)];
    assert Cached(p) + Zeros(0) + m.payload == q by {
      assert Zeros(0) == [];
      assert payload[|prefix|..size * k] + Chunk(payload, size, k) == payload[|prefix|..Min(size * (k + 1), |payload|)];
    }
  }

  // Block `k` is followed by others exactly when it is not the last.
  lemma NotLast(length: nat, e: Exponent, k: nat, last: nat)
    requires k <= last && SizeOf(e) * last <= length <= SizeOf(e) * (last + 1)
    requires k < last ==> SizeOf(e) * last < length
    ensures SizeOf(e) * (k + 1) < length <==> k < last
  {
    var size := SizeOf(e);
    if k < last {
      assert size * (k + 1) <= size * last;
    }
  }

  lemma HoldsNext(prefix: Bytes, payload: Bytes, e: Exponent, k: U16)
    requires |prefix| <= SizeOf(e) * k && SizeOf(e) * (k + 1) < |payload| && k < 0xFFFF
    ensures |prefix| <= SizeOf(e) * (k + 1)
    ensures Holds(Progress(Some(prefix + payload[|prefix|..SizeOf(e) * (k + 1)]), Some(Successor(k))),
                  prefix, payload, e, k + 1)
  {
    assert SizeOf(e) * (k + 1) == SizeOf(e) * k + SizeOf(e);
  }

  // The reply is that block, and carries the expected ETag if there is one.
  predicate Continues(reply: IoResult<Message>, payload: Bytes, e: Exponent, k: nat, etag: Option<Bytes>) {
    && reply.Ok? && k < 0x1_0000 && IsBlockOf(reply.value, payload, e, k)
    && (etag.Some? ==> reply.value.etag == etag)
  }

  // The first `n` replies are the blocks from `k` on.
  ghost predicate Supplies(replies: seq<IoResult<Message>>, payload: Bytes, e: Exponent, k: nat, n: nat,
      etag: Option<Bytes>) {
    n <= |replies| && forall i | 0 <= i < n :: Continues(replies[i], payload, e, k + i, etag)
  }

  lemma SuppliesRest(replies: seq<IoResult<Message>>, payload: Bytes, e: Exponent, k: nat, n: nat, etag: Option<Bytes>)
    requires Supplies(replies, payload, e, k, n, etag) && n > 0
    ensures Continues(replies[0], payload, e, k, etag)
    ensures Supplies(replies[1..], payload, e, k + 1, n - 1, etag)
  {
    assert Continues(replies[0], payload, e, k + 0, etag);
    forall i | 0 <= i < n - 1 ensures Continues(replies[1..][i], payload, e, k + 1 + i, etag) {
      assert Continues(replies[i + 1], payload, e, k + (i + 1), etag);
    }
  }

  /** Against a server that answers every fetch with that block of one payload, a transfer that holds the
      blocks before `k` ends with the rest of the payload, asking for each later block once, in order. */
  lemma {:induction false} TransferCompletes(m: Message, prefix: Bytes, payload: Bytes, e: Exponent, k: U16,
                                             p: Progress, etag: Option<Bytes>, replies: seq<IoResult<Message>>,
                                             last: nat)
    requires Continues(Ok(m), payload, e, k, etag) && Holds(p, prefix, payload, e, k)
    requires k <= last < 0x1_0000 && SizeOf(e) * last <= |payload| <= SizeOf(e) * (last + 1)
    requires k < last ==> SizeOf(e) * last < |payload|
    requires Supplies(replies, payload, e, k + 1, last - k, etag)
    ensures |prefix| <= |payload|
    ensures var (result, asked) := Transfer(m, p, etag, replies);
      && result.Ok? && result.value.payload == prefix + payload[|prefix|..]
      && (etag.Some? ==> result.value.etag == etag)
      && |asked| == last - k
      && forall i | 0 <= i < |asked| :: asked[i] == BlockValue(k + 1 + i, false, e)
    decreases last - k
  {
    hide SizeOf, HandleBlock, Chunk, IsBlockOf, Transfer, Supplies;
    HandleNextBlock(m, prefix, payload, e, k, p);
    NotLast(|payload|, e, k, last);
    if k == last {
      assert payload[|prefix|..|payload|] == payload[|prefix|..];
      TransferEnds(m, p, etag, replies, m.(payload := prefix + payload[|prefix|..]));
    } else {
      HoldsNext(prefix, payload, e, k);
      var next := BlockValue(Successor(k), false, e);
      var q := Progress(Some(prefix + payload[|prefix|..SizeOf(e) * (k + 1)]), Some(Successor(k)));
      assert HandleBlock(m, p) == More(q, next);
      SuppliesRest(replies, payload, e, k + 1, last - k, etag);
      SuppliesEnough(replies, payload, e, k + 1, last - k, etag);
      TransferCompletes(replies[0].value, prefix, payload, e, k + 1, q, etag, replies[1..], last);
      TransferContinues(m, p, etag, replies, q, next);
    }
  }

  lemma SuppliesEnough(replies: seq<IoResult<Message>>, payload: Bytes, e: Exponent, k: nat, n: nat,
      etag: Option<Bytes>)
    requires Supplies(replies, payload, e, k, n, etag)
    ensures n <= |replies|
  {
  }

  lemma TransferEnds(m: Message, p: Progress, etag: Option<Bytes>, replies: seq<IoResult<Message>>, full: Message)
    requires (etag.Some? ==> m.etag == etag) && HandleBlock(m, p) == Complete(full)
    ensures Transfer(m, p, etag, replies) == (Ok(full), [])
  {
  }

  lemma TransferContinues(m: Message, p: Progress, etag: Option<Bytes>, replies: seq<IoResult<Message>>,
                          q: Progress, next: BlockValue)
    requires (etag.Some? ==> m.etag == etag)
    requires HandleBlock(m, p) == More(q, next) && replies != [] && replies[0].Ok?
    ensures var (result, asked) := Transfer(replies[0].value, q, etag, replies[1..]);
      Transfer(m, p, etag, replies) == (result, [next] + asked)
  {
  }

  // The number of the last block of a payload.
  function LastBlock(length: nat, e: Exponent): nat {
    if length == 0 then 0 else (length - 1) / SizeOf(e)
  }

  lemma LastBlockBounds(length: nat, e: Exponent)
    ensures SizeOf(e) * LastBlock(length, e) <= length <= SizeOf(e) * (LastBlock(length, e) + 1)
    ensures length > 0 ==> SizeOf(e) * LastBlock(length, e) < length
    ensures length > 0 ==> LastBlock(length, e) + 1 == ChunkCount(length, SizeOf(e))
  {
    if length > 0 {
      var size := SizeOf(e);
      assert length + size - 1 == (length - 1) + size;
      assert (length - 1) / size * size + (length - 1) % size == length - 1;
      assert ((length - 1) + size) / size == (length - 1) / size + 1;
    }
  }

  /** Reassembly: a transfer that holds block 0 returns exactly the payload, after one request for each of its
      other blocks; with an ETag, when the server keeps answering under it. */
  lemma ReceiveReassembles(m: Message, payload: Bytes, e: Exponent, etag: Option<Bytes>,
      replies: seq<IoResult<Message>>)
    requires Continues(Ok(m), payload, e, 0, etag)
    requires LastBlock(|payload|, e) < 0x1_0000
    requires Supplies(replies, payload, e, 1, LastBlock(|payload|, e), etag)
    ensures var (result, asked) := Transfer(m, Fresh, etag, replies);
      && result.Ok? && result.value.payload == payload
      && (etag.Some? ==> result.value.etag == etag)
      && |asked| == LastBlock(|payload|, e)
      && forall i | 0 <= i < |asked| :: asked[i] == BlockValue(i + 1, false, e)
  {
    hide Transfer, Supplies, IsBlockOf;
    LastBlockBounds(|payload|, e);
    assert payload[0..] == payload && [] + payload == payload;
    TransferCompletes(m, [], payload, e, 0, Fresh, etag, replies, LastBlock(|payload|, e));
  }

  lemma LateBlock(m: Message, payload: Bytes, e: Exponent, k: U16)
    requires IsBlockOf(m, payload, e, k)
    ensures var zeros := Zeros(SizeOf(e) * k);
      var q := zeros + payload[SizeOf(e) * k..Min(SizeOf(e) * (k + 1), |payload|)];
      HandleBlock(m, Fresh)
      == if SizeOf(e) * (k + 1) > MAX_EXTENSION then Failed
         else if SizeOf(e) * (k + 1) < |payload|
         then More(Progress(Some(q), Some(Successor(k))), BlockValue(Successor(k), false, e))
         else Complete(m.(payload := q))
  {
    var size := SizeOf(e);
    ChunkExtends(payload, size, k);
    assert k * size == size * k;
    assert [] + Zeros(size * k - 0) + m.payload == Zeros(size * k) + m.payload;
  }

  /** A transfer whose first response is block k is accepted iff that block ends within the first 16 KiB. It
      then asks for the blocks after it, and the bytes before it come out as zeros. */
  lemma LateStartIsZeroPadded(m: Message, payload: Bytes, e: Exponent, k: U16, replies: seq<IoResult<Message>>)
    requires IsBlockOf(m, payload, e, k) && k <= LastBlock(|payload|, e) < 0x1_0000
    requires Supplies(replies, payload, e, k + 1, LastBlock(|payload|, e) - k, None)
    ensures var (result, asked) := Transfer(m, Fresh, None, replies);
      if SizeOf(e) * (k + 1) <= 16 * 1024 then
        && result.Ok? && result.value.payload == Zeros(SizeOf(e) * k) + payload[SizeOf(e) * k..]
        && |asked| == LastBlock(|payload|, e) - k
        && forall i | 0 <= i < |asked| :: asked[i] == BlockValue(k + 1 + i, false, e)
      else result == Err(Interrupted) && asked == []
  {
    hide HandleBlock, Transfer, Supplies, SizeOf, Chunk;
    var size, last := SizeOf(e), LastBlock(|payload|, e);
    LateBlock(m, payload, e, k);
    LastBlockBounds(|payload|, e);
    NotLast(|payload|, e, k, last);
    if size * (k + 1) > MAX_EXTENSION {
      TransferRefused(m, replies);
    } else if k == last {
      assert payload[size * k..|payload|] == payload[size * k..];
      TransferEnds(m, Fresh, None, replies, m.(payload := Zeros(size * k) + payload[size * k..]));
    } else {
      assert size * (k + 1) == size * k + size;
      var zeros := Zeros(size * k);
      var q := Progress(Some(zeros + payload[size * k..size * (k + 1)]), Some(Successor(k)));
      SuppliesRest(replies, payload, e, k + 1, last - k, None);
      SuppliesEnough(replies, payload, e, k + 1, last - k, None);
      TransferCompletes(replies[0].value, zeros, payload, e, k + 1, q, None, replies[1..], last);
      TransferContinues(m, Fresh, None, replies, q, BlockValue(Successor(k), false, e));
    }
  }

  lemma TransferRefused(m: Message, replies: seq<IoResult<Message>>)
    requires HandleBlock(m, Fresh).Failed?
    ensures Transfer(m, Fresh, None, replies) == (Err(Interrupted), [])
  {
  }

  // ---------------------------------------------------------------- any peer

  lemma {:induction false} AskedFollow(m: Message, p: Progress, etag: Option<Bytes>, replies: seq<IoResult<Message>>)
    ensures var asked := Transfer(m, p, etag, replies).1;
      && (asked != [] ==> m.block2.Block? && asked[0].num == Successor(m.block2.value.num))
      && (forall i | 0 <= i < |asked| - 1 :: asked[i + 1].num == Successor(asked[i].num))
      && |asked| <= |replies| + 1
    decreases |replies|
  {
    var asked := Transfer(m, p, etag, replies).1;
    if |asked| > 1 {
      var q := HandleBlock(m, p).progress;
      AskedFollow(replies[0].value, q, etag, replies[1..]);
      var rest := Transfer(replies[0].value, q, etag, replies[1..]).1;
      assert asked[0].num == replies[0].value.block2.value.num;
      forall i | 0 <= i < |asked| - 1 ensures asked[i + 1].num == Successor(asked[i].num) {
        if i > 0 {
          assert asked[i] == rest[i - 1] && asked[i + 1] == rest[i];
        }
      }
    }
  }

  // Whether an assembled result relies on this response: it answered the block asked for.
  predicate Answered(reply: IoResult<Message>, asked: BlockValue, final: bool) {
    && reply.Ok?
    && (reply.value.block2.Block? ==> reply.value.block2.value.num == asked.num)
    && (!final ==> reply.value.block2.Block? && reply.value.block2.value.more)
    && (final && reply.value.block2.Block? ==> !reply.value.block2.value.more)
  }

  /** Whatever the peer does, an Ok result used one response per block asked for, each carrying exactly
      the number asked for and announcing more, up to the last, which does not. */
  lemma {:induction false} ResultUsedConsecutiveBlocks(m: Message, p: Progress, etag: Option<Bytes>,
                                                       replies: seq<IoResult<Message>>)
    requires Transfer(m, p, etag, replies).0.Ok?
    ensures var asked := Transfer(m, p, etag, replies).1;
      && |asked| <= |replies|
      && (forall i | 0 <= i < |asked| :: Answered(replies[i], asked[i], i == |asked| - 1))
      && (etag.Some? ==> m.etag == etag && forall i | 0 <= i < |asked| :: replies[i].value.etag == etag)
    decreases |replies|
  {
    var asked := Transfer(m, p, etag, replies).1;
    if asked != [] {
      var q := HandleBlock(m, p).progress;
      ResultUsedConsecutiveBlocks(replies[0].value, q, etag, replies[1..]);
      var rest := Transfer(replies[0].value, q, etag, replies[1..]).1;
      assert asked == [asked[0]] + rest;
      forall i | 0 <= i < |asked| ensures Answered(replies[i], asked[i], i == |asked| - 1) {
        if i > 0 {
          assert replies[i] == replies[1..][i - 1] && asked[i] == rest[i - 1];
        }
      }
      if etag.Some? {
        forall i | 0 <= i < |asked| ensures replies[i].value.etag == etag {
          if i > 0 {
            assert replies[i] == replies[1..][i - 1];
          }
        }
      }
    }
  }

  // The response to the last request of a transfer that got them all answered.
  function LastResponse(m: Message, asked: seq<BlockValue>, replies: seq<IoResult<Message>>): Message
    requires asked != [] ==> |asked| <= |replies| && replies[|asked| - 1].Ok?
  {
    if asked == [] then m else replies[|asked| - 1].value
  }

  // A response and what was assembled under it: the block it holds is in its place.
  predicate EndsWith(full: Message, last: Message)
    requires last.block2.Block?
  {
    var start := Offset(last.block2.value);
    && full == last.(payload := full.payload)
    && start + |last.payload| <= |full.payload| && full.payload[start..start + |last.payload|] == last.payload
  }

  lemma CompletedBy(m: Message, p: Progress)
    requires HandleBlock(m, p).Complete?
    ensures if m.block2.Block? then !m.block2.value.more && EndsWith(HandleBlock(m, p).message, m)
            else HandleBlock(m, p).message == m
  {
    if m.block2.Block? {
      var start := Offset(m.block2.value);
      SplicedIn(Cached(p), start, start + m.block2.value.Size(), m.payload, MAX_EXTENSION);
    }
  }

  lemma SplicedIn(bytes: Bytes, start: nat, end: nat, src: Bytes, limit: nat)
    requires start <= end && ExtendingSplice(bytes, start, end, src, limit).Some?
    ensures var r := ExtendingSplice(bytes, start, end, src, limit).value;
      start + |src| <= |r| && r[start..start + |src|] == src
  {
  }

  /** The last response decides what a transfer returns. If it has no readable Block2 option, it is returned as it
      is, whatever was assembled before; otherwise it announces no other block, and what is returned is that response
      around everything assembled, its own block included. */
  lemma {:induction false} LastResponseDecides(m: Message, p: Progress, etag: Option<Bytes>,
                                               replies: seq<IoResult<Message>>)
    requires Transfer(m, p, etag, replies).0.Ok?
    ensures var (result, asked) := Transfer(m, p, etag, replies);
      && |asked| <= |replies| && (asked != [] ==> replies[|asked| - 1].Ok?)
      && var last := LastResponse(m, asked, replies);
         if last.block2.Block? then !last.block2.value.more && EndsWith(result.value, last) else result == Ok(last)
    decreases |replies|
  {
    hide HandleBlock, Transfer, EndsWith;
    TransferOnce(m, p, etag, replies);
    if HandleBlock(m, p).Complete? {
      CompletedBy(m, p);
    } else {
      LastResponseDecides(replies[0].value, HandleBlock(m, p).progress, etag, replies[1..]);
      var asked := Transfer(m, p, etag, replies).1;
      var rest := Transfer(replies[0].value, HandleBlock(m, p).progress, etag, replies[1..]).1;
      assert |asked| == |rest| + 1;
      assert rest != [] ==> replies[|asked| - 1] == replies[1..][|rest| - 1];
    }
  }

  /** The input: two responses, the second without a Block2 option. The transfer ends there, and what it returns is
      the second alone, even though the first announced more; with or without an expected ETag. */
  lemma MidTransferIsCutShort(m: Message, payload: Bytes, e: Exponent, etag: Option<Bytes>, reply: Message)
    requires Continues(Ok(m), payload, e, 0, etag) && SizeOf(e) < |payload|
    requires !reply.block2.Block? && (etag.Some? ==> reply.etag == etag)
    ensures Transfer(m, Fresh, etag, [Ok(reply)]) == (Ok(reply), [BlockValue(1, false, e)])
  {
    hide SizeOf;
    assert SizeOf(e) * 0 == 0 && SizeOf(e) * (0 + 1) == SizeOf(e);
    HandleNextBlock(m, [], payload, e, 0, Fresh);
    var replies: seq<IoResult<Message>> := [Ok(reply)];
    var q := HandleBlock(m, Fresh).progress;
    TransferEnds(reply, q, etag, replies[1..], reply);
    TransferContinues(m, Fresh, etag, replies, q, BlockValue(1, false, e));
    assert [BlockValue(1, false, e)] + [] == [BlockValue(1, false, e)];
  }

  /** The requests of a transfer ask for consecutive block numbers modulo 2^16, so a transfer that never
      wraps back to block 0 ends within 65535 requests. */
  lemma {:induction false} AskedClosedForm(m: Message, p: Progress, etag: Option<Bytes>,
                                           replies: seq<IoResult<Message>>, i: nat)
    requires i < |Transfer(m, p, etag, replies).1|
    ensures m.block2.Block?
    ensures Transfer(m, p, etag, replies).1[i].num == (m.block2.value.num + i + 1) % 0x1_0000
  {
    AskedFollow(m, p, etag, replies);
    if i > 0 {
      AskedClosedForm(m, p, etag, replies, i - 1);
      WrapStep(m.block2.value.num + i);
    } else {
      WrapStep(m.block2.value.num);
    }
  }

  lemma WrapStep(x: nat)
    ensures Successor(x % 0x1_0000) == (x + 1) % 0x1_0000
  {
  }

  lemma TransferIsBounded(m: Message, p: Progress, etag: Option<Bytes>, replies: seq<IoResult<Message>>)
    requires var asked := Transfer(m, p, etag, replies).1; forall i | 0 <= i < |asked| :: asked[i].num != 0
    ensures Transfer(m, p, etag, replies).1 != [] ==>
      m.block2.Block? && |Transfer(m, p, etag, replies).1| + m.block2.value.num <= 0xFFFF
  {
    var asked := Transfer(m, p, etag, replies).1;
    if asked != [] {
      AskedFollow(m, p, etag, replies);
      var start := m.block2.value.num;
      if |asked| + start > 0xFFFF {
        AskedClosedForm(m, p, etag, replies, 0xFFFF - start);
        assert false;
      }
    }
  }

  // ---------------------------------------------------------------- a changing resource

  /** What a server holding a resource with this version history may answer to a block fetch: nothing
      usable, a response without an ETag, or a response under the ETag of some version, which then is the
      block asked for of that version, as far as that version reaches. Which version is left open, so
      any number of PUTs may fall between two fetches. */
  ghost predicate Answers(reply: IoResult<Message>, asked: BlockValue, versions: seq<Bytes>) {
    reply.Ok? && reply.value.etag.Some? ==>
      exists v | 0 <= v < |versions| ::
        && reply.value.etag.value == EtagOf(versions[v])
        && (SizeOf(asked.exponent) * asked.num < |versions[v]| ==>
              IsBlockOf(reply.value, versions[v], asked.exponent, asked.num))
  }

  // No other version of the resource shares this one's ETag.
  ghost predicate EtagNames(payload: Bytes, versions: seq<Bytes>) {
    forall v | 0 <= v < |versions| :: EtagOf(versions[v]) == EtagOf(payload) ==> versions[v] == payload
  }

  ghost predicate AllAnswer(replies: seq<IoResult<Message>>, asked: seq<BlockValue>, versions: seq<Bytes>) {
    forall i | 0 <= i < |asked| && i < |replies| :: Answers(replies[i], asked[i], versions)
  }

  // A transfer under way with version `payload`: response `m` is its block `k`.
  predicate InTransfer(m: Message, payload: Bytes, e: Exponent, k: U16) {
    IsBlockOf(m, payload, e, k) && m.etag == Some(EtagOf(payload))
  }

  lemma NextAnswer(reply: IoResult<Message>, payload: Bytes, e: Exponent, k: U16, versions: seq<Bytes>)
    requires Answers(reply, BlockValue(k, false, e), versions) && EtagNames(payload, versions)
    requires reply.Ok? && reply.value.etag == Some(EtagOf(payload)) && SizeOf(e) * k < |payload|
    ensures InTransfer(reply.value, payload, e, k)
  {
  }

  lemma TransferUnfolds(m: Message, p: Progress, payload: Bytes, replies: seq<IoResult<Message>>, q: Progress,
      next: BlockValue)
    requires m.etag == Some(EtagOf(payload)) && HandleBlock(m, p) == More(q, next)
    ensures var (result, asked) := Transfer(m, p, m.etag, replies);
      && |asked| > 0 && asked[0] == next
      && (result.Ok? ==> replies != [] && replies[0].Ok?
                         && result == Transfer(replies[0].value, q, m.etag, replies[1..]).0
                         && asked == [next] + Transfer(replies[0].value, q, m.etag, replies[1..]).1)
  {
  }

  lemma {:induction false} OkNeedsEtag(m: Message, p: Progress, etag: Option<Bytes>, replies: seq<IoResult<Message>>)
    requires etag.Some? && Transfer(m, p, etag, replies).0.Ok?
    ensures m.etag == etag
  {
  }

  lemma RestAnswers(replies: seq<IoResult<Message>>, asked: seq<BlockValue>, versions: seq<Bytes>)
    requires AllAnswer(replies, asked, versions) && replies != [] && asked != []
    ensures Answers(replies[0], asked[0], versions) && AllAnswer(replies[1..], asked[1..], versions)
  {
    forall i | 0 <= i < |asked[1..]| && i < |replies[1..]| ensures Answers(replies[1..][i], asked[1..][i], versions) {
      assert Answers(replies[i + 1], asked[i + 1], versions);
    }
  }

  // A version too long for 2^16 blocks never completes: every block of it announces another.
  lemma {:induction false} OversizedNeverCompletes(m: Message, p: Progress, payload: Bytes, e: Exponent, k: U16,
                                                   replies: seq<IoResult<Message>>, versions: seq<Bytes>)
    requires InTransfer(m, payload, e, k) && EtagNames(payload, versions) && |payload| > SizeOf(e) * 0x1_0000
    requires AllAnswer(replies, Transfer(m, p, m.etag, replies).1, versions)
    ensures Transfer(m, p, m.etag, replies).0.Err?
    decreases |replies|
  {
    hide Answers, EtagNames, AllAnswer, SizeOf, Chunk;
    var (result, asked) := Transfer(m, p, m.etag, replies);
    if result.Ok? {
      OversizedContinues(m, p, payload, e, k);
      assert HandleBlock(m, p).More?;
      var q, next := HandleBlock(m, p).progress, BlockValue(Successor(k), false, e);
      TransferUnfolds(m, p, payload, replies, q, next);
      RestAnswers(replies, asked, versions);
      OkNeedsEtag(replies[0].value, q, m.etag, replies[1..]);
      NextAnswer(replies[0], payload, e, Successor(k), versions);
      assert asked[1..] == Transfer(replies[0].value, q, m.etag, replies[1..]).1;
      OversizedNeverCompletes(replies[0].value, q, payload, e, Successor(k), replies[1..], versions);
    }
  }

  lemma OversizedContinues(m: Message, p: Progress, payload: Bytes, e: Exponent, k: U16)
    requires IsBlockOf(m, payload, e, k) && |payload| > SizeOf(e) * 0x1_0000
    ensures HandleBlock(m, p).Failed?
         || HandleBlock(m, p) == More(HandleBlock(m, p).progress, BlockValue(Successor(k), false, e))
    ensures SizeOf(e) * Successor(k) < |payload|
  {
    assert SizeOf(e) * (k + 1) <= SizeOf(e) * 0x1_0000;
    assert SizeOf(e) * Successor(k) <= SizeOf(e) * 0x1_0000;
  }

  lemma {:induction false} TransferKeepsToOneVersion(m: Message, p: Progress, payload: Bytes, e: Exponent, k: U16,
                                                     replies: seq<IoResult<Message>>, versions: seq<Bytes>)
    requires InTransfer(m, payload, e, k) && Holds(p, [], payload, e, k)
    requires EtagNames(payload, versions) && |payload| <= SizeOf(e) * 0x1_0000
    requires AllAnswer(replies, Transfer(m, p, m.etag, replies).1, versions)
    ensures Transfer(m, p, m.etag, replies).0.Ok? ==> Transfer(m, p, m.etag, replies).0.value.payload == payload
    decreases |replies|
  {
    hide Answers, EtagNames, AllAnswer, HandleBlock, SizeOf, Chunk;
    var (result, asked) := Transfer(m, p, m.etag, replies);
    if result.Ok? {
      HandleNextBlock(m, [], payload, e, k, p);
      if SizeOf(e) * (k + 1) < |payload| {
        NumberFits(e, k, |payload|);
        var next := BlockValue(Successor(k), false, e);
        var q := Progress(Some([] + payload[0..SizeOf(e) * (k + 1)]), Some(Successor(k)));
        TransferUnfolds(m, p, payload, replies, q, next);
        RestAnswers(replies, asked, versions);
        OkNeedsEtag(replies[0].value, q, m.etag, replies[1..]);
        NextAnswer(replies[0], payload, e, k + 1, versions);
        HoldsNext([], payload, e, k);
        assert asked[1..] == Transfer(replies[0].value, q, m.etag, replies[1..]).1;
        TransferKeepsToOneVersion(replies[0].value, q, payload, e, k + 1, replies[1..], versions);
      } else {
        assert [] + payload[0..|payload|] == payload;
      }
    }
  }

  lemma NumberFits(e: Exponent, k: U16, length: nat)
    requires SizeOf(e) * (k + 1) < length <= SizeOf(e) * 0x1_0000
    ensures k < 0xFFFF && Successor(k) == k + 1
  {
  }

  /** With PUTs between any two block fetches, an ETag-checked transfer that starts with block 0 of a
      version ends in an error or with exactly that version, never a mixture. */
  lemma NeverMixesVersions(m: Message, payload: Bytes, e: Exponent, replies: seq<IoResult<Message>>,
      versions: seq<Bytes>)
    requires InTransfer(m, payload, e, 0) && EtagNames(payload, versions)
    requires AllAnswer(replies, Transfer(m, Fresh, m.etag, replies).1, versions)
    ensures Transfer(m, Fresh, m.etag, replies).0.Ok? ==> Transfer(m, Fresh, m.etag, replies).0.value.payload == payload
  {
    if |payload| > SizeOf(e) * 0x1_0000 {
      OversizedNeverCompletes(m, Fresh, payload, e, 0, replies, versions);
    } else {
      TransferKeepsToOneVersion(m, Fresh, payload, e, 0, replies, versions);
    }
  }

  // A transfer that holds the blocks up to `k` and is broken off after `j` more.
  lemma {:induction false} TransferBreaksOff(m: Message, prefix: Bytes, payload: Bytes, e: Exponent, k: U16,
                                                 p: Progress, etag: Option<Bytes>, replies: seq<IoResult<Message>>,
                                                 j: nat)
    requires Continues(Ok(m), payload, e, k, etag) && Holds(p, prefix, payload, e, k)
    requires Supplies(replies, payload, e, k + 1, j, etag) && SizeOf(e) * (k + j + 1) < |payload|
    ensures j <= |replies|
    ensures var (result, asked) := Transfer(m, p, etag, replies);
      && (j == |replies| ==> result == Err(TimedOut) && |asked| == j + 1)
      && (j < |replies| && BrokenOff(replies[j], etag, (k + j + 1) % 0x1_0000).Some? ==>
            result == BrokenOff(replies[j], etag, (k + j + 1) % 0x1_0000).value && |asked| == j + 1)
    decreases j
  {
    hide SizeOf, HandleBlock, Chunk, IsBlockOf, Transfer, Supplies;
    NotTheEnd(e, k, j, |payload|);
    HandleNextBlock(m, prefix, payload, e, k, p);
    var next := BlockValue(Successor(k), false, e);
    var q := Progress(Some(prefix + payload[|prefix|..SizeOf(e) * (k + 1)]), Some(Successor(k)));
    assert HandleBlock(m, p) == More(q, next);
    SuppliesEnough(replies, payload, e, k + 1, j, etag);
    if j == 0 {
      TransferOnce(m, p, etag, replies);
      WrapStep(k);
      if replies != [] && replies[0].Ok? {
        TransferContinues(m, p, etag, replies, q, next);
        if BrokenOff(replies[0], etag, Successor(k)).Some? {
          BrokenOffAtOnce(replies[0].value, q, etag, replies[1..], Successor(k));
        }
      }
    } else {
      SuppliesRest(replies, payload, e, k + 1, j, etag);
      HoldsNext(prefix, payload, e, k);
      TransferBreaksOff(replies[0].value, prefix, payload, e, k + 1, q, etag, replies[1..], j - 1);
      TransferContinues(m, p, etag, replies, q, next);
    }
  }

  // What a reply to the fetch of block `num` is worth if it is not that block: None if it may be.
  function BrokenOff(reply: IoResult<Message>, etag: Option<Bytes>, num: nat): Option<IoResult<Message>> {
    if reply.Err? then Some(reply)
    else if etag.Some? && reply.value.etag != etag then Some(Err(InvalidData))
    else if !reply.value.block2.Block? then Some(reply)
    else if reply.value.block2.value.num != num then Some(Err(Interrupted))
    else None
  }

  lemma BrokenOffAtOnce(m: Message, q: Progress, etag: Option<Bytes>, replies: seq<IoResult<Message>>, num: U16)
    requires q.expected == Some(num) && BrokenOff(Ok(m), etag, num).Some?
    ensures Transfer(m, q, etag, replies) == (BrokenOff(Ok(m), etag, num).value, [])
  {
  }

  /** How a transfer ends before its last block: `j` fetches were answered with the blocks asked for, and the next one
      is not. A lost reply is a timeout and an error is passed on; another ETag is InvalidData; a block of another
      number is Interrupted; and a response without a readable Block2 option is the result. Nothing more is asked
      for then. */
  lemma TransferEndsEarly(m: Message, payload: Bytes, e: Exponent, etag: Option<Bytes>, replies: seq<IoResult<Message>>,
                          j: nat)
    requires Continues(Ok(m), payload, e, 0, etag) && Supplies(replies, payload, e, 1, j, etag)
    requires SizeOf(e) * (j + 1) < |payload|
    ensures j <= |replies|
    ensures var (result, asked) := Transfer(m, Fresh, etag, replies);
      if j == |replies| then result == Err(TimedOut) && |asked| == j + 1
      else if replies[j].Err? then result == replies[j] && |asked| == j + 1
      else
        var reply := replies[j].value;
        if etag.Some? && reply.etag != etag then result == Err(InvalidData) && |asked| == j + 1
        else
          && (!reply.block2.Block? ==> result == Ok(reply) && |asked| == j + 1)
          && (reply.block2.Block? && reply.block2.value.num != (j + 1) % 0x1_0000 ==>
                result == Err(Interrupted) && |asked| == j + 1)
  {
    hide Transfer, Supplies;
    assert SizeOf(e) * 0 == 0;
    NotTheEnd(e, 0, j, |payload|);
    assert [] + payload[0..0] == [];
    TransferBreaksOff(m, [], payload, e, 0, Fresh, etag, replies, j);
  }

  lemma NotTheEnd(e: Exponent, k: nat, j: nat, length: nat)
    requires SizeOf(e) * (k + j + 1) < length
    ensures SizeOf(e) * (k + 1) < length
  {
    assert SizeOf(e) * (k + j + 1) == SizeOf(e) * (k + 1) + SizeOf(e) * j;
  }

  /** A change that shows is reported, at whatever fetch: when the answers were blocks of one version under its ETag
      and then one carries another ETag, or none, the handler gets InvalidData at once, whatever its block holds. */
  lemma ChangeIsReported(m: Message, payload: Bytes, e: Exponent, replies: seq<IoResult<Message>>, j: nat)
    requires InTransfer(m, payload, e, 0) && SizeOf(e) * (j + 1) < |payload|
    requires Supplies(replies, payload, e, 1, j, m.etag)
    requires j < |replies| && replies[j].Ok? && replies[j].value.etag != m.etag
    ensures Delivery(Ok(m), replies) == Some(Err(InvalidData)) && |Transfer(m, Fresh, m.etag, replies).1| == j + 1
  {
    hide Transfer, Supplies;
    assert SizeOf(e) * 0 == 0;
    NotTheEnd(e, 0, j, |payload|);
    assert [] + payload[0..0] == [];
    TransferBreaksOff(m, [], payload, e, 0, Fresh, m.etag, replies, j);
  }

  /** The distinctness of ETags is needed: when the resource changes from `payload` to a two-block `other` of
      the same ETag after block 0, the client accepts block 1 of the other and delivers the mixture, which is
      either version only if the two agree in that part. */
  lemma CollidingEtagsMix(m: Message, payload: Bytes, e: Exponent, other: Bytes, reply: Message)
    requires InTransfer(m, payload, e, 0) && EtagOf(other) == EtagOf(payload)
    requires SizeOf(e) < |payload| && SizeOf(e) < |other| <= SizeOf(e) * 2
    requires InTransfer(reply, other, e, 1)
    ensures AllAnswer([Ok(reply)], Transfer(m, Fresh, m.etag, [Ok(reply)]).1, [payload, other])
    ensures var result := Transfer(m, Fresh, m.etag, [Ok(reply)]).0;
      && result.Ok? && result.value.payload == payload[..SizeOf(e)] + other[SizeOf(e)..]
      && (result.value.payload == payload <==> other[SizeOf(e)..] == payload[SizeOf(e)..])
      && (result.value.payload == other <==> payload[..SizeOf(e)] == other[..SizeOf(e)])
  {
    hide SizeOf, EtagOf;
    var size := SizeOf(e);
    var q := payload[..size];
    assert size * 0 == 0 && size * (0 + 1) == size && size * (1 + 1) == size * 2 && size * 1 == size;
    assert [] + payload[0..size] == q;
    HandleNextBlock(m, [], payload, e, 0, Fresh);
    HandleNextBlock(reply, q, other, e, 1, Progress(Some(q), Some(1))) by {
      assert q + other[size..size] == q;
    }
    assert other[size..|other|] == other[size..];
    assert [payload, other][1] == other;
    var replies: seq<IoResult<Message>> := [Ok(reply)];
    assert replies[1..] == [];
    SpliceOfTwo(payload, other, size);
  }

  lemma SpliceOfTwo(a: Bytes, b: Bytes, n: nat)
    requires n <= |a| && n <= |b|
    ensures a[..n] + b[n..] == a <==> b[n..] == a[n..]
    ensures a[..n] + b[n..] == b <==> a[..n] == b[..n]
  {
    assert a[..n] + a[n..] == a && b[..n] + b[n..] == b;
    if a[..n] + b[n..] == a {
      assert (a[..n] + b[n..])[n..] == b[n..];
    }
    if a[..n] + b[n..] == b {
      assert (a[..n] + b[n..])[..n] == a[..n];
    }
  }
}
