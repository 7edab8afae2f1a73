/** What chunked uploads promise: what was acknowledged, what the server can have put together, and when that is
    the payload. */
module UploadLaws {
  import opened Coap
  import opened BlockSpec
  import opened BlockLaws

  function Chunks(payload: Bytes, size: nat, n: nat): Bytes {
    if n == 0 then [] else Chunks(payload, size, n - 1) + Chunk(payload, size, n - 1)
  }

  lemma {:induction false} ChunksArePrefixes(payload: Bytes, size: nat, n: nat)
    ensures Chunks(payload, size, n) == payload[..Min(size * n, |payload|)]
  {
    if n > 0 {
      ChunksArePrefixes(payload, size, n - 1);
      assert size * (n - 1) <= size * n;
    }
  }

  lemma CountCovers(length: nat, size: nat)
    requires size > 0
    ensures size * ChunkCount(length, size) >= length
  {
    assert (length + size - 1) / size * size + (length + size - 1) % size == length + size - 1;
  }

  /** The chunks of a payload, in order, are the payload. */
  lemma ChunksRebuild(payload: Bytes, size: nat)
    requires size > 0
    ensures Chunks(payload, size, ChunkCount(|payload|, size)) == payload
  {
    ChunksArePrefixes(payload, size, ChunkCount(|payload|, size));
    CountCovers(|payload|, size);
  }

  // The response to call `j` of the upload acknowledges chunk `num`.
  predicate Acks(reply: IoResult<Message>, num: nat) {
    reply.Ok? && reply.value.block1.Block? && reply.value.block1.value.num == num
  }

  /** An upload that succeeds never reports 2.31 Continue, and got every chunk it sent acknowledged by
      number, and at its own size if another followed: either all of them, or all up to one the server
      answered early. */
  lemma {:induction false} UploadWasAcknowledged(payload: Bytes, size: nat, i: nat, replies: seq<IoResult<Message>>)
    requires size > 0 && i < ChunkCount(|payload|, size)
    requires Upload(payload, size, i, replies).0.Ok?
    ensures var (result, sent) := Upload(payload, size, i, replies);
      && !result.value.status.Continue?
      && 0 < sent <= |replies| && i + sent <= ChunkCount(|payload|, size)
      && replies[sent - 1] == result
      && (forall j | 0 <= j < sent :: Acks(replies[j], i + j))
      && (forall j | 0 <= j < sent - 1 ::
            replies[j].value.status.Continue? && replies[j].value.block1.value.exponent == ExponentFor(size))
    decreases |replies|
  {
    var (result, sent) := Upload(payload, size, i, replies);
    var block := BlockValue(i, i + 1 < ChunkCount(|payload|, size), ExponentFor(size));
    if JudgeAck(replies[0].value, block).Proceed? {
      UploadWasAcknowledged(payload, size, i + 1, replies[1..]);
      forall j | 0 <= j < sent
        ensures Acks(replies[j], i + j)
        ensures j < sent - 1 ==>
          replies[j].value.status.Continue? && replies[j].value.block1.value.exponent == ExponentFor(size)
      {
        if j > 0 {
          assert replies[j] == replies[1..][j - 1];
          assert Acks(replies[1..][j - 1], (i + 1) + (j - 1));
        }
      }
    }
  }

  // What arrives was sent: the network may lose, repeat and reorder requests, but not invent them.
  ghost predicate WasSent(r: Received, payload: Bytes, size: nat, sent: nat)
    requires size > 0
  {
    r.block1.num < sent && r == OnTheWire(payload, size, r.block1.num)
  }

  // The server acknowledges a chunk only after receiving it.
  ghost predicate AcksOnlyReceived(replies: seq<IoResult<Message>>, received: seq<Received>) {
    forall j, num | 0 <= j < |replies| && Acks(replies[j], num) ::
      HasChunk(received, num)
  }

  ghost predicate HasChunk(received: seq<Received>, num: nat) {
    exists r :: r in received && r.block1.num == num
  }

  /** Section 2.2 of RFC 7959: a block starts at its number times its declared size. */
  function Place(body: Bytes, r: Received): Bytes {
    ExtendingSplice(body, Offset(r.block1), Offset(r.block1) + r.block1.Size(), r.payload,
                    Offset(r.block1) + r.block1.Size()).value
  }

  // What the server has put together, block by block as they came in.
  ghost function Body(received: seq<Received>): Bytes {
    if received == [] then [] else Place(Body(received[..|received| - 1]), received[|received| - 1])
  }

  /** How the server knows that it has everything: a block that announces no other, and all before it. */
  ghost predicate Whole(received: seq<Received>) {
    exists r :: r in received && IsFinal(received, r)
  }

  ghost predicate IsFinal(received: seq<Received>, r: Received) {
    !r.block1.more && forall num | 0 <= num <= r.block1.num :: HasChunk(received, num)
  }

  // Where chunk `num` starts.
  function StartOf(size: nat, num: nat): nat {
    size * num
  }

  // The bytes of chunk `num` are in their place.
  ghost predicate Covers(body: Bytes, payload: Bytes, size: nat, num: nat) {
    forall i | StartOf(size, num) <= i < StartOf(size, num + 1) && i < |payload| :: i < |body| && body[i] == payload[i]
  }

  ghost predicate IsMultiple(n: nat, size: nat) {
    exists j: nat :: n == size * j
  }

  // The body ends with a chunk, whichever chunks it holds.
  ghost predicate EndsWithChunk(body: Bytes, payload: Bytes, size: nat) {
    |body| == |payload| || (|body| < |payload| && IsMultiple(|body|, size))
  }

  ghost predicate Agrees(body: Bytes, payload: Bytes, size: nat, received: seq<Received>) {
    EndsWithChunk(body, payload, size) && forall r | r in received :: Covers(body, payload, size, r.block1.num)
  }

  lemma NoMultipleBetween(n: nat, size: nat, k: nat)
    requires IsMultiple(n, size) && n > size * k
    ensures n >= size * (k + 1)
  {
    var j: nat :| n == size * j;
    Monotone(size, j, k);
    Monotone(size, k + 1, j);
  }

  lemma Monotone(size: nat, j: nat, k: nat)
    ensures j <= k ==> size * j <= size * k
  {
    if j <= k {
      Distribute(size, j, k - j);
    }
  }

  lemma Distribute(size: nat, j: nat, k: nat)
    ensures size * (j + k) == size * j + size * k
  {
  }

  // The chunk a body takes in, and where.
  function Placed(body: Bytes, payload: Bytes, start: nat, end: nat): Bytes
    requires start <= end <= |payload| && (|body| > start ==> end <= |body|)
  {
    if |body| <= start then body + Zeros(start - |body|) + payload[start..end]
    else body[..start] + payload[start..end] + body[end..]
  }

  lemma SpliceIs(body: Bytes, payload: Bytes, start: nat, size: nat)
    requires start < |payload| && size > 0
    requires |body| <= start || |body| == |payload| || start + size <= |body| <= |payload|
    ensures var end := Min(start + size, |payload|);
      ExtendingSplice(body, start, start + size, payload[start..end], start + size).value
          == Placed(body, payload, start, end)
  {
    if |body| <= start {
    } else if |body| < start + size {
      var extended := body + Zeros(start + size - |body|);
      assert extended[..start] == body[..start] && extended[start + size..] == [] == body[|payload|..];
    } else {
      assert body + Zeros(0) == body;
    }
  }

  lemma RoomFor(body: Bytes, payload: Bytes, size: nat, num: nat)
    requires size > 0 && EndsWithChunk(body, payload, size)
    ensures size * (num + 1) == size * num + size
    ensures |body| <= size * num || |body| == |payload| || size * (num + 1) <= |body| <= |payload|
  {
    assert size * (num + 1) == size * num + size;
    if |body| < |payload| && |body| > size * num {
      NoMultipleBetween(|body|, size, num);
    }
  }

  lemma PlaceIs(body: Bytes, payload: Bytes, size: nat, num: U16)
    requires ValidBlockSize(size) && num < ChunkCount(|payload|, size) && EndsWithChunk(body, payload, size)
    ensures StartOf(size, num) < |payload| && StartOf(size, num + 1) == StartOf(size, num) + size
    ensures var end := Min(StartOf(size, num + 1), |payload|);
      && (|body| > StartOf(size, num) ==> end <= |body|)
      && Place(body, OnTheWire(payload, size, num)) == Placed(body, payload, StartOf(size, num), end)
  {
    hide EndsWithChunk, ExtendingSplice, ChunkCount;
    ChunkStarts(|payload|, size, num);
    RoomFor(body, payload, size, num);
    var r := OnTheWire(payload, size, num);
    assert r.block1.num == num && r.block1.Size() == size && Offset(r.block1) == num * size == size * num;
    SpliceIs(body, payload, size * num, size);
  }

  lemma ChunkStarts(length: nat, size: nat, num: nat)
    requires size > 0 && num < ChunkCount(length, size)
    ensures size * num < length
  {
    var n := ChunkCount(length, size);
    DivisionBounds(length + size - 1, size);
    Distribute(size, n - 1, 1);
    Monotone(size, num, n - 1);
  }

  lemma PlacedAt(body: Bytes, payload: Bytes, start: nat, end: nat, i: nat)
    requires start <= end <= |payload| && (|body| > start ==> end <= |body|)
    requires (i < |body| && i < |payload| && body[i] == payload[i]) || start <= i < end
    ensures i < |Placed(body, payload, start, end)| && Placed(body, payload, start, end)[i] == payload[i]
  {
  }

  lemma PlacedCovers(body: Bytes, payload: Bytes, size: nat, num: nat, other: nat)
    requires StartOf(size, num) < |payload| && StartOf(size, num) <= StartOf(size, num + 1)
    requires |body| > StartOf(size, num) ==> Min(StartOf(size, num + 1), |payload|) <= |body|
    requires Covers(body, payload, size, other) || other == num
    ensures Covers(Placed(body, payload, StartOf(size, num), Min(StartOf(size, num + 1), |payload|)), payload, size,
        other)
  {
    hide StartOf, Placed;
    var start, end := StartOf(size, num), Min(StartOf(size, num + 1), |payload|);
    forall i | StartOf(size, other) <= i < StartOf(size, other + 1) && i < |payload|
      ensures i < |Placed(body, payload, start, end)| && Placed(body, payload, start, end)[i] == payload[i]
    {
      if other != num {
        CoveredAt(body, payload, size, other, i);
      }
      PlacedAt(body, payload, start, end, i);
    }
    assert Covers(Placed(body, payload, start, end), payload, size, other);
  }

  lemma PlaceKeepsCovered(body: Bytes, payload: Bytes, size: nat, num: U16, other: nat)
    requires ValidBlockSize(size) && num < ChunkCount(|payload|, size) && EndsWithChunk(body, payload, size)
    requires Covers(body, payload, size, other) || other == num
    ensures Covers(Place(body, OnTheWire(payload, size, num)), payload, size, other)
  {
    hide Place, ChunkCount, EndsWithChunk, Placed, OnTheWire, StartOf, Covers;
    PlaceIs(body, payload, size, num);
    PlacedCovers(body, payload, size, num, other);
  }

  lemma StartIsMultiple(size: nat, num: nat)
    ensures IsMultiple(StartOf(size, num), size)
  {
  }

  lemma PlacedLength(body: Bytes, payload: Bytes, start: nat, end: nat)
    requires start <= end <= |payload| && (|body| > start ==> end <= |body|)
    ensures |Placed(body, payload, start, end)| == if |body| <= start then end else |body|
  {
  }

  lemma PlaceEndsWithChunk(body: Bytes, payload: Bytes, size: nat, num: U16)
    requires ValidBlockSize(size) && num < ChunkCount(|payload|, size) && EndsWithChunk(body, payload, size)
    ensures EndsWithChunk(Place(body, OnTheWire(payload, size, num)), payload, size)
  {
    hide Place, ChunkCount, Placed, OnTheWire, StartOf, IsMultiple;
    PlaceIs(body, payload, size, num);
    PlacedLength(body, payload, StartOf(size, num), Min(StartOf(size, num + 1), |payload|));
    StartIsMultiple(size, num + 1);
  }

  lemma {:induction false} BodyAgrees(received: seq<Received>, payload: Bytes, size: nat, sent: nat)
    requires ValidBlockSize(size) && 0 < ChunkCount(|payload|, size)
    requires sent <= ChunkCount(|payload|, size)
    requires forall r | r in received :: WasSent(r, payload, size, sent)
    ensures Agrees(Body(received), payload, size, received)
    decreases |received|
  {
    hide ChunkCount, Covers, EndsWithChunk, Place, OnTheWire;
    if received == [] {
      NothingPlaced(payload, size);
    } else {
      var front, last := received[..|received| - 1], received[|received| - 1];
      assert last in received && WasSent(last, payload, size, sent);
      forall r | r in front ensures WasSent(r, payload, size, sent) {
        assert r in received;
      }
      BodyAgrees(front, payload, size, sent);
      PlaceEndsWithChunk(Body(front), payload, size, last.block1.num);
      forall r | r in received ensures Covers(Body(received), payload, size, r.block1.num) {
        assert r in front || r == last;
        PlaceKeepsCovered(Body(front), payload, size, last.block1.num, r.block1.num);
      }
    }
  }

  lemma NothingPlaced(payload: Bytes, size: nat)
    ensures EndsWithChunk([], payload, size)
  {
    assert 0 == size * 0;
  }

  lemma CoveredIsWhole(body: Bytes, payload: Bytes, size: nat)
    requires size > 0 && EndsWithChunk(body, payload, size)
    requires forall num | 0 <= num < ChunkCount(|payload|, size) :: Covers(body, payload, size, num)
    ensures body == payload
  {
    forall i | 0 <= i < |payload| ensures i < |body| && body[i] == payload[i] {
      ByteInPlace(body, payload, size, i);
    }
    if payload != [] {
      ByteInPlace(body, payload, size, |payload| - 1);
    }
  }

  lemma ByteInPlace(body: Bytes, payload: Bytes, size: nat, i: nat)
    requires size > 0 && i < |payload|
    requires forall num | 0 <= num < ChunkCount(|payload|, size) :: Covers(body, payload, size, num)
    ensures i < |body| && body[i] == payload[i]
  {
    hide ChunkCount, StartOf, Covers;
    var num := InSomeChunk(|payload|, size, i);
    CoveredAt(body, payload, size, num, i);
  }

  lemma CoveredAt(body: Bytes, payload: Bytes, size: nat, num: nat, i: nat)
    requires Covers(body, payload, size, num) && StartOf(size, num) <= i < StartOf(size, num + 1) && i < |payload|
    ensures i < |body| && body[i] == payload[i]
  {
    hide StartOf;
  }

  lemma DivisionBounds(i: nat, size: nat)
    requires size > 0
    ensures size * (i / size) <= i < size * (i / size) + size
  {
  }

  lemma InSomeChunk(length: nat, size: nat, i: nat) returns (num: nat)
    requires size > 0 && i < length
    ensures num < ChunkCount(length, size) && StartOf(size, num) <= i < StartOf(size, num + 1)
  {
    hide ChunkCount;
    num := i / size;
    DivisionBounds(i, size);
    CountExceeds(length, size, num, i);
    Distribute(size, num, 1);
  }

  lemma CountExceeds(length: nat, size: nat, num: nat, i: nat)
    requires size > 0 && size * num <= i < length
    ensures num < ChunkCount(length, size)
  {
    hide ChunkCount;
    CountCovers(length, size);
    Monotone(size, ChunkCount(length, size), num);
  }

  /** A server that has every block up to one that announces no other has the payload: however often and in
      whatever order the blocks came in, it never takes a part for the whole. */
  lemma WholeIsPayload(received: seq<Received>, payload: Bytes, size: nat, sent: nat)
    requires ValidBlockSize(size) && 0 < ChunkCount(|payload|, size)
    requires sent <= ChunkCount(|payload|, size)
    requires forall r | r in received :: WasSent(r, payload, size, sent)
    requires Whole(received)
    ensures sent == ChunkCount(|payload|, size) && Body(received) == payload
  {
    hide ChunkCount, Covers, EndsWithChunk, Body;
    BodyAgrees(received, payload, size, sent);
    var final :| final in received && IsFinal(received, final);
    assert WasSent(final, payload, size, sent);
    forall num | 0 <= num < ChunkCount(|payload|, size) ensures Covers(Body(received), payload, size, num) {
      assert HasChunk(received, num);
      var r :| r in received && r.block1.num == num;
    }
    CoveredIsWhole(Body(received), payload, size);
  }

  /** Block1 safety over a lossy, repeating, reordering network: a successful upload ended with an early final
      answer to the chunk just sent, and then the server knows that it lacks some; or the server knows that it
      has everything, and what it put together is the payload. For sizes a Block1 option can declare. */
  lemma UploadIsSafe(payload: Bytes, size: nat, replies: seq<IoResult<Message>>, received: seq<Received>)
    requires ValidBlockSize(size) && 0 < ChunkCount(|payload|, size)
    requires Upload(payload, size, 0, replies).0.Ok?
    requires forall r | r in received :: WasSent(r, payload, size, Upload(payload, size, 0, replies).1)
    requires AcksOnlyReceived(replies, received)
    ensures var (result, sent) := Upload(payload, size, 0, replies);
      && !result.value.status.Continue?
      && 0 < sent <= ChunkCount(|payload|, size) && Acks(result, sent - 1)
      && (Whole(received) <==> sent == ChunkCount(|payload|, size))
      && (Whole(received) ==> Body(received) == payload)
  {
    hide Upload, ChunkCount, WasSent, AcksOnlyReceived, Body, Whole;
    var (result, sent) := Upload(payload, size, 0, replies);
    UploadWasAcknowledged(payload, size, 0, replies);
    assert Acks(replies[sent - 1], 0 + (sent - 1));
    if sent == ChunkCount(|payload|, size) {
      forall num | 0 <= num < sent ensures HasChunk(received, num) {
        assert Acks(replies[num], 0 + num);
        AckedWasReceived(replies, received, num, num);
      }
      AllIsWhole(received, payload, size, sent);
    }
    if Whole(received) {
      WholeIsPayload(received, payload, size, sent);
    }
  }

  lemma AllIsWhole(received: seq<Received>, payload: Bytes, size: nat, sent: nat)
    requires size > 0 && 0 < sent == ChunkCount(|payload|, size)
    requires forall r | r in received :: WasSent(r, payload, size, sent)
    requires forall num | 0 <= num < sent :: HasChunk(received, num)
    ensures Whole(received)
  {
    assert HasChunk(received, sent - 1);
    var r :| r in received && r.block1.num == sent - 1;
    assert WasSent(r, payload, size, sent) && IsFinal(received, r);
  }

  // ---------------------------------------------------------------- sizes that no option can declare

  // The chunks `from` 0 up to `n`, each once and in order.
  ghost function InOrder(payload: Bytes, size: nat, n: nat): (r: seq<Received>)
    requires size > 0 && n <= 0x1_0000
    ensures |r| == n
  {
    if n == 0 then [] else InOrder(payload, size, n - 1) + [OnTheWire(payload, size, n - 1)]
  }

  lemma {:induction false} InOrderWasSent(payload: Bytes, size: nat, n: nat)
    requires size > 0 && n <= 0x1_0000
    ensures forall r | r in InOrder(payload, size, n) :: WasSent(r, payload, size, n)
    ensures forall num | 0 <= num < n :: HasChunk(InOrder(payload, size, n), num)
  {
    if n > 0 {
      InOrderWasSent(payload, size, n - 1);
      var front, last := InOrder(payload, size, n - 1), OnTheWire(payload, size, n - 1);
      assert last in InOrder(payload, size, n) && last.block1.num == n - 1;
      forall num | 0 <= num < n ensures HasChunk(InOrder(payload, size, n), num) {
        if num < n - 1 {
          assert HasChunk(front, num);
          var r :| r in front && r.block1.num == num;
          assert r in InOrder(payload, size, n);
        }
      }
    }
  }

  // The size declared for `size`: the largest power of two not above it, but at least 16.
  lemma DeclaredSize(size: nat)
    requires 0 < size < 4096
    ensures size < 2 * SizeOf(ExponentFor(size))
    ensures SizeOf(ExponentFor(size)) == size <==> ValidBlockSize(size)
  {
  }

  lemma PlaceAtEnd(body: Bytes, r: Received)
    requires |body| <= Offset(r.block1) + r.block1.Size()
    ensures |Place(body, r)| == Offset(r.block1) + |r.payload|
  {
  }

  // Where each chunk ends up on an in-order upload: at its number times the declared size.
  lemma {:induction false} InOrderLength(payload: Bytes, size: nat, n: nat)
    requires 0 < size < 4096 && 0 < n <= ChunkCount(|payload|, size) && n <= 0x1_0000
    ensures |Body(InOrder(payload, size, n))|
         == SizeOf(ExponentFor(size)) * (n - 1) + |Chunk(payload, size, n - 1)|
  {
    hide ChunkCount, Chunk, SizeOf, Place;
    var declared := SizeOf(ExponentFor(size));
    var received := InOrder(payload, size, n);
    var last := OnTheWire(payload, size, n - 1);
    assert received[..n - 1] == InOrder(payload, size, n - 1) && received[n - 1] == last;
    assert Offset(last.block1) == (n - 1) * declared == declared * (n - 1);
    if n == 1 {
      PlaceAtEnd([], last);
    } else {
      InOrderLength(payload, size, n - 1);
      FullChunk(payload, size, n - 2);
      DeclaredSize(size);
      assert declared * (n - 1) == declared * (n - 2) + declared;
      PlaceAtEnd(Body(InOrder(payload, size, n - 1)), last);
    }
  }

  lemma FullChunk(payload: Bytes, size: nat, num: nat)
    requires size > 0 && num + 1 < ChunkCount(|payload|, size)
    ensures |Chunk(payload, size, num)| == size
  {
    ChunkStarts(|payload|, size, num + 1);
    assert size * (num + 1) == size * num + size;
  }

  lemma LastChunk(payload: Bytes, size: nat)
    requires size > 0 && payload != []
    ensures ChunkCount(|payload|, size) > 0
    ensures |payload| == size * (ChunkCount(|payload|, size) - 1) + |Chunk(payload, size, ChunkCount(|payload|,
        size) - 1)|
  {
    ChunkCountPositive(|payload|, size);
    var n := ChunkCount(|payload|, size);
    ChunkStarts(|payload|, size, n - 1);
    CountCovers(|payload|, size);
    assert size * n == size * (n - 1) + size;
  }

  /** The client takes any block size and declares the power of two below it, or 16. So an upload of more than
      one chunk that the client reports as a success, every chunk received once and in order, gives the server
      the payload iff the size is one a Block1 option can declare. */
  lemma UploadIsSafeIff(payload: Bytes, size: nat, replies: seq<IoResult<Message>>)
    requires 0 < size < 4096 && size < |payload| && ChunkCount(|payload|, size) <= 0x1_0000
    requires |replies| >= ChunkCount(|payload|, size)
    requires forall j | 0 <= j < ChunkCount(|payload|, size) ::
               Cooperates(replies[j], j, ChunkCount(|payload|, size), ExponentFor(size))
    ensures var received := InOrder(payload, size, ChunkCount(|payload|, size));
      && Upload(payload, size, 0, replies) == (replies[ChunkCount(|payload|, size) - 1], ChunkCount(|payload|, size))
      && Upload(payload, size, 0, replies).0.Ok? && Whole(received)
      && (Body(received) == payload <==> ValidBlockSize(size))
  {
    hide Upload, ChunkCount, Cooperates, Body, Whole, InOrder, Chunk, SizeOf, ExponentFor, ValidBlockSize, WasSent;
    var n := ChunkCount(|payload|, size);
    ChunkCountPositive(|payload|, size);
    forall j | 0 <= j < n - 0 ensures Cooperates(replies[j], 0 + j, n, ExponentFor(size)) {
      assert Cooperates(replies[j], j, n, ExponentFor(size));
    }
    UploadCompletes(payload, size, 0, replies);
    CooperationIsOk(replies[n - 1], n - 1, n, ExponentFor(size));
    var received := InOrder(payload, size, n);
    InOrderWasSent(payload, size, n);
    AllIsWhole(received, payload, size, n);
    InOrderLength(payload, size, n);
    LastChunk(payload, size);
    DeclaredSize(size);
    SeveralChunks(|payload|, size);
    if ValidBlockSize(size) {
      WholeIsPayload(received, payload, size, n);
    } else {
      Differ(size, SizeOf(ExponentFor(size)), n - 1);
    }
  }

  lemma CooperationIsOk(reply: IoResult<Message>, i: nat, n: nat, e: Exponent)
    requires Cooperates(reply, i, n, e)
    ensures reply.Ok?
  {
  }

  lemma SeveralChunks(length: nat, size: nat)
    requires 0 < size < length
    ensures ChunkCount(length, size) > 1
  {
    CountCovers(length, size);
    Monotone(size, ChunkCount(length, size), 1);
  }

  lemma Differ(a: nat, b: nat, n: nat)
    requires a != b && n > 0
    ensures a * n != b * n
  {
    if a < b {
      assert b * n == a * n + (b - a) * n && (b - a) * n > 0;
    } else {
      assert a * n == b * n + (a - b) * n && (a - b) * n > 0;
    }
  }

  // Acknowledgements as the client wants them, for two chunks of a size declared as `e`.
  function TwoAcks(m: Message, e: Exponent): seq<IoResult<Message>> {
    [Ok(m.(status := Continue, block1 := Block(BlockValue(0, true, e)))),
     Ok(m.(status := Changed, block1 := Block(BlockValue(1, false, e))))]
  }

  /** The input: 48 bytes at a block size of 24. The client declares blocks of 16 and reports success; the server
      has put together 40 bytes. */
  lemma SizeTwentyFourLosesBytes(payload: Bytes, m: Message)
    requires |payload| == 48
    ensures var received := InOrder(payload, 24, 2);
      && Upload(payload, 24, 0, TwoAcks(m, 0)) == (TwoAcks(m, 0)[1], 2)
      && Whole(received) && |Body(received)| == 40
  {
    hide Body, Whole, InOrder;
    assert ChunkCount(48, 24) == 2 && ExponentFor(24) == 0 && SizeOf(0) == 16;
    var acks := TwoAcks(m, 0);
    forall j | 0 <= j < 2 ensures Cooperates(acks[j], j, 2, 0) {
    }
    UploadIsSafeIff(payload, 24, acks);
    InOrderLength(payload, 24, 2);
    LastChunk(payload, 24);
  }

  lemma AckedWasReceived(replies: seq<IoResult<Message>>, received: seq<Received>, j: nat, num: nat)
    requires AcksOnlyReceived(replies, received) && j < |replies| && Acks(replies[j], num)
    ensures HasChunk(received, num)
  {
  }

  // A cooperative answer to chunk `i` of `n`: 2.31 Continue before the last, anything else for it.
  predicate Cooperates(reply: IoResult<Message>, i: nat, n: nat, e: Exponent) {
    && Acks(reply, i)
    && (i + 1 < n ==> reply.value.block1.value.exponent == e && reply.value.status.Continue?)
    && (i + 1 == n ==> !reply.value.status.Continue?)
  }

  /** With a server that acknowledges every chunk, an upload of at most 2^16 chunks sends them all and
      returns the final answer. */
  lemma {:induction false} UploadCompletes(payload: Bytes, size: nat, i: nat, replies: seq<IoResult<Message>>)
    requires 0 < size < 4096 && i < ChunkCount(|payload|, size) <= 0x1_0000
    requires |replies| >= ChunkCount(|payload|, size) - i
    requires forall j | 0 <= j < ChunkCount(|payload|, size) - i ::
               Cooperates(replies[j], i + j, ChunkCount(|payload|, size), ExponentFor(size))
    ensures Upload(payload, size, i, replies)
         == (replies[ChunkCount(|payload|, size) - i - 1], ChunkCount(|payload|, size) - i)
    decreases ChunkCount(|payload|, size) - i
  {
    var n := ChunkCount(|payload|, size);
    assert Cooperates(replies[0], i + 0, n, ExponentFor(size));
    if i + 1 < n {
      forall j | 0 <= j < n - (i + 1) ensures Cooperates(replies[1..][j], (i + 1) + j, n, ExponentFor(size)) {
        assert Cooperates(replies[j + 1], i + (j + 1), n, ExponentFor(size));
      }
      UploadCompletes(payload, size, i + 1, replies[1..]);
    }
  }

  /** Both directions together: a payload of several chunks goes up, a response of several blocks comes back
      whole. `answers` are the reply to the last chunk and those after it. */
  lemma ExchangeCompletes(payload: Bytes, size: nat, replies: seq<IoResult<Message>>, answers: seq<IoResult<Message>>,
                          response: Bytes, e: Exponent)
    requires 0 < size < 4096 && size < |payload| && ChunkCount(|payload|, size) <= 0x1_0000
    requires LastBlock(|response|, e) < 0x1_0000
    requires |replies| >= ChunkCount(|payload|, size)
    requires forall j | 0 <= j < ChunkCount(|payload|, size) ::
               Cooperates(replies[j], j, ChunkCount(|payload|, size), ExponentFor(size))
    requires answers == replies[ChunkCount(|payload|, size) - 1..]
    requires Supplies(answers, response, e, 0, LastBlock(|response|, e) + 1, None)
    ensures Exchange(payload, size, replies).Ok? && Exchange(payload, size, replies).value.payload == response
  {
    hide ChunkCount, Cooperates, IsBlockOf, Transfer, Upload, LastBlock, Supplies;
    var n := ChunkCount(|payload|, size);
    ChunkCountPositive(|payload|, size);
    forall j | 0 <= j < n - 0 ensures Cooperates(replies[j], 0 + j, n, ExponentFor(size)) {
      assert Cooperates(replies[j], j, n, ExponentFor(size));
    }
    UploadCompletes(payload, size, 0, replies);
    SuppliesRest(answers, response, e, 0, LastBlock(|response|, e) + 1, None);
    assert answers[1..] == After(replies, n) && answers[0] == replies[n - 1];
    ReceiveReassembles(replies[n - 1].value, response, e, None, After(replies, n));
  }
}
