/** Confirmable sending in src/client.rs: the retransmission loop against a channel whose arrivals are
    timed by a real-valued clock. */
module Retransmission {
  import opened Coap
  import opened SyncSpec

  // Something the receive loop will put into the request's channel, and when.
  datatype Arrival = Arrival(at: real, what: IoResult<Packet>)

  /** The clock and the receiving end of the channel; with `closedAt`, every sender is gone by then. */
  datatype Mailbox = Mailbox(now: real, queue: seq<Arrival>, closedAt: Option<real>)

  function Later(a: real, b: real): real {
    if a <= b then b else a
  }

  /** `time::timeout(timeout, receiver.recv())`, with a closed or silent channel reported as a timeout. */
  function Receive(box: Mailbox, timeout: real): (IoResult<Packet>, Mailbox) {
    if box.queue != [] && box.queue[0].at <= box.now + timeout then
      (box.queue[0].what, box.(now := Later(box.now, box.queue[0].at), queue := box.queue[1..]))
    else if box.queue == [] && box.closedAt.Some? && box.closedAt.value <= box.now + timeout then
      (Err(TimedOut), box.(now := Later(box.now, box.closedAt.value)))
    else
      (Err(TimedOut), box.(now := box.now + timeout))
  }

  // What the transport says when asked to send for the i-th time.
  type Faults = nat -> Option<ErrorKind>

  // The outcome of sending: the result, the channel afterwards, and how many packets went out.
  datatype Outcome = Outcome(result: IoResult<Packet>, box: Mailbox, sent: nat)

  function Attempt(box: Mailbox, encoded: IoResult<Bytes>, fault: Option<ErrorKind>, timeout: real): Outcome {
    if encoded.Err? then Outcome(Err(encoded.error), box, 0)
    else if fault.Some? then Outcome(Err(fault.value), box, 1)
    else var (result, after) := Receive(box, timeout); Outcome(result, after, 1)
  }

  /** `n` attempts, each waiting twice as long as the one before, up to the first success. */
  function Attempts(box: Mailbox, encoded: IoResult<Bytes>, faults: Faults, i: nat, n: nat, timeout: real,
                    last: IoResult<Packet>): Outcome
    decreases n
  {
    if n == 0 then Outcome(last, box, 0)
    else
      var first := Attempt(box, encoded, faults(i), timeout);
      if first.result.Ok? then first
      else
        var rest := Attempts(first.box, encoded, faults, i + 1, n - 1, 2.0 * timeout, first.result);
        rest.(sent := rest.sent + first.sent)
  }

  // `timeout.mul_f32(factor)`, without its rounding.
  function Stretched(timeout: real, factor: real): real {
    timeout * factor
  }

  const NOT_ENOUGH_RETRIES: IoResult<Packet> := Err(InvalidData)

  class CoapClientTransport {
    var retries: nat
    var timeout: real
    var randomFactor: real

    // Every packet handed to the transport.
    var sent: seq<Bytes>

    // The receiving end of the channel of the request under way, and the time.
    var mailbox: Mailbox

    static const DEFAULT_NUM_RETRIES: nat := 5
    static const DEFAULT_RANDOM_FACTOR: real := 1.5
    static const DEFAULT_RECEIVE_TIMEOUT_SECONDS: real := 2.0

    constructor FromTransport(now: real)
      ensures retries == DEFAULT_NUM_RETRIES && timeout == DEFAULT_RECEIVE_TIMEOUT_SECONDS
      ensures randomFactor == DEFAULT_RANDOM_FACTOR && sent == [] && mailbox == Mailbox(now, [], None)
    {
      retries, timeout, randomFactor := DEFAULT_NUM_RETRIES, DEFAULT_RECEIVE_TIMEOUT_SECONDS, DEFAULT_RANDOM_FACTOR;
      sent, mailbox := [], Mailbox(now, [], None);
    }

    // `receiver.recv()` under a timeout: None when the time is up or the channel is closed.
    method Recv(wait: real) returns (arrived: Option<IoResult<Packet>>)
      modifies this`mailbox
      ensures (if arrived.Some? then arrived.value else Err(TimedOut), mailbox) == Receive(old(mailbox), wait)
    {
      if mailbox.queue != [] && mailbox.queue[0].at <= mailbox.now + wait {
        arrived := Some(mailbox.queue[0].what);
        mailbox := mailbox.(now := Later(mailbox.now, mailbox.queue[0].at), queue := mailbox.queue[1..]);
      } else if mailbox.queue == [] && mailbox.closedAt.Some? && mailbox.closedAt.value <= mailbox.now + wait {
        arrived := None;
        mailbox := mailbox.(now := Later(mailbox.now, mailbox.closedAt.value));
      } else {
        arrived := None;
        mailbox := mailbox.(now := mailbox.now + wait);
      }
    }

    /** One transmission and one wait. */
    method TrySendNonConfirmableMessage(encoded: IoResult<Bytes>, fault: Option<ErrorKind>, wait: real)
      returns (r: IoResult<Packet>)
      modifies this`sent, this`mailbox
      ensures var o := Attempt(old(mailbox), encoded, fault, wait);
        && r == o.result && mailbox == o.box
        && sent == old(sent) + (if encoded.Ok? then Repeat(encoded.value, o.sent) else [])
    {
      if encoded.Err? {
        return Err(encoded.error);
      }
      RepeatOne(encoded.value);
      sent := sent + [encoded.value];
      if fault.Some? {
        return Err(fault.value);
      }
      var tryReceive := Recv(wait);
      if tryReceive.Some? {
        return tryReceive.value;
      }
      r := Err(TimedOut);
    }

    /** The retransmission loop: the same bytes each time, the wait doubled each time. `factor` is the random
        stretch of the first wait. */
    method TrySendConfirmableMessage(encoded: IoResult<Bytes>, faults: Faults, factor: real)
        returns (r: IoResult<Packet>)
      modifies this`sent, this`mailbox
      ensures var first := Stretched(timeout, factor);
        var o := Attempts(old(mailbox), encoded, faults, 0, retries, first, NOT_ENOUGH_RETRIES);
        && r == o.result && mailbox == o.box
        && sent == old(sent) + (if encoded.Ok? then Repeat(encoded.value, o.sent) else [])
    {
      hide Attempt, Stretched;
      ghost var done: nat := 0;
      r := NOT_ENOUGH_RETRIES;
      var randomTimeout := Stretched(timeout, factor);
      ghost var all := Attempts(mailbox, encoded, faults, 0, retries, randomTimeout, NOT_ENOUGH_RETRIES);
      var i := 0;
      assert sent == old(sent) + [];
      while i < retries
        invariant 0 <= i <= retries
        invariant sent == old(sent) + if encoded.Ok? then Repeat(encoded.value, done) else []
        invariant var rest := Attempts(mailbox, encoded, faults, i, retries - i, randomTimeout, r);
          all == rest.(sent := rest.sent + done)
      {
        ghost var first := Attempt(mailbox, encoded, faults(i), randomTimeout);
        r := TrySendNonConfirmableMessage(encoded, faults(i), randomTimeout);
        if encoded.Ok? {
          RepeatAdds(encoded.value, done, first.sent);
        }
        done := done + first.sent;
        if r.Ok? {
          return r;
        }
        randomTimeout := 2.0 * randomTimeout;
        i := i + 1;
      }
    }

    /** Only a confirmable message is retransmitted; any other is sent once and waited for once. */
    method DoRequestResponseForPacketInner(mtype: MessageType, encoded: IoResult<Bytes>, faults: Faults, factor: real)
        returns (r: IoResult<Packet>)
      modifies this`sent, this`mailbox
      ensures var o := if mtype.Confirmable?
          then Attempts(old(mailbox), encoded, faults, 0, retries, Stretched(timeout, factor), NOT_ENOUGH_RETRIES)
          else Attempt(old(mailbox), encoded, faults(0), timeout);
        && r == o.result && mailbox == o.box
        && sent == old(sent) + (if encoded.Ok? then Repeat(encoded.value, o.sent) else [])
    {
      if mtype == Confirmable {
        r := TrySendConfirmableMessage(encoded, faults, factor);
      } else {
        r := TrySendNonConfirmableMessage(encoded, faults(0), timeout);
      }
    }
  }

  lemma RepeatOne(x: Bytes)
    ensures Repeat(x, 1) == [x]
  {
  }

  lemma {:induction false} RepeatAdds(x: Bytes, m: nat, n: nat)
    ensures Repeat(x, m) + Repeat(x, n) == Repeat(x, m + n)
  {
    if n > 0 {
      RepeatAdds(x, m, n - 1);
      assert Repeat(x, m) + (Repeat(x, n - 1) + [x]) == (Repeat(x, m) + Repeat(x, n - 1)) + [x];
    }
  }

  // ---------------------------------------------------------------- how long and how often

  function Power2(n: nat): (r: real)
    ensures r >= 1.0
  {
    if n == 0 then 1.0 else 2.0 * Power2(n - 1)
  }

  // The waits of `n` attempts together.
  function WaitOf(timeout: real, n: nat): real {
    timeout * (Power2(n) - 1.0)
  }

  lemma WaitSplits(timeout: real, n: nat)
    requires n > 0
    ensures WaitOf(timeout, n) == timeout + WaitOf(2.0 * timeout, n - 1)
  {
    var p := Power2(n - 1);
    assert Power2(n) == 2.0 * p;
    assert timeout * (2.0 * p - 1.0) == timeout + 2.0 * timeout * (p - 1.0);
  }

  lemma WaitIsPositive(timeout: real, n: nat)
    requires timeout >= 0.0
    ensures WaitOf(timeout, n) >= 0.0
  {
  }

  lemma AttemptWaits(box: Mailbox, encoded: IoResult<Bytes>, fault: Option<ErrorKind>, timeout: real)
    requires timeout >= 0.0
    ensures var o := Attempt(box, encoded, fault, timeout);
      box.now <= o.box.now <= box.now + timeout && o.sent <= 1
  {
  }

  /** Confirmable sending makes at most `n` transmissions and waits at most timeout * (2^n - 1) in all. */
  lemma {:induction false} SendingIsBounded(box: Mailbox, encoded: IoResult<Bytes>, faults: Faults, i: nat, n: nat,
                                            timeout: real, last: IoResult<Packet>)
    requires timeout >= 0.0
    ensures var o := Attempts(box, encoded, faults, i, n, timeout, last);
      o.sent <= n && box.now <= o.box.now <= box.now + WaitOf(timeout, n)
    decreases n
  {
    if n > 0 {
      WaitSplits(timeout, n);
      WaitIsPositive(2.0 * timeout, n - 1);
      AttemptWaits(box, encoded, faults(i), timeout);
      var first := Attempt(box, encoded, faults(i), timeout);
      SendingIsBounded(first.box, encoded, faults, i + 1, n - 1, 2.0 * timeout, first.result);
    }
  }

  /** The bound is reached: to a peer that never answers all `n` packets go out, and the wait is exactly that. */
  lemma {:induction false} SilenceTakesItAll(box: Mailbox, bytes: Bytes, faults: Faults, i: nat, n: nat,
                                             timeout: real, last: IoResult<Packet>)
    requires box.queue == [] && box.closedAt.None?
    requires forall k | i <= k < i + n :: faults(k).None?
    ensures var o := Attempts(box, Ok(bytes), faults, i, n, timeout, last);
      o.sent == n && o.box.now == box.now + WaitOf(timeout, n) && o.result == if n == 0 then last else Err(TimedOut)
    decreases n
  {
    if n > 0 {
      WaitSplits(timeout, n);
      var first := Attempt(box, Ok(bytes), faults(i), timeout);
      SilenceTakesItAll(first.box, bytes, faults, i + 1, n - 1, 2.0 * timeout, first.result);
    }
  }

  /** MAX_TRANSMIT_WAIT: with the defaults a confirmable request is over after at most five transmissions
      and 93 seconds (section 4.8.2 of RFC 7252). */
  lemma DefaultsWaitAtMost93Seconds(box: Mailbox, encoded: IoResult<Bytes>, faults: Faults, factor: real)
    requires 1.0 <= factor <= CoapClientTransport.DEFAULT_RANDOM_FACTOR
    ensures var o := Attempts(box, encoded, faults, 0, CoapClientTransport.DEFAULT_NUM_RETRIES,
                              Stretched(CoapClientTransport.DEFAULT_RECEIVE_TIMEOUT_SECONDS, factor),
                                  NOT_ENOUGH_RETRIES);
      o.sent <= 5 && o.box.now - box.now <= 93.0
  {
    hide Attempts;
    SendingIsBounded(box, encoded, faults, 0, 5, 2.0 * factor, NOT_ENOUGH_RETRIES);
    DoubledFiveTimes();
  }

  lemma DoubledFiveTimes()
    ensures Power2(5) == 32.0
  {
    assert Power2(1) == 2.0 && Power2(2) == 4.0 && Power2(3) == 8.0 && Power2(4) == 16.0;
  }

  /** And the 93 seconds are reached, to a silent peer with the largest factor. */
  lemma DefaultsReach93Seconds(box: Mailbox, bytes: Bytes, faults: Faults)
    requires box.queue == [] && box.closedAt.None? && forall k | 0 <= k < 5 :: faults(k).None?
    ensures var o := Attempts(box, Ok(bytes), faults, 0, CoapClientTransport.DEFAULT_NUM_RETRIES,
                              Stretched(CoapClientTransport.DEFAULT_RECEIVE_TIMEOUT_SECONDS,
                                        CoapClientTransport.DEFAULT_RANDOM_FACTOR),
                              NOT_ENOUGH_RETRIES);
      o.result == Err(TimedOut) && o.sent == 5 && o.box.now - box.now == 93.0
  {
    hide Attempts;
    SilenceTakesItAll(box, bytes, faults, 0, 5, 3.0, NOT_ENOUGH_RETRIES);
    DoubledFiveTimes();
  }

  // ---------------------------------------------------------------- what is returned

  /** A message that cannot be encoded is never sent, and that is the result; so is InvalidData when there are to be no
      attempts at all. Neither takes any time or anything out of the channel. */
  lemma {:induction false} UnencodableIsNeverSent(box: Mailbox, error: ErrorKind, faults: Faults, i: nat, n: nat,
                                                  timeout: real)
    ensures Attempts(box, Err(error), faults, i, n, timeout, Err(error)) == Outcome(Err(error), box, 0)
    ensures n > 0 ==>
      Attempts(box, Err(error), faults, i, n, timeout, NOT_ENOUGH_RETRIES) == Outcome(Err(error), box, 0)
    ensures forall encoded ::
      Attempts(box, encoded, faults, i, 0, timeout, NOT_ENOUGH_RETRIES) == Outcome(Err(InvalidData), box, 0)
    decreases n
  {
    if n > 0 {
      UnencodableIsNeverSent(box, error, faults, i + 1, n - 1, 2.0 * timeout);
    }
  }

  /** When the transport fails every time, every attempt is made at once and the last failure is the result. */
  lemma {:induction false} FailingTransportIsReported(box: Mailbox, bytes: Bytes, faults: Faults, i: nat, n: nat,
                                                      timeout: real, last: IoResult<Packet>)
    requires n > 0 && forall k | i <= k < i + n :: faults(k).Some?
    ensures Attempts(box, Ok(bytes), faults, i, n, timeout, last) == Outcome(Err(faults(i + n - 1).value), box, n)
    decreases n
  {
    if n > 1 {
      FailingTransportIsReported(box, bytes, faults, i + 1, n - 1, 2.0 * timeout, Err(faults(i).value));
    }
  }

  /** When every sender of the channel is gone, no attempt waits, and the result is a timeout all the same. */
  lemma {:induction false} ClosedChannelTimesOutAtOnce(box: Mailbox, bytes: Bytes, faults: Faults, i: nat, n: nat,
                                                       timeout: real, last: IoResult<Packet>)
    requires n > 0 && timeout >= 0.0 && forall k | i <= k < i + n :: faults(k).None?
    requires box.queue == [] && box.closedAt.Some? && box.closedAt.value <= box.now
    ensures Attempts(box, Ok(bytes), faults, i, n, timeout, last) == Outcome(Err(TimedOut), box, n)
    decreases n
  {
    if n > 1 {
      ClosedChannelTimesOutAtOnce(box, bytes, faults, i + 1, n - 1, 2.0 * timeout, Err(TimedOut));
    }
  }

  ghost predicate Errors(queue: seq<Arrival>, n: nat) {
    n <= |queue| && forall i | 0 <= i < n :: queue[i].what.Err?
  }

  /** What sending takes out of the channel: some errors, and then the result if that is Ok. Nothing that
      arrives later is lost. */
  lemma {:induction false} ResultIsFirstSuccess(box: Mailbox, encoded: IoResult<Bytes>, faults: Faults, i: nat, n: nat,
                                                timeout: real, last: IoResult<Packet>) returns (taken: nat)
    requires last.Err?
    ensures var o := Attempts(box, encoded, faults, i, n, timeout, last);
      && Errors(box.queue, taken) && taken <= n
      && (if o.result.Ok? then taken < |box.queue| && box.queue[taken].what == o.result
                               && o.box.queue == box.queue[taken + 1..]
          else o.box.queue == box.queue[taken..])
    decreases n
  {
    taken := 0;
    if n > 0 {
      var first := Attempt(box, encoded, faults(i), timeout);
      if first.result.Err? {
        var more := ResultIsFirstSuccess(first.box, encoded, faults, i + 1, n - 1, 2.0 * timeout, first.result);
        taken := if first.box.queue == box.queue then more else more + 1;
        if first.box.queue != box.queue {
          assert first.box.queue == box.queue[1..] && box.queue[0].what == first.result;
        }
      }
    }
  }

  /** A response that arrives within the total wait is returned, whichever transmission it answers, and ends the
      retransmissions: just those have gone out by then whose waits it took. */
  lemma {:induction false} TimelyResponseIsReturned(box: Mailbox, bytes: Bytes, faults: Faults, i: nat, n: nat,
                                                    timeout: real, last: IoResult<Packet>)
    requires n > 0 && timeout >= 0.0 && box.queue != [] && box.queue[0].what.Ok?
    requires box.queue[0].at <= box.now + WaitOf(timeout, n)
    requires forall k | i <= k < i + n :: faults(k).None?
    ensures var o := Attempts(box, Ok(bytes), faults, i, n, timeout, last);
      && o.result == box.queue[0].what && o.box.queue == box.queue[1..]
      && 1 <= o.sent <= n && box.queue[0].at <= box.now + WaitOf(timeout, o.sent)
      && (o.sent > 1 ==> box.queue[0].at > box.now + WaitOf(timeout, o.sent - 1))
    decreases n
  {
    WaitSplits(timeout, n);
    if box.queue[0].at > box.now + timeout {
      assert n > 1;
      var first := Attempt(box, Ok(bytes), faults(i), timeout);
      TimelyResponseIsReturned(first.box, bytes, faults, i + 1, n - 1, 2.0 * timeout, first.result);
      var sent := Attempts(first.box, Ok(bytes), faults, i + 1, n - 1, 2.0 * timeout, first.result).sent;
      WaitSplits(timeout, sent + 1);
      WaitSplits(timeout, sent);
    }
  }

  lemma {:induction false} NothingMoreTimesOut(box: Mailbox, bytes: Bytes, faults: Faults, i: nat, n: nat,
                                               timeout: real, last: IoResult<Packet>)
    requires box.queue == [] && forall k | i <= k < i + n :: faults(k).None?
    ensures Attempts(box, Ok(bytes), faults, i, n, timeout, last).result == if n == 0 then last else Err(TimedOut)
    decreases n
  {
    if n > 0 {
      var first := Attempt(box, Ok(bytes), faults(i), timeout);
      NothingMoreTimesOut(first.box, bytes, faults, i + 1, n - 1, 2.0 * timeout, first.result);
    }
  }

  /** A transport error that the receive loop sends into the channel is what the caller gets only if it
      arrives during the last attempt: an earlier one just starts the next attempt, which times out. */
  lemma {:induction false} FailureIsReportedByTheLastAttempt(box: Mailbox, bytes: Bytes, faults: Faults, i: nat, n: nat,
                                                             timeout: real, last: IoResult<Packet>, e: ErrorKind)
    requires n > 0 && timeout >= 0.0 && |box.queue| == 1 && box.queue[0].what == Err(e) && e != TimedOut
    requires box.queue[0].at <= box.now + WaitOf(timeout, n)
    requires forall k | i <= k < i + n :: faults(k).None?
    ensures Attempts(box, Ok(bytes), faults, i, n, timeout, last).result == Err(e)
       <==> n == 1 || box.queue[0].at > box.now + WaitOf(timeout, n - 1)
    ensures Attempts(box, Ok(bytes), faults, i, n, timeout, last).result in {Err(e), Err(TimedOut)}
    decreases n
  {
    WaitSplits(timeout, n);
    var first := Attempt(box, Ok(bytes), faults(i), timeout);
    if n > 1 {
      WaitSplits(timeout, n - 1);
      WaitIsPositive(2.0 * timeout, n - 2);
      if box.queue[0].at <= box.now + timeout {
        NothingMoreTimesOut(first.box, bytes, faults, i + 1, n - 1, 2.0 * timeout, first.result);
      } else {
        FailureIsReportedByTheLastAttempt(first.box, bytes, faults, i + 1, n - 1, 2.0 * timeout, first.result, e);
      }
    }
  }
}
