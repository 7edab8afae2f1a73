/** What the receive loop does, told from the script of what the transport delivers: which acknowledgements go out,
    what each channel is sent, and how the loop ends. */
module ReceiveLoopLaws {
  import opened Coap
  import opened SyncSpec
  import opened Synchronizer

  // A confirmable response.
  predicate WantsAck(r: Received) {
    r.Got? && r.packet.isResponse && r.packet.mtype == Confirmable
  }

  // What ends the loop: nobody left, a broken transport, or an acknowledgement that cannot be sent.
  predicate Stops(r: Received) {
    r.Dropped? || r.Broken? || (WantsAck(r) && r.ackError.Some?)
  }

  // The loop handles `n` items of the script and stops at the next one, if there is one.
  ghost predicate StopsAt(script: seq<Received>, n: nat) {
    n <= |script| && (forall i | 0 <= i < n :: !Stops(script[i])) && (n < |script| ==> Stops(script[n]))
  }

  // One acknowledgement for each confirmable response, in order: its message id under an empty token.
  function AcksFor(handled: seq<Received>): seq<Ack> {
    if handled == [] then []
    else (if WantsAck(handled[0]) then [Ack(handled[0].packet.id, [])] else []) + AcksFor(handled[1..])
  }

  // A response is for the channel that its token is registered under.
  function ResponseFor(r: Received, outgoing: map<Token, Channel>, c: Channel): seq<IoResult<Packet>> {
    if r.Got? && r.packet.isResponse && r.packet.token in outgoing && outgoing[r.packet.token] == c then [Ok(r.packet)]
    else []
  }

  function ResponsesFor(handled: seq<Received>, outgoing: map<Token, Channel>, c: Channel): seq<IoResult<Packet>> {
    if handled == [] then [] else ResponseFor(handled[0], outgoing, c) + ResponsesFor(handled[1..], outgoing, c)
  }

  // What a failure of the transport sends into a channel: the error, once for each token it is registered under.
  function FailureFor(stop: Option<Received>, outgoing: map<Token, Channel>, c: Channel): seq<IoResult<Packet>> {
    if stop.Some? && stop.value.Broken? then Repeat(Err(stop.value.error), |TokensOf(outgoing, c)|) else []
  }

  function StoppedBy(script: seq<Received>, n: nat): Option<Received> {
    if n < |script| then Some(script[n]) else None
  }

  ghost predicate Follows(sh: Shared, t: Shared, handled: seq<Received>, stop: Option<Received>) {
    && (forall c ::
          SentTo(t, c) == SentTo(sh, c) + ResponsesFor(handled, sh.outgoing, c) + FailureFor(stop, sh.outgoing, c))
    && (if stop.Some? && stop.value.Broken? then t.outgoing == map[] && t.error == Some(stop.value.error)
        else t.outgoing == sh.outgoing && t.error == sh.error)
  }

  lemma OnePacket(sh: Shared, packet: Packet, ackError: Option<ErrorKind>, c: Channel)
    ensures var u := Forwarded(sh, packet);
      && u.outgoing == sh.outgoing && u.error == sh.error
      && SentTo(u, c) == SentTo(sh, c) + ResponseFor(Got(packet, ackError), sh.outgoing, c)
  {
    assert SentTo(sh, c) + [] == SentTo(sh, c);
  }

  lemma InFour<T>(a: seq<T>, b: seq<T>, c: seq<T>, d: seq<T>)
    ensures ((a + b) + c) + d == (a + (b + c)) + d
  {
    assert (a + b) + c == a + (b + c);
  }

  lemma FollowsOnePacket(sh: Shared, t: Shared, packet: Packet, ackError: Option<ErrorKind>, handled: seq<Received>,
                         stop: Option<Received>)
    requires handled != [] && handled[0] == Got(packet, ackError)
    requires Follows(Forwarded(sh, packet), t, handled[1..], stop)
    ensures Follows(sh, t, handled, stop)
  {
    hide Forwarded, SentTo, FailureFor, ResponseFor;
    var u := Forwarded(sh, packet);
    OnePacket(sh, packet, ackError, 0);
    forall c ensures SentTo(t, c)
        == SentTo(sh, c) + ResponsesFor(handled, sh.outgoing, c) + FailureFor(stop, sh.outgoing, c)
    {
      OnePacket(sh, packet, ackError, c);
      InFour(SentTo(sh, c), ResponseFor(handled[0], sh.outgoing, c), ResponsesFor(handled[1..], sh.outgoing, c),
             FailureFor(stop, sh.outgoing, c));
    }
  }

  lemma NothingFollows(sh: Shared)
    ensures Follows(sh, sh, [], None)
    ensures forall stop: Received | !stop.Broken? :: Follows(sh, sh, [], Some(stop))
  {
  }

  lemma BrokenFollows(sh: Shared, e: ErrorKind)
    ensures Follows(sh, Drained(Condemned(sh, e), e), [], Some(Broken(e)))
  {
    var t := Drained(Condemned(sh, e), e);
    forall c ensures SentTo(t, c) == SentTo(sh, c) + [] + FailureFor(Some(Broken(e)), sh.outgoing, c) {
      if c !in sh.sentTo.Keys + sh.outgoing.Values {
        assert TokensOf(sh.outgoing, c) == {} by {
          forall k | k in sh.outgoing ensures sh.outgoing[k] != c {
            assert sh.outgoing[k] in sh.outgoing.Values;
          }
        }
      }
    }
  }

  /** The receive loop over any script. The acknowledgements that go out are, in order, one for each confirmable
      response handled before the loop stops; every channel is sent the responses under its tokens, in order, and
      after them the error if the transport broke, and nothing else; and what stopped the loop tells how it ends. */
  lemma {:induction false} LoopFollowsTheScript(sh: Shared, acked: seq<Ack>, script: seq<Received>, n: nat)
    requires StopsAt(script, n)
    ensures var (t, acks, end) := Pump(sh, acked, script);
      && acks == acked + AcksFor(script[..n])
      && Follows(sh, t, script[..n], StoppedBy(script, n))
      && end == if n == |script| then Listening else Ended(script[n].Broken?)
    decreases |script|
  {
    hide Follows, Drained, Condemned, Forwarded;
    if n == 0 {
      NothingFollows(sh);
      if script != [] && script[0].Broken? {
        BrokenFollows(sh, script[0].error);
      }
    } else {
      RestStopsAt(script, n);
      var rest := script[1..];
      var (t, stop) := (Pump(sh, acked, script).0, StoppedBy(script, n));
      if script[0].Got? {
        var packet := script[0].packet;
        LoopFollowsTheScript(Forwarded(sh, packet), Acknowledged(acked, packet), rest, n - 1);
        FollowsOnePacket(sh, t, packet, script[0].ackError, script[..n], stop);
        AcknowledgedAre(acked, script[0], AcksFor(rest[..n - 1]));
      } else {
        LoopFollowsTheScript(sh, acked, rest, n - 1);
        SkippedFollows(sh, t, script[..n], stop);
      }
    }
  }

  lemma RestStopsAt(script: seq<Received>, n: nat)
    requires StopsAt(script, n) && n > 0
    ensures !Stops(script[0]) && StopsAt(script[1..], n - 1) && script[..n][1..] == script[1..][..n - 1]
    ensures StoppedBy(script[1..], n - 1) == StoppedBy(script, n)
  {
    forall i | 0 <= i < n - 1 ensures !Stops(script[1..][i]) {
      assert script[1..][i] == script[i + 1];
    }
  }

  lemma AcknowledgedAre(acked: seq<Ack>, r: Received, more: seq<Ack>)
    requires r.Got?
    ensures Acknowledged(acked, r.packet) + more
         == acked + ((if WantsAck(r) then [Ack(r.packet.id, [])] else []) + more)
  {
  }

  lemma SkippedFollows(sh: Shared, t: Shared, handled: seq<Received>, stop: Option<Received>)
    requires handled != [] && !handled[0].Got? && Follows(sh, t, handled[1..], stop)
    ensures Follows(sh, t, handled, stop)
  {
    hide Repeat, TokensOf;
    forall c ensures ResponsesFor(handled, sh.outgoing, c) == ResponsesFor(handled[1..], sh.outgoing, c) {
      var rest := ResponsesFor(handled[1..], sh.outgoing, c);
      assert [] + rest == rest;
    }
  }
}
