/** `TransportSynchronizer` and the receive loop of src/client.rs, updated in place. Each method performs
    the atomic steps of SyncSpec, in the order the source takes its locks. */
module Synchronizer {
  import opened Coap
  import opened SyncSpec

  // What the transport hands the receive loop next; `Dropped` when nobody holds the transport any more.
  datatype Received = Quiet | Malformed | Dropped | Broken(error: ErrorKind)
      | Got(packet: Packet, ackError: Option<ErrorKind>)

  // An empty acknowledgement as it goes out.
  datatype Ack = Ack(id: U16, token: Token)

  class TransportSynchronizer {
    var outgoing: map<Token, Channel>
    var failError: Option<ErrorKind>
    var channels: map<Channel, seq<IoResult<Packet>>>

    // The acknowledgements sent by the receive loop.
    var acked: seq<Ack>

    function Shared(): Shared
      reads this
    {
      SyncSpec.Shared(failError, outgoing, channels)
    }

    constructor ()
      ensures Shared() == Start.shared && acked == []
    {
      outgoing, failError, channels, acked := map[], None, map[], [];
    }

    // `sender.send`: an unbounded channel takes everything.
    method Send(sender: Channel, what: IoResult<Packet>)
      modifies this`channels
      ensures Shared() == Deliver(old(Shared()), sender, what)
    {
      var queue := if sender in channels then channels[sender] else [];
      channels := channels[sender := queue + [what]];
    }

    method CheckForError(sender: Channel) returns (clear: bool)
      modifies this`channels
      ensures Shared() == Checked(old(Shared()), sender)
      ensures clear <==> old(failError).None?
    {
      if failError.Some? {
        Send(sender, Err(failError.value));
        return false;
      }
      clear := true;
    }

    method GetSender(key: Token) returns (sender: Option<Channel>)
      ensures sender == if key in outgoing then Some(outgoing[key]) else None
    {
      sender := if key in outgoing then Some(outgoing[key]) else None;
    }

    /** Two steps with a gap between them; run without interruption they make one. */
    method SetSender(key: Token, sender: Channel) returns (previous: Option<Channel>)
      modifies this`channels, this`outgoing
      ensures Shared() == if old(failError).Some? then Checked(old(Shared()), sender)
          else Inserted(old(Shared()), key, sender)
      ensures previous == if old(failError).None? && key in old(outgoing) then Some(old(outgoing)[key]) else None
    {
      var clear := CheckForError(sender);
      if !clear {
        return None;
      }
      previous := if key in outgoing then Some(outgoing[key]) else None;
      outgoing := outgoing[key := sender];
    }

    method RemoveSender(key: Token) returns (previous: Option<Channel>)
      modifies this`outgoing
      ensures Shared() == Forgotten(old(Shared()), key)
      ensures previous == if key in old(outgoing) then Some(old(outgoing)[key]) else None
    {
      previous := if key in outgoing then Some(outgoing[key]) else None;
      outgoing := outgoing - {key};
    }

    // One key of the drain.
    method FailOne(k: Token, error: ErrorKind, ghost before: Shared, ghost told: set<Token>)
      requires k in outgoing && told <= before.outgoing.Keys && outgoing == before.outgoing - told
      requires PartlyDrained(before, Shared(), told, error)
      modifies this`outgoing, this`channels
      ensures |outgoing| < |old(outgoing)| && outgoing == before.outgoing - (told + {k}) && k in before.outgoing
      ensures PartlyDrained(before, Shared(), told + {k}, error)
    {
      hide PartlyDrained;
      var sender := outgoing[k];
      ghost var was := Shared();
      SmallerWithout(outgoing, k);
      outgoing := outgoing - {k};
      Send(sender, Err(error));
      DrainOneMore(before, was, Shared(), told, error, k);
    }

    /** Writes the error, then empties the registry key by key, telling each sender. */
    method Fail(error: ErrorKind)
      modifies this`failError, this`outgoing, this`channels
      ensures Shared() == Drained(Condemned(old(Shared()), error), error)
    {
      hide PartlyDrained, Drained;
      failError := Some(error);
      ghost var before, told: set<Token> := Shared(), {};
      NothingDrained(before, error);
      while outgoing != map[]
        invariant told <= before.outgoing.Keys && outgoing == before.outgoing - told
        invariant failError == before.error
        invariant PartlyDrained(before, Shared(), told, error)
        decreases |outgoing|
      {
        var k: Token :| k in outgoing;
        FailOne(k, error, before, told);
        told := told + {k};
      }
      AllTold(before.outgoing, told);
      FullyDrained(before, Shared(), error);
    }

    /** The receive loop over what the transport delivers: acknowledge every confirmable response, forward
        every response to whoever waits for its token, and fail everybody when the transport breaks. An
        acknowledgement that cannot be sent ends the loop without telling anybody. */
    method ReceiveLoop(script: seq<Received>) returns (end: Loop)
      modifies this
      ensures (Shared(), acked, end) == Pump(old(Shared()), old(acked), script)
    {
      var i := 0;
      while i < |script|
        invariant 0 <= i <= |script|
        invariant Pump(old(Shared()), old(acked), script) == Pump(Shared(), acked, script[i..])
      {
        var received := script[i];
        assert script[i..][0] == received && script[i..][1..] == script[i + 1..];
        i := i + 1;
        match received {
          case Quiet =>
          case Malformed =>
          case Dropped =>
            return Ended(false);
          case Broken(error) =>
            Fail(error);
            return Ended(true);
          case Got(packet, ackError) =>
            var ack := ParseForAck(packet);
            if ack.Some? {
              if ackError.Some? {
                return Ended(false);
              }
              acked := acked + [ack.value];
            }
            if packet.isResponse {
              var sender := GetSender(packet.token);
              if sender.Some? {
                Send(sender.value, Ok(packet));
              }
            }
        }
      }
      end := Listening;
    }
  }

  // `make_ack`: it takes over the message id and nothing else, so its token is empty.
  function MakeAck(packet: Packet): Ack {
    Ack(packet.id, [])
  }

  // The acknowledgement a packet calls for.
  function ParseForAck(packet: Packet): Option<Ack> {
    if packet.mtype.Confirmable? && packet.isResponse then Some(MakeAck(packet)) else None
  }

  // ---------------------------------------------------------------- the drain, key by key

  // What a channel has been sent once the tokens of `told` are dealt with.
  ghost function SentBy(before: Shared, told: set<Token>, e: ErrorKind, c: Channel): seq<IoResult<Packet>> {
    SentTo(before, c) + Repeat(Err(e), |TokensOf(before.outgoing, c) * told|)
  }

  ghost function ChannelsOf(outgoing: map<Token, Channel>, told: set<Token>): set<Channel> {
    set t | t in told && t in outgoing :: outgoing[t]
  }

  ghost predicate PartlyDrained(before: Shared, sh: Shared, told: set<Token>, e: ErrorKind) {
    && sh.sentTo.Keys == before.sentTo.Keys + ChannelsOf(before.outgoing, told)
    && forall c :: SentTo(sh, c) == SentBy(before, told, e, c)
  }

  lemma NothingDrained(sh: Shared, e: ErrorKind)
    ensures PartlyDrained(sh, sh, {}, e)
  {
    hide TokensOf;
    forall c ensures SentTo(sh, c) == SentBy(sh, {}, e, c) {
      assert TokensOf(sh.outgoing, c) * {} == {};
    }
  }

  lemma SmallerWithout<K, V>(m: map<K, V>, k: K)
    requires k in m
    ensures |m - {k}| < |m|
  {
    assert (m - {k}).Keys == m.Keys - {k};
    assert |(m - {k}).Keys| == |m - {k}| && |m.Keys| == |m|;
  }

  lemma TokensToldOneMore(outgoing: map<Token, Channel>, told: set<Token>, k: Token, c: Channel)
    requires k in outgoing && k !in told
    ensures |TokensOf(outgoing, c) * (told + {k})| == |TokensOf(outgoing, c) * told| + if outgoing[k] == c then 1 else 0
  {
    if outgoing[k] == c {
      assert TokensOf(outgoing, c) * (told + {k}) == TokensOf(outgoing, c) * told + {k};
    } else {
      assert TokensOf(outgoing, c) * (told + {k}) == TokensOf(outgoing, c) * told;
    }
  }

  lemma RepeatOneMore(x: IoResult<Packet>, n: nat)
    ensures Repeat(x, n + 1) == Repeat(x, n) + [x]
  {
  }

  lemma ChannelsOneMore(outgoing: map<Token, Channel>, told: set<Token>, k: Token)
    requires k in outgoing
    ensures ChannelsOf(outgoing, told + {k}) == ChannelsOf(outgoing, told) + {outgoing[k]}
  {
  }

  lemma SentOneMore(before: Shared, was: Shared, told: set<Token>, e: ErrorKind, k: Token, c: Channel)
    requires k in before.outgoing && k !in told && SentTo(was, c) == SentBy(before, told, e, c)
    ensures SentTo(Deliver(was, before.outgoing[k], Err(e)), c) == SentBy(before, told + {k}, e, c)
  {
    hide TokensOf, Repeat;
    TokensToldOneMore(before.outgoing, told, k, c);
    RepeatOneMore(Err(e), |TokensOf(before.outgoing, c) * told|);
  }

  lemma DrainOneMore(before: Shared, was: Shared, sh: Shared, told: set<Token>, e: ErrorKind, k: Token)
    requires PartlyDrained(before, was, told, e) && k in before.outgoing && k !in told
    requires sh.sentTo == Deliver(was, before.outgoing[k], Err(e)).sentTo
    ensures PartlyDrained(before, sh, told + {k}, e)
  {
    hide ChannelsOf, SentBy;
    ChannelsOneMore(before.outgoing, told, k);
    forall c ensures SentTo(sh, c) == SentBy(before, told + {k}, e, c) {
      assert SentTo(was, c) == SentBy(before, told, e, c);
      SentOneMore(before, was, told, e, k, c);
    }
  }

  lemma AllChannels(outgoing: map<Token, Channel>)
    ensures ChannelsOf(outgoing, outgoing.Keys) == outgoing.Values
  {
  }

  lemma FullyDrained(before: Shared, sh: Shared, e: ErrorKind)
    requires PartlyDrained(before, sh, before.outgoing.Keys, e)
    requires sh.outgoing == map[] && sh.error == before.error
    ensures sh == Drained(before, e)
  {
    hide TokensOf, Repeat, ChannelsOf;
    AllChannels(before.outgoing);
    forall c | c in sh.sentTo ensures sh.sentTo[c] == Drained(before, e).sentTo[c] {
      assert SentTo(sh, c) == SentBy(before, before.outgoing.Keys, e, c);
      AllTokens(before.outgoing, c);
    }
    assert sh.sentTo == Drained(before, e).sentTo;
  }

  lemma AllTold(outgoing: map<Token, Channel>, told: set<Token>)
    requires told <= outgoing.Keys && outgoing - told == map[]
    ensures told == outgoing.Keys
  {
    forall k | k in outgoing ensures k in told {
      assert k !in outgoing - told;
    }
  }

  lemma AllTokens(outgoing: map<Token, Channel>, c: Channel)
    ensures TokensOf(outgoing, c) * outgoing.Keys == TokensOf(outgoing, c)
  {
  }

  // ---------------------------------------------------------------- the receive loop

  // One packet forwarded.
  function Forwarded(sh: Shared, packet: Packet): Shared {
    if packet.isResponse && packet.token in sh.outgoing then Deliver(sh, sh.outgoing[packet.token], Ok(packet)) else sh
  }

  function Acknowledged(acked: seq<Ack>, packet: Packet): seq<Ack> {
    if ParseForAck(packet).Some? then acked + [MakeAck(packet)] else acked
  }

  /** What the receive loop makes of a script when nobody else gets a turn. */
  function Pump(sh: Shared, acked: seq<Ack>, script: seq<Received>): (Shared, seq<Ack>, Loop)
    decreases |script|
  {
    if script == [] then (sh, acked, Listening)
    else
      match script[0]
      case Dropped => (sh, acked, Ended(false))
      case Broken(error) => (Drained(Condemned(sh, error), error), acked, Ended(true))
      case Got(packet, ackError) =>
        if ParseForAck(packet).Some? && ackError.Some? then (sh, acked, Ended(false))
        else Pump(Forwarded(sh, packet), Acknowledged(acked, packet), script[1..])
      case _ => Pump(sh, acked, script[1..])
  }

  // The steps of the protocol the loop takes for one received packet.
  function StepsFor(sh: Shared, packet: Packet): seq<Event> {
    if !packet.isResponse then [] else if packet.token in sh.outgoing then [LookUp(packet), Forward]
        else [LookUp(packet)]
  }

  function LoopEvents(sh: Shared, script: seq<Received>): seq<Event>
    decreases |script|
  {
    if script == [] then []
    else
      match script[0]
      case Dropped => [Stop]
      case Broken(error) => [Break(error), WriteError, Drain]
      case Got(packet, ackError) =>
        if ParseForAck(packet).Some? && ackError.Some? then [Stop]
        else StepsFor(sh, packet) + LoopEvents(Forwarded(sh, packet), script[1..])
      case _ => LoopEvents(sh, script[1..])
  }

  lemma {:induction false} RunSplits(w: World, first: seq<Event>, rest: seq<Event>)
    requires Executable(w, first) && Executable(Run(w, first), rest)
    ensures Executable(w, first + rest) && Run(w, first + rest) == Run(Run(w, first), rest)
    decreases |first|
  {
    if first == [] {
      assert first + rest == rest;
    } else {
      assert (first + rest)[1..] == first[1..] + rest;
      RunSplits(Step(w, first[0]), first[1..], rest);
    }
  }

  lemma StepsForward(w: World, packet: Packet)
    requires w.loop.Listening?
    ensures Executable(w, StepsFor(w.shared, packet))
    ensures Run(w, StepsFor(w.shared, packet)) == w.(shared := Forwarded(w.shared, packet))
  {
    if packet.isResponse {
      var held := Step(w, LookUp(packet));
      if packet.token in w.shared.outgoing {
        assert [LookUp(packet), Forward][1..] == [Forward];
        assert Executable(held, [Forward]) && Run(held, [Forward]) == Step(held, Forward);
      } else {
        assert Executable(w, [LookUp(packet)]);
      }
    }
  }

  lemma StepsFail(w: World, e: ErrorKind)
    requires w.loop.Listening?
    ensures Executable(w, [Break(e), WriteError, Drain])
    ensures Run(w, [Break(e), WriteError, Drain])
         == w.(shared := Drained(Condemned(w.shared, e), e), loop := Ended(true))
  {
    var w1 := Step(w, Break(e));
    var w2 := Step(w1, WriteError);
    var events := [Break(e), WriteError, Drain];
    assert events[1..] == [WriteError, Drain] && [WriteError, Drain][1..] == [Drain];
    assert Executable(w2, [Drain]) && Run(w2, [Drain]) == Step(w2, Drain);
    assert Executable(w1, [WriteError, Drain]) && Run(w1, [WriteError, Drain]) == Step(w2, Drain);
  }

  /** The loop is a run of the protocol, so everything proved of all interleavings holds of it too. */
  lemma {:induction false} PumpIsARun(w: World, acked: seq<Ack>, script: seq<Received>)
    requires w.loop.Listening?
    ensures Executable(w, LoopEvents(w.shared, script))
    ensures var (sh, acks, end) := Pump(w.shared, acked, script);
      Run(w, LoopEvents(w.shared, script)) == w.(shared := sh, loop := end)
    decreases |script|
  {
    if script != [] {
      match script[0]
      case Dropped => assert Executable(w, [Stop]);
      case Broken(error) => StepsFail(w, error);
      case Got(packet, ackError) =>
        if ParseForAck(packet).Some? && ackError.Some? {
          assert Executable(w, [Stop]);
        } else {
          StepsForward(w, packet);
          var u := w.(shared := Forwarded(w.shared, packet));
          PumpIsARun(u, Acknowledged(acked, packet), script[1..]);
          RunSplits(w, StepsFor(w.shared, packet), LoopEvents(u.shared, script[1..]));
        }
      case _ => PumpIsARun(w, acked, script[1..]);
    }
  }
}
