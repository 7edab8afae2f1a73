/** The client's token multiplexer as a concurrent protocol: one step per lock acquisition or channel
    send, any number of callers and one receive loop, interleaved in any order. */
module SyncSpec {
  import opened Coap

  type Token = Bytes

  // One channel per request; its sender is what the registry holds.
  type Channel = nat

  datatype Packet = Packet(mtype: MessageType, isResponse: bool, id: U16, token: Token, body: Bytes)

  /** What the callers and the receive loop share, and everything ever sent into each channel. */
  datatype Shared = Shared(
    error: Option<ErrorKind>,
    outgoing: map<Token, Channel>,
    sentTo: map<Channel, seq<IoResult<Packet>>>)

  function SentTo(sh: Shared, c: Channel): seq<IoResult<Packet>> {
    if c in sh.sentTo then sh.sentTo[c] else []
  }

  // ---------------------------------------------------------------- the atomic steps

  function Deliver(sh: Shared, c: Channel, what: IoResult<Packet>): Shared {
    sh.(sentTo := sh.sentTo[c := SentTo(sh, c) + [what]])
  }

  // `check_for_error`
  function Checked(sh: Shared, c: Channel): Shared {
    if sh.error.Some? then Deliver(sh, c, Err(sh.error.value)) else sh
  }

  function Inserted(sh: Shared, token: Token, c: Channel): Shared {
    sh.(outgoing := sh.outgoing[token := c])
  }

  function Forgotten(sh: Shared, token: Token): Shared {
    sh.(outgoing := sh.outgoing - {token})
  }

  // The first step of `fail`.
  function Condemned(sh: Shared, e: ErrorKind): Shared {
    sh.(error := Some(e))
  }

  function TokensOf(outgoing: map<Token, Channel>, c: Channel): set<Token> {
    set t | t in outgoing && outgoing[t] == c
  }

  function Repeat<T>(x: T, n: nat): (r: seq<T>)
    ensures |r| == n && forall i | 0 <= i < n :: r[i] == x
  {
    if n == 0 then [] else Repeat(x, n - 1) + [x]
  }

  /** The second step of `fail`: every registered sender is sent the error, once for each token it is
      registered under, and forgotten. */
  function Drained(sh: Shared, e: ErrorKind): Shared {
    sh.(outgoing := map[],
        sentTo := map c | c in sh.sentTo.Keys + sh.outgoing.Values ::
                    SentTo(sh, c) + Repeat(Err(e), |TokensOf(sh.outgoing, c)|))
  }

  // ---------------------------------------------------------------- the protocol

  /** How far a caller has got. `Registered(late)`: its sender was inserted, `late` after the drain;
      `Refused`: its error check found the error and nothing was inserted. */
  datatype Phase = Starting | Cleared | Registered(late: bool) | Refused | Gone

  datatype Caller = Caller(token: Token, phase: Phase)

  /** Where the receive loop is. It ends with the drain of `fail`, or without: when nobody holds the
      transport any more, or when an acknowledgement cannot be sent. */
  datatype Loop = Listening | Holding(to: Channel, packet: Packet) | Failing(error: ErrorKind)
                | Draining(error: ErrorKind) | Ended(drained: bool)

  datatype World = World(shared: Shared, callers: map<Channel, Caller>, loop: Loop)

  const Start := World(Shared(None, map[], map[]), map[], Listening)

  datatype Event =
    | Arrive(c: Channel, token: Token)
    | Check(c: Channel)
    | Insert(c: Channel)
    | Leave(c: Channel)
    | LookUp(packet: Packet)
    | Forward
    | Break(error: ErrorKind)
    | WriteError
    | Drain
    | Stop

  predicate Enabled(w: World, e: Event) {
    match e
    case Arrive(c, _) => c !in w.callers
    case Check(c) => c in w.callers && w.callers[c].phase.Starting?
    case Insert(c) => c in w.callers && w.callers[c].phase.Cleared?
    case Leave(c) => c in w.callers && (w.callers[c].phase.Registered? || w.callers[c].phase.Refused?)
    case LookUp(_) => w.loop.Listening?
    case Forward => w.loop.Holding?
    case Break(_) => w.loop.Listening?
    case WriteError => w.loop.Failing?
    case Drain => w.loop.Draining?
    case Stop => w.loop.Listening?
  }

  function At(w: World, c: Channel, phase: Phase): map<Channel, Caller>
    requires c in w.callers
  {
    w.callers[c := w.callers[c].(phase := phase)]
  }

  function Step(w: World, e: Event): World
    requires Enabled(w, e)
  {
    match e
    case Arrive(c, token) => w.(callers := w.callers[c := Caller(token, Starting)])
    case Check(c) =>
      w.(shared := Checked(w.shared, c), callers := At(w, c, if w.shared.error.Some? then Refused else Cleared))
    case Insert(c) =>
      w.(shared := Inserted(w.shared, w.callers[c].token, c), callers := At(w, c, Registered(w.loop == Ended(true))))
    case Leave(c) =>
      w.(shared := Forgotten(w.shared, w.callers[c].token), callers := At(w, c, Gone))
    case LookUp(packet) =>
      if packet.token in w.shared.outgoing then w.(loop := Holding(w.shared.outgoing[packet.token], packet)) else w
    case Forward => w.(shared := Deliver(w.shared, w.loop.to, Ok(w.loop.packet)), loop := Listening)
    case Break(error) => w.(loop := Failing(error))
    case WriteError => w.(shared := Condemned(w.shared, w.loop.error), loop := Draining(w.loop.error))
    case Drain => w.(shared := Drained(w.shared, w.loop.error), loop := Ended(true))
    case Stop => w.(loop := Ended(false))
  }

  predicate Executable(w: World, events: seq<Event>)
    decreases |events|
  {
    events == [] || (Enabled(w, events[0]) && Executable(Step(w, events[0]), events[1..]))
  }

  function Run(w: World, events: seq<Event>): World
    requires Executable(w, events)
    decreases |events|
  {
    if events == [] then w else Run(Step(w, events[0]), events[1..])
  }

  // ---------------------------------------------------------------- what every step keeps

  ghost predicate OwnResponses(log: seq<IoResult<Packet>>, token: Token) {
    forall i | 0 <= i < |log| :: log[i].Ok? ==> log[i].value.token == token
  }

  // An error of the transport among what was sent into a channel.
  ghost predicate ToldOfFailure(log: seq<IoResult<Packet>>) {
    exists i :: 0 <= i < |log| && log[i].Err?
  }

  ghost predicate Consistent(w: World) {
    && (forall t | t in w.shared.outgoing ::
          var c := w.shared.outgoing[t]; c in w.callers && w.callers[c].token == t && w.callers[c].phase.Registered?)
    && (forall c | c in w.shared.sentTo :: c in w.callers)
    && (w.loop.Holding? ==> w.loop.to in w.callers && w.callers[w.loop.to].token == w.loop.packet.token
                            && (w.callers[w.loop.to].phase.Registered? || w.callers[w.loop.to].phase.Gone?))
    && (w.shared.error.Some? <==> w.loop.Draining? || w.loop == Ended(true))
    && (w.loop.Draining? ==> w.shared.error == Some(w.loop.error))
    && (forall c | c in w.callers :: Informed(w, c, w.callers[c]))
  }

  // What a caller has been sent, by its phase.
  ghost predicate Informed(w: World, c: Channel, caller: Caller) {
    && OwnResponses(SentTo(w.shared, c), caller.token)
    && match caller.phase
       case Starting => SentTo(w.shared, c) == []
       case Cleared => SentTo(w.shared, c) == []
       case Registered(late) =>
         && (late ==> w.loop == Ended(true) && SentTo(w.shared, c) == [])
         && (w.loop != Ended(true) ==> !ToldOfFailure(SentTo(w.shared, c)))
       case Refused => w.shared.error.Some? && SentTo(w.shared, c) == [Err(w.shared.error.value)]
       case Gone => true
  }

  lemma TokensOfOne(w: World, c: Channel)
    requires Consistent(w) && c in w.callers
    ensures TokensOf(w.shared.outgoing, c)
         == if w.callers[c].token in w.shared.outgoing && w.shared.outgoing[w.callers[c].token] == c
            then {w.callers[c].token} else {}
  {
  }

  // What the drain sends into a channel.
  lemma DrainedTo(w: World, e: ErrorKind, c: Channel)
    requires Consistent(w) && c in w.callers
    ensures SentTo(Drained(w.shared, e), c)
         == SentTo(w.shared, c)
            + if w.callers[c].token in w.shared.outgoing && w.shared.outgoing[w.callers[c].token] == c
              then [Err(e)] else []
  {
    TokensOfOne(w, c);
    var token := w.callers[c].token;
    if token in w.shared.outgoing && w.shared.outgoing[token] == c {
      assert w.shared.outgoing[token] in w.shared.outgoing.Values;
      assert |{token}| == 1;
      var failure: IoResult<Packet> := Err(e);
      assert Repeat(failure, 1) == [failure];
    }
  }

  lemma DrainKeepsConsistent(w: World)
    requires Consistent(w) && Enabled(w, Drain)
    ensures Consistent(Step(w, Drain))
  {
    var u := Step(w, Drain);
    forall c | c in u.shared.sentTo ensures c in u.callers {
      if c !in w.shared.sentTo {
        var t :| t in w.shared.outgoing && w.shared.outgoing[t] == c;
      }
    }
    forall c | c in u.callers ensures Informed(u, c, u.callers[c]) {
      assert Informed(w, c, w.callers[c]);
      DrainedTo(w, w.loop.error, c);
    }
  }

  lemma ForwardKeepsConsistent(w: World)
    requires Consistent(w) && Enabled(w, Forward)
    ensures Consistent(Step(w, Forward))
  {
    var u := Step(w, Forward);
    forall c | c in u.callers ensures Informed(u, c, u.callers[c]) {
      assert Informed(w, c, w.callers[c]);
    }
  }

  lemma WriteErrorKeepsConsistent(w: World)
    requires Consistent(w) && Enabled(w, WriteError)
    ensures Consistent(Step(w, WriteError))
  {
    var u := Step(w, WriteError);
    forall c | c in u.callers ensures Informed(u, c, u.callers[c]) {
      assert Informed(w, c, w.callers[c]);
    }
  }

  lemma CallerStepKeepsConsistent(w: World, e: Event)
    requires Consistent(w) && Enabled(w, e) && (e.Arrive? || e.Check? || e.Insert? || e.Leave?)
    ensures Consistent(Step(w, e))
  {
    var u := Step(w, e);
    forall c | c in u.callers ensures Informed(u, c, u.callers[c]) {
      if c in w.callers {
        assert Informed(w, c, w.callers[c]);
      }
    }
  }

  /** Every step of every interleaving keeps the registry in order. */
  lemma StepKeepsConsistent(w: World, e: Event)
    requires Consistent(w) && Enabled(w, e)
    ensures Consistent(Step(w, e))
  {
    hide Consistent;
    match e
    case Drain => DrainKeepsConsistent(w);
    case Forward => ForwardKeepsConsistent(w);
    case WriteError => WriteErrorKeepsConsistent(w);
    case LookUp(_) => LoopStepKeepsConsistent(w, e);
    case Break(_) => LoopStepKeepsConsistent(w, e);
    case Stop => LoopStepKeepsConsistent(w, e);
    case _ => CallerStepKeepsConsistent(w, e);
  }

  lemma LoopStepKeepsConsistent(w: World, e: Event)
    requires Consistent(w) && Enabled(w, e) && (e.LookUp? || e.Break? || e.Stop?)
    ensures Consistent(Step(w, e))
  {
    var u := Step(w, e);
    forall c | c in u.callers ensures Informed(u, c, u.callers[c]) {
      assert Informed(w, c, w.callers[c]);
    }
  }

  lemma {:induction false} RunKeepsConsistent(w: World, events: seq<Event>)
    requires Consistent(w) && Executable(w, events)
    ensures Consistent(Run(w, events))
    decreases |events|
  {
    if events != [] {
      StepKeepsConsistent(w, events[0]);
      RunKeepsConsistent(Step(w, events[0]), events[1..]);
    }
  }

  /** Whatever the interleaving, and even when callers share tokens, a caller is only ever sent responses
      that carry its own token. */
  lemma OnlyOwnResponses(events: seq<Event>, c: Channel)
    requires Executable(Start, events) && c in Run(Start, events).callers
    ensures OwnResponses(SentTo(Run(Start, events).shared, c), Run(Start, events).callers[c].token)
  {
    RunKeepsConsistent(Start, events);
    assert Informed(Run(Start, events), c, Run(Start, events).callers[c]);
  }

  // ---------------------------------------------------------------- distinct tokens

  ghost predicate Uses(w: World, c: Channel, token: Token) {
    c in w.callers && !w.callers[c].phase.Gone? && w.callers[c].token == token
  }

  // A request arrives with a token nobody else is using.
  ghost predicate Polite(w: World, e: Event) {
    e.Arrive? ==> forall c :: !Uses(w, c, e.token)
  }

  ghost predicate AllPolite(w: World, events: seq<Event>)
    requires Executable(w, events)
    decreases |events|
  {
    events == [] || (Polite(w, events[0]) && AllPolite(Step(w, events[0]), events[1..]))
  }

  ghost predicate IsRegistered(w: World, c: Channel) {
    c in w.callers && w.callers[c].token in w.shared.outgoing && w.shared.outgoing[w.callers[c].token] == c
  }

  /** Tokens in use are distinct; a waiting caller is registered unless the drain got to it. */
  ghost predicate Exclusive(w: World) {
    && (forall c, d, t | Uses(w, c, t) && Uses(w, d, t) :: c == d)
    && (forall c | c in w.callers && w.callers[c].phase.Registered? :: Reachable(w, c))
  }

  ghost predicate Reachable(w: World, c: Channel)
    requires c in w.callers && w.callers[c].phase.Registered?
  {
    if w.loop == Ended(true) && !w.callers[c].phase.late then ToldOfFailure(SentTo(w.shared, c))
    else IsRegistered(w, c)
  }

  lemma DrainKeepsExclusive(w: World)
    requires Consistent(w) && Exclusive(w) && Enabled(w, Drain)
    ensures Exclusive(Step(w, Drain))
  {
    var u := Step(w, Drain);
    forall c | c in u.callers && u.callers[c].phase.Registered? ensures Reachable(u, c) {
      assert Reachable(w, c) && Informed(w, c, w.callers[c]);
      DrainedTo(w, w.loop.error, c);
      var log := SentTo(u.shared, c);
      assert log[|log| - 1].Err?;
    }
    forall c, d, t | Uses(u, c, t) && Uses(u, d, t) ensures c == d {
      assert Uses(w, c, t) && Uses(w, d, t);
    }
  }

  lemma StepKeepsExclusive(w: World, e: Event)
    requires Consistent(w) && Exclusive(w) && Enabled(w, e) && Polite(w, e)
    ensures Exclusive(Step(w, e))
  {
    var u := Step(w, e);
    if e.Drain? {
      DrainKeepsExclusive(w);
    } else {
      forall c, d, t | Uses(u, c, t) && Uses(u, d, t) ensures c == d {
        if !e.Arrive? {
          assert Uses(w, c, t) && Uses(w, d, t);
        } else {
          assert c != e.c ==> Uses(w, c, t);
          assert d != e.c ==> Uses(w, d, t);
        }
      }
      forall c | c in u.callers && u.callers[c].phase.Registered? ensures Reachable(u, c) {
        StepKeepsReachable(w, e, c);
      }
    }
  }

  lemma StepKeepsReachable(w: World, e: Event, c: Channel)
    requires Consistent(w) && Exclusive(w) && Enabled(w, e) && Polite(w, e) && !e.Drain?
    requires c in Step(w, e).callers && Step(w, e).callers[c].phase.Registered?
    ensures Reachable(Step(w, e), c)
  {
    var u := Step(w, e);
    if e != Insert(c) {
      assert Reachable(w, c) && Uses(w, c, w.callers[c].token);
      if e.Insert? || e.Leave? {
        assert Uses(w, e.c, w.callers[e.c].token);
      }
      if u.loop == Ended(true) && !u.callers[c].phase.late {
        var i :| 0 <= i < |SentTo(w.shared, c)| && SentTo(w.shared, c)[i].Err?;
        assert SentTo(u.shared, c)[i].Err?;
      }
    }
  }

  lemma {:induction false} RunKeepsExclusive(w: World, events: seq<Event>)
    requires Consistent(w) && Exclusive(w) && Executable(w, events) && AllPolite(w, events)
    ensures Consistent(Run(w, events)) && Exclusive(Run(w, events))
    decreases |events|
  {
    if events != [] {
      StepKeepsConsistent(w, events[0]);
      StepKeepsExclusive(w, events[0]);
      RunKeepsExclusive(Step(w, events[0]), events[1..]);
    }
  }

  /** With distinct tokens, a response that comes in before the transport fails is handed to the caller
      waiting for its token, and forwarding it puts it into that caller's channel. */
  lemma ResponsesReachTheirCaller(events: seq<Event>, c: Channel, packet: Packet)
    requires Executable(Start, events) && AllPolite(Start, events)
    requires var w := Run(Start, events);
      w.loop.Listening? && c in w.callers && w.callers[c].phase.Registered? && w.callers[c].token == packet.token
    ensures var w := Run(Start, events);
      && Step(w, LookUp(packet)).loop == Holding(c, packet)
      && SentTo(Step(Step(w, LookUp(packet)), Forward).shared, c) == SentTo(w.shared, c) + [Ok(packet)]
  {
    RunKeepsExclusive(Start, events);
    assert Reachable(Run(Start, events), c) && Informed(Run(Start, events), c, Run(Start, events).callers[c]);
  }

  /** At any time a caller still waiting was sent the transport error iff its check found it, or the drain is
      through and its sender was in by then. So when the receive loop has ended, whoever waits was told unless the
      loop ended without a drain, or the caller fell into the gap between the two steps of `set_sender`: its error
      check came before the error was written and its sender went in after the drain. Such a caller is sent nothing
      at all. */
  lemma FailureReachesAllButLate(events: seq<Event>, c: Channel)
    requires Executable(Start, events) && AllPolite(Start, events)
    requires var w := Run(Start, events);
      c in w.callers && (w.callers[c].phase.Registered? || w.callers[c].phase.Refused?)
    ensures var w := Run(Start, events);
      && (ToldOfFailure(SentTo(w.shared, c))
          <==> w.callers[c].phase.Refused? || (w.loop == Ended(true) && w.callers[c].phase == Registered(false)))
      && (w.loop.Ended? ==>
            (ToldOfFailure(SentTo(w.shared, c)) <==> w.loop == Ended(true) && w.callers[c].phase != Registered(true)))
      && (w.callers[c].phase == Registered(true) ==> SentTo(w.shared, c) == [])
  {
    RunKeepsExclusive(Start, events);
    var w := Run(Start, events);
    assert Informed(w, c, w.callers[c]);
    if w.callers[c].phase.Refused? {
      assert SentTo(w.shared, c)[0].Err?;
    } else {
      assert Reachable(w, c);
    }
  }

  // Every error known or sent is one the transport broke with.
  ghost predicate ErrorsAmong(w: World, errors: set<ErrorKind>) {
    && (w.shared.error.Some? ==> w.shared.error.value in errors)
    && (w.loop.Failing? || w.loop.Draining? ==> w.loop.error in errors)
    && forall c :: LoggedAmong(SentTo(w.shared, c), errors)
  }

  ghost predicate LoggedAmong(log: seq<IoResult<Packet>>, errors: set<ErrorKind>) {
    forall i | 0 <= i < |log| && log[i].Err? :: log[i].error in errors
  }

  function Breaks(events: seq<Event>): set<ErrorKind> {
    if events == [] then {} else (if events[0].Break? then {events[0].error} else {}) + Breaks(events[1..])
  }

  lemma StepKeepsErrors(w: World, e: Event, errors: set<ErrorKind>)
    requires Enabled(w, e) && ErrorsAmong(w, errors)
    ensures ErrorsAmong(Step(w, e), errors + if e.Break? then {e.error} else {})
  {
    var u, more := Step(w, e), errors + if e.Break? then {e.error} else {};
    forall c ensures LoggedAmong(SentTo(u.shared, c), more) {
      assert LoggedAmong(SentTo(w.shared, c), errors);
    }
  }

  lemma {:induction false} RunKeepsErrors(w: World, events: seq<Event>, errors: set<ErrorKind>)
    requires Executable(w, events) && ErrorsAmong(w, errors)
    ensures ErrorsAmong(Run(w, events), errors + Breaks(events))
    decreases |events|
  {
    hide ErrorsAmong;
    if events == [] {
      assert errors + {} == errors;
    } else {
      var first := if events[0].Break? then {events[0].error} else {};
      StepKeepsErrors(w, events[0], errors);
      RunKeepsErrors(Step(w, events[0]), events[1..], errors + first);
      assert errors + Breaks(events) == errors + first + Breaks(events[1..]);
    }
  }

  /** What callers are sent of a failure is the failure itself: any error in any channel is one the transport broke
      with, in every interleaving. */
  lemma ErrorsAreTheTransports(events: seq<Event>, c: Channel, i: nat)
    requires Executable(Start, events) && i < |SentTo(Run(Start, events).shared, c)|
    requires SentTo(Run(Start, events).shared, c)[i].Err?
    ensures SentTo(Run(Start, events).shared, c)[i].error in Breaks(events)
  {
    RunKeepsErrors(Start, events, {});
    assert LoggedAmong(SentTo(Run(Start, events).shared, c), {} + Breaks(events));
  }

  /** A loop that ended without the drain is silent for good: whatever happens afterwards, no channel is sent
      anything any more, no error either. */
  lemma {:induction false} SilentForGood(w: World, events: seq<Event>)
    requires Consistent(w) && Executable(w, events) && w.loop == Ended(false)
    ensures Run(w, events).loop == Ended(false) && Run(w, events).shared.sentTo == w.shared.sentTo
    decreases |events|
  {
    hide Consistent;
    if events != [] {
      SilentStep(w, events[0]);
      StepKeepsConsistent(w, events[0]);
      SilentForGood(Step(w, events[0]), events[1..]);
    }
  }

  lemma SilentStep(w: World, e: Event)
    requires Consistent(w) && Enabled(w, e) && w.loop == Ended(false)
    ensures Step(w, e).loop == Ended(false) && Step(w, e).shared.sentTo == w.shared.sentTo
  {
  }

  /** The input: a caller whose sender is in when the loop stops, as it does when an acknowledgement cannot be sent.
      It is still waiting, and is sent nothing, ever. */
  lemma NobodyIsTold(token: Token)
    ensures var events := [Arrive(0, token), Check(0), Insert(0), Stop];
      && Executable(Start, events) && AllPolite(Start, events)
      && var w := Run(Start, events);
         && w.loop == Ended(false) && 0 in w.callers && w.callers[0].phase == Registered(false)
         && forall more | Executable(w, more) :: SentTo(Run(w, more).shared, 0) == []
  {
    hide Executable, Run, AllPolite;
    var w1 := Step(Start, Arrive(0, token));
    var w2 := Step(w1, Check(0));
    var w3 := Step(w2, Insert(0));
    var w4 := Step(w3, Stop);
    NothingLeft(w4);
    var tail3: seq<Event> := [Stop];
    var tail2 := [Insert(0)] + tail3;
    var tail1 := [Check(0)] + tail2;
    var all := [Arrive(0, token)] + tail1;
    Unfold(w3, tail3);
    Unfold(w2, tail2);
    Unfold(w1, tail1);
    Unfold(Start, all);
    assert all == [Arrive(0, token), Check(0), Insert(0), Stop];
    RunKeepsConsistent(Start, all);
    forall more | Executable(w4, more) ensures SentTo(Run(w4, more).shared, 0) == [] {
      SilentForGood(w4, more);
    }
  }

  /** The gap is real: the run below leaves a caller with its own token registered and told nothing. */
  lemma TheGap(token: Token, e: ErrorKind)
    ensures var events := [Arrive(0, token), Check(0), Break(e), WriteError, Drain, Insert(0)];
      && Executable(Start, events) && AllPolite(Start, events)
      && 0 in Run(Start, events).callers && Run(Start, events).callers[0].phase == Registered(true)
      && IsRegistered(Run(Start, events), 0) && SentTo(Run(Start, events).shared, 0) == []
  {
    hide Executable, Run, AllPolite;
    var w1 := Step(Start, Arrive(0, token));
    var w2 := Step(w1, Check(0));
    assert w2 == World(Start.shared, map[0 := Caller(token, Cleared)], Listening);
    LateInsertion(w2, token, e);
    var tail2 := [Break(e), WriteError, Drain, Insert(0)];
    var tail1 := [Check(0)] + tail2;
    var all := [Arrive(0, token)] + tail1;
    Unfold(w1, tail1);
    Unfold(Start, all);
    assert all == [Arrive(0, token), Check(0), Break(e), WriteError, Drain, Insert(0)];
  }

  lemma LateInsertion(w: World, token: Token, e: ErrorKind)
    requires w == World(Start.shared, map[0 := Caller(token, Cleared)], Listening)
    ensures var events := [Break(e), WriteError, Drain, Insert(0)];
      && Executable(w, events) && AllPolite(w, events)
      && Run(w, events) == World(Inserted(Condemned(w.shared, e), token, 0), map[0 := Caller(token,
          Registered(true))], Ended(true))
  {
    hide Executable, Run, AllPolite, Drained;
    var w1 := Step(w, Break(e));
    var w2 := Step(w1, WriteError);
    var w3 := Step(w2, Drain);
    var w4 := Step(w3, Insert(0));
    DrainOfNothing(w2.shared, e);
    NothingLeft(w4);
    var tail3: seq<Event> := [Insert(0)];
    var tail2 := [Drain] + tail3;
    var tail1 := [WriteError] + tail2;
    var all := [Break(e)] + tail1;
    Unfold(w3, tail3);
    Unfold(w2, tail2);
    Unfold(w1, tail1);
    Unfold(w, all);
    assert all == [Break(e), WriteError, Drain, Insert(0)];
  }

  lemma DrainOfNothing(sh: Shared, e: ErrorKind)
    requires sh.outgoing == map[] && sh.sentTo == map[]
    ensures Drained(sh, e) == sh
  {
  }

  lemma NothingLeft(w: World)
    ensures Executable(w, []) && AllPolite(w, []) && Run(w, []) == w
  {
  }

  lemma Unfold(w: World, events: seq<Event>)
    requires events != [] && Enabled(w, events[0]) && Polite(w, events[0])
    requires Executable(Step(w, events[0]), events[1..]) && AllPolite(Step(w, events[0]), events[1..])
    ensures Executable(w, events) && AllPolite(w, events)
    ensures Run(w, events) == Run(Step(w, events[0]), events[1..])
  {
  }

  // ---------------------------------------------------------------- how long a sender stays

  // A step that leaves a token's entry alone: other tokens' steps, and the loop's short of the drain.
  ghost predicate Elsewhere(w: World, e: Event, token: Token)
    requires Enabled(w, e)
  {
    && (e.Insert? || e.Leave? ==> w.callers[e.c].token != token)
    && !e.Drain?
  }

  ghost predicate AllElsewhere(w: World, events: seq<Event>, token: Token)
    requires Executable(w, events)
    decreases |events|
  {
    events == [] || (Elsewhere(w, events[0], token) && AllElsewhere(Step(w, events[0]), events[1..], token))
  }

  // The sender was inserted once and not for good.
  ghost predicate IsLost(w: World, c: Channel) {
    c in w.callers && (w.callers[c].phase.Registered? || w.callers[c].phase.Gone?) && !IsRegistered(w, c)
  }

  lemma {:induction false} LostForGood(w: World, events: seq<Event>, c: Channel)
    requires Executable(w, events) && IsLost(w, c)
    ensures IsLost(Run(w, events), c)
    decreases |events|
  {
    if events != [] {
      assert IsLost(Step(w, events[0]), c);
      LostForGood(Step(w, events[0]), events[1..], c);
    }
  }

  lemma StepKeepsIff(w: World, e: Event, c: Channel)
    requires Consistent(w) && Enabled(w, e) && IsRegistered(w, c)
    ensures c in Step(w, e).callers && Step(w, e).callers[c].token == w.callers[c].token
    ensures if Elsewhere(w, e, w.callers[c].token) then IsRegistered(Step(w, e), c) else IsLost(Step(w, e), c)
  {
    hide Informed;
  }

  /** In every interleaving, a registered sender is still registered iff nobody inserted or left under its token
      since, and the registry was not drained. Once lost it is lost for good. */
  lemma {:induction false} SenderSurvivesIff(w: World, events: seq<Event>, c: Channel)
    requires Consistent(w) && Executable(w, events) && IsRegistered(w, c)
    ensures c in Run(w, events).callers
    ensures IsRegistered(Run(w, events), c) <==> AllElsewhere(w, events, w.callers[c].token)
    decreases |events|
  {
    RegisteredIsCaller(w, c);
    hide Consistent, IsRegistered, IsLost, Elsewhere, Step;
    if events != [] {
      StepKeepsIff(w, events[0], c);
      StepKeepsConsistent(w, events[0]);
      var u := Step(w, events[0]);
      if Elsewhere(w, events[0], w.callers[c].token) {
        SenderSurvivesIff(u, events[1..], c);
      } else {
        LostForGood(u, events[1..], c);
        LostIsNotRegistered(Run(w, events), c);
      }
    }
  }

  lemma LostIsNotRegistered(w: World, c: Channel)
    requires IsLost(w, c)
    ensures c in w.callers && !IsRegistered(w, c)
  {
  }

  lemma RegisteredIsCaller(w: World, c: Channel)
    requires IsRegistered(w, c)
    ensures c in w.callers
  {
  }

  // Nobody is about to register under a token.
  ghost predicate Abandoned(w: World, token: Token) {
    && token !in w.shared.outgoing
    && forall c | c in w.callers && w.callers[c].token == token ::
         !w.callers[c].phase.Starting? && !w.callers[c].phase.Cleared?
  }

  ghost predicate NeverArrives(events: seq<Event>, token: Token) {
    forall i | 0 <= i < |events| && events[i].Arrive? :: events[i].token != token
  }

  /** And it stays gone until somebody asks for the token again: no packet looked up in the meantime goes to
      the observation. */
  lemma {:induction false} SenderStaysForgotten(w: World, events: seq<Event>, token: Token)
    requires Executable(w, events) && Abandoned(w, token) && NeverArrives(events, token)
    ensures Abandoned(Run(w, events), token)
    decreases |events|
  {
    if events != [] {
      var u := Step(w, events[0]);
      assert Abandoned(u, token);
      SenderStaysForgotten(u, events[1..], token);
    }
  }
}
