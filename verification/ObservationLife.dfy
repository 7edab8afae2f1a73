/** The life of an observation in the client: `observe_with` registers a long-lived sender under its token, other
    requests and block-wise continuations come and go, and a termination reuses the token. Every step is a step of
    SyncSpec or leaves its world alone, and all interleavings are considered. */
module ObservationLife {
  import opened Coap
  import opened SyncSpec
  import Client

  /** How far an observation has got: `Opening` until its registration is answered, `Ending(ender)` while the request
      `ender` deregisters it. */
  datatype Stage = Opening | Active | Ending(ender: Channel) | Over

  datatype System = System(world: World, stages: map<Channel, Stage>, terminations: map<Channel, Channel>)

  const AtRest := System(Start, map[], map[])

  datatype Event =
    | Plain(step: SyncSpec.Event)
    | Observe(c: Channel, token: Token)
    | Accept(c: Channel)
    | Fail(c: Channel)
    | Terminate(c: Channel, ender: Channel)
    | Finish(ender: Channel)
    | Close(c: Channel)

  // Something came through the channel.
  ghost predicate Answered(log: seq<IoResult<Packet>>) {
    exists i :: 0 <= i < |log| && log[i].Ok?
  }

  /** `Plain` is any step of an ordinary request or of the receive loop, or a step of set_sender. An observation
      leaves the registry only when its registration fails; a termination is a request under the observation's own
      token; and the task of an observation ends when nobody holds its sender any more. */
  ghost predicate Enabled(s: System, e: Event) {
    match e
    case Plain(step) =>
      && SyncSpec.Enabled(s.world, step)
      && (step.Leave? ==> step.c !in s.stages && step.c !in s.terminations)
    case Observe(c, _) => c !in s.world.callers
    case Accept(c) => c in s.stages && s.stages[c].Opening? && Answered(SentTo(s.world.shared, c))
    case Fail(c) => c in s.stages && s.stages[c].Opening? && SyncSpec.Enabled(s.world, Leave(c))
    case Terminate(c, ender) =>
      && c in s.stages && s.stages[c].Active?
      && ender !in s.world.callers && c in s.world.callers
    case Finish(ender) =>
      && ender in s.terminations && s.terminations[ender] in s.stages
      && s.stages[s.terminations[ender]] == Ending(ender)
      && SyncSpec.Enabled(s.world, Leave(ender))
    case Close(c) =>
      && c in s.stages && s.stages[c].Active? && !IsRegistered(s.world, c)
      && !(s.world.loop.Holding? && s.world.loop.to == c)
  }

  // The step of the multiplexer, if the event is one.
  ghost function StepsOf(s: System, e: Event): Option<SyncSpec.Event>
    requires Enabled(s, e)
  {
    match e
    case Plain(step) => Some(step)
    case Observe(c, token) => Some(Arrive(c, token))
    case Fail(c) => Some(Leave(c))
    case Terminate(c, ender) => Some(Arrive(ender, s.world.callers[c].token))
    case Finish(ender) => Some(Leave(ender))
    case Accept(_) => None
    case Close(_) => None
  }

  ghost function Step(s: System, e: Event): System
    requires Enabled(s, e)
  {
    var step := StepsOf(s, e);
    var world := if step.Some? then SyncSpec.Step(s.world, step.value) else s.world;
    match e
    case Plain(_) => s.(world := world)
    case Observe(c, _) => s.(world := world, stages := s.stages[c := Opening])
    case Accept(c) => s.(stages := s.stages[c := Active])
    case Fail(c) => s.(world := world, stages := s.stages[c := Over])
    case Terminate(c, ender) =>
      System(world, s.stages[c := Ending(ender)], s.terminations[ender := c])
    case Finish(ender) => s.(world := world, stages := s.stages[s.terminations[ender] := Over])
    case Close(c) => s.(stages := s.stages[c := Over])
  }

  ghost predicate Executable(s: System, events: seq<Event>)
    decreases |events|
  {
    events == [] || (Enabled(s, events[0]) && Executable(Step(s, events[0]), events[1..]))
  }

  ghost function Run(s: System, events: seq<Event>): System
    requires Executable(s, events)
    decreases |events|
  {
    if events == [] then s else Run(Step(s, events[0]), events[1..])
  }

  // ---------------------------------------------------------------- whatever the tokens

  /** What holds in every interleaving: only an observation that has its sender in the registry or lost it can be
      active, and one that is over is not in the registry. */
  ghost predicate InOrder(s: System) {
    && Consistent(s.world)
    && (forall c | c in s.stages :: c in s.world.callers && StageInOrder(s, c))
    && (forall d | d in s.terminations :: TerminationInOrder(s, d))
  }

  // A termination runs while its observation is ending, under its token, and is gone when that is over.
  ghost predicate TerminationInOrder(s: System, d: Channel)
    requires d in s.terminations
  {
    var c := s.terminations[d];
    && d in s.world.callers && d !in s.stages && c in s.stages && c in s.world.callers
    && s.world.callers[d].token == s.world.callers[c].token
    && (s.stages[c] == Ending(d) || (s.stages[c].Over? && s.world.callers[d].phase.Gone?))
  }

  ghost predicate StageInOrder(s: System, c: Channel)
    requires c in s.stages && c in s.world.callers
  {
    && c !in s.terminations
    && match s.stages[c]
       case Opening => !s.world.callers[c].phase.Gone?
       case Active => s.world.callers[c].phase == Registered(false)
       case Ending(ender) =>
         && s.world.callers[c].phase == Registered(false)
         && ender in s.terminations && s.terminations[ender] == c && ender in s.world.callers
         && s.world.callers[ender].token == s.world.callers[c].token && !s.world.callers[ender].phase.Gone?
       case Over =>
         && (s.world.callers[c].phase.Registered? || s.world.callers[c].phase.Gone?)
         && !IsRegistered(s.world, c)
  }

  lemma AnsweredIsRegistered(w: World, c: Channel)
    requires Consistent(w) && c in w.callers && Answered(SentTo(w.shared, c)) && !w.callers[c].phase.Gone?
    ensures w.callers[c].phase == Registered(false)
  {
    assert Informed(w, c, w.callers[c]);
  }

  // What a step of the multiplexer does to a caller.
  lemma WorldStep(w: World, step: SyncSpec.Event, c: Channel)
    requires SyncSpec.Enabled(w, step) && c in w.callers
    ensures var u := SyncSpec.Step(w, step);
      && c in u.callers && u.callers[c].token == w.callers[c].token
      && (step.Check? && step.c == c ==> w.callers[c].phase.Starting?)
      && (step.Check? && step.c == c ==> u.callers[c].phase.Cleared? || u.callers[c].phase.Refused?)
      && (step == Insert(c) ==> w.callers[c].phase.Cleared? && u.callers[c].phase.Registered?)
      && (step == Leave(c) ==> w.callers[c].phase.Registered? || w.callers[c].phase.Refused?)
      && (step == Leave(c) ==> u.callers[c].phase.Gone?)
      && (!((step.Check? || step.Insert? || step.Leave?) && step.c == c) ==> u.callers[c] == w.callers[c])
      && (IsRegistered(u, c) ==> IsRegistered(w, c) || step == Insert(c))
      && (step.Leave? && w.callers[step.c].token == w.callers[c].token ==> !IsRegistered(u, c))
  {
  }

  lemma NewCaller(w: World, c: Channel, token: Token)
    requires c !in w.callers
    ensures SyncSpec.Step(w, Arrive(c, token)).callers == w.callers[c := Caller(token, Starting)]
  {
  }

  lemma PlainStageInOrder(s: System, step: SyncSpec.Event, c: Channel)
    requires InOrder(s) && Enabled(s, Plain(step)) && c in s.stages
    ensures c in Step(s, Plain(step)).world.callers && StageInOrder(Step(s, Plain(step)), c)
  {
    hide Consistent, Answered, SyncSpec.Step, IsRegistered;
    assert StageInOrder(s, c);
    WorldStep(s.world, step, c);
    if s.stages[c].Ending? {
      WorldStep(s.world, step, s.stages[c].ender);
    }
  }

  lemma OtherStageInOrder(s: System, e: Event, c: Channel)
    requires InOrder(s) && Enabled(s, e) && !e.Plain? && c in s.stages
    ensures c in Step(s, e).world.callers && StageInOrder(Step(s, e), c)
  {
    hide Consistent, Answered, SyncSpec.Step, IsRegistered;
    assert StageInOrder(s, c);
    var step := StepsOf(s, e);
    if step.Some? {
      WorldStep(s.world, step.value, c);
      if s.stages[c].Ending? {
        WorldStep(s.world, step.value, s.stages[c].ender);
      }
    }
    if e.Accept? {
      AnsweredIsRegistered(s.world, e.c);
    }
    if e.Terminate? {
      NewCaller(s.world, e.ender, s.world.callers[e.c].token);
    }
  }

  lemma StepKeepsInOrder(s: System, e: Event)
    requires InOrder(s) && Enabled(s, e)
    ensures InOrder(Step(s, e))
  {
    hide Consistent, Answered, SyncSpec.Step, StageInOrder;
    var t := Step(s, e);
    if StepsOf(s, e).Some? {
      StepKeepsConsistent(s.world, StepsOf(s, e).value);
    }
    forall c | c in t.stages ensures c in t.world.callers && StageInOrder(t, c) {
      if c !in s.stages {
        NewStageInOrder(s, e);
      } else if e.Plain? {
        PlainStageInOrder(s, e.step, c);
      } else {
        OtherStageInOrder(s, e, c);
      }
    }
    forall d | d in t.terminations ensures TerminationInOrder(t, d) {
      TerminationKept(s, e, d);
    }
  }

  lemma NewStageInOrder(s: System, e: Event)
    requires InOrder(s) && Enabled(s, e) && e.Observe?
    ensures e.c in Step(s, e).world.callers && StageInOrder(Step(s, e), e.c)
  {
    NewCaller(s.world, e.c, e.token);
  }

  lemma TerminationKept(s: System, e: Event, d: Channel)
    requires InOrder(s) && Enabled(s, e) && d in Step(s, e).terminations
    ensures TerminationInOrder(Step(s, e), d)
  {
    hide Consistent, Answered, SyncSpec.Step, IsRegistered;
    var step := StepsOf(s, e);
    if d in s.terminations {
      assert TerminationInOrder(s, d) && StageInOrder(s, s.terminations[d]);
      if step.Some? {
        WorldStep(s.world, step.value, d);
        WorldStep(s.world, step.value, s.terminations[d]);
      }
    }
    if e.Terminate? {
      WorldStep(s.world, step.value, e.c);
      NewCaller(s.world, e.ender, s.world.callers[e.c].token);
    }
  }

  lemma {:induction false} RunKeepsInOrder(s: System, events: seq<Event>)
    requires InOrder(s) && Executable(s, events)
    ensures InOrder(Run(s, events))
    decreases |events|
  {
    if events != [] {
      StepKeepsInOrder(s, events[0]);
      RunKeepsInOrder(Step(s, events[0]), events[1..]);
    }
  }

  /** Once an observation is over - its registration failed, its termination is through, or its sender is lost - no
      packet looked up goes to it any more, whatever tokens anybody uses. */
  lemma OverIsForgotten(events: seq<Event>, c: Channel, packet: Packet)
    requires Executable(AtRest, events)
    requires var s := Run(AtRest, events);
      c in s.stages && s.stages[c].Over? && SyncSpec.Enabled(s.world, LookUp(packet))
    ensures var s := Run(AtRest, events);
      !IsRegistered(s.world, c) && SyncSpec.Step(s.world, LookUp(packet)).loop != Holding(c, packet)
  {
    RunKeepsInOrder(AtRest, events);
    assert StageInOrder(Run(AtRest, events), c);
  }

  // ---------------------------------------------------------------- distinct tokens

  // Somebody is using a token: a request under way, or an observation that is not over.
  ghost predicate Lives(s: System, c: Channel, token: Token) {
    && c in s.world.callers && s.world.callers[c].token == token
    && if c in s.stages then !s.stages[c].Over? else !s.world.callers[c].phase.Gone?
  }

  /** A request or an observation starts under a token that nobody is using. Terminations, which reuse the token of
      their observation, are under no such condition. */
  ghost predicate Polite(s: System, e: Event) {
    match e
    case Plain(Arrive(_, token)) => forall c :: !Lives(s, c, token)
    case Observe(_, token) => forall c :: !Lives(s, c, token)
    case _ => true
  }

  ghost predicate AllPolite(s: System, events: seq<Event>)
    requires Executable(s, events)
    decreases |events|
  {
    events == [] || (Polite(s, events[0]) && AllPolite(Step(s, events[0]), events[1..]))
  }

  ghost predicate Terminates(s: System, d: Channel, c: Channel) {
    d in s.terminations && s.terminations[d] == c
  }

  // Two users of one token are an observation and its termination.
  ghost predicate Apart(s: System, c: Channel, d: Channel) {
    c == d || Terminates(s, c, d) || Terminates(s, d, c)
  }

  // The caller inserted its sender, nothing drained it since, and no termination took over.
  ghost predicate Due(s: System, c: Channel) {
    && c in s.world.callers && s.world.callers[c].phase.Registered?
    && (s.world.loop != Ended(true) || s.world.callers[c].phase.late)
    && (c in s.stages ==> !s.stages[c].Over? && !(s.stages[c].Ending? && HasInserted(s, s.stages[c].ender)))
  }

  ghost predicate HasInserted(s: System, d: Channel) {
    d in s.world.callers && s.world.callers[d].phase.Registered?
  }

  ghost predicate Exclusive(s: System) {
    && (forall c, d, t | Lives(s, c, t) && Lives(s, d, t) :: Apart(s, c, d))
    && (forall c | Due(s, c) :: IsRegistered(s.world, c))
  }

  // Nobody comes to life but by arriving.
  lemma LivedBefore(s: System, e: Event, c: Channel, token: Token)
    requires InOrder(s) && Enabled(s, e) && Lives(Step(s, e), c, token)
    ensures Lives(s, c, token)
      || e == Plain(Arrive(c, token)) || e == Observe(c, token)
      || (e.Terminate? && e.ender == c && s.world.callers[e.c].token == token)
  {
    hide Consistent, Answered, SyncSpec.Step, IsRegistered;
    var step := StepsOf(s, e);
    if c in s.world.callers {
      if c in s.stages {
        assert StageInOrder(s, c);
      }
      if step.Some? {
        WorldStep(s.world, step.value, c);
      }
    } else {
      NobodyNew(s.world, step, c);
    }
  }

  lemma NobodyNew(w: World, step: Option<SyncSpec.Event>, c: Channel)
    requires c !in w.callers && (step.Some? ==> SyncSpec.Enabled(w, step.value))
    ensures step.Some? && c in SyncSpec.Step(w, step.value).callers ==>
      step.value.Arrive? && step.value.c == c && SyncSpec.Step(w, step.value).callers[c].token == step.value.token
  {
  }

  lemma StaysApart(s: System, e: Event, c: Channel, d: Channel, token: Token)
    requires InOrder(s) && Exclusive(s) && Enabled(s, e) && Polite(s, e)
    requires Lives(Step(s, e), c, token) && Lives(Step(s, e), d, token)
    ensures Apart(Step(s, e), c, d)
  {
    hide Consistent, Answered, SyncSpec.Step, IsRegistered, Due;
    LivedBefore(s, e, c, token);
    LivedBefore(s, e, d, token);
    if e.Terminate? && (c == e.ender || d == e.ender) && c != d {
      var other := if c == e.ender then d else c;
      ActiveIsAlone(s, e.c, other, token);
    }
  }

  lemma ActiveIsAlone(s: System, c: Channel, d: Channel, token: Token)
    requires InOrder(s) && Exclusive(s) && c in s.stages && s.stages[c].Active?
    requires c in s.world.callers && s.world.callers[c].token == token && Lives(s, d, token)
    ensures c == d
  {
    hide Consistent, Due;
    assert Lives(s, c, token) && Apart(s, c, d);
    assert StageInOrder(s, c) && (Terminates(s, d, c) ==> TerminationInOrder(s, d));
  }

  // Who is due was due before, or has just inserted its sender.
  lemma DueBefore(s: System, e: Event, c: Channel)
    requires InOrder(s) && Enabled(s, e) && Due(Step(s, e), c)
    ensures e == Plain(Insert(c)) || (Due(s, c) && e != Plain(Drain))
  {
    hide Answered, IsRegistered, Informed;
    var step := StepsOf(s, e);
    if c !in s.world.callers {
      NobodyNew(s.world, step, c);
      StartsUnregistered(s.world, step, c);
    } else {
      if step.Some? {
        WorldStep(s.world, step.value, c);
      }
      if c in s.stages && s.stages[c].Ending? {
        assert StageInOrder(s, c);
        if step.Some? {
          WorldStep(s.world, step.value, s.stages[c].ender);
        }
      }
      if s.world.callers[c].phase == Registered(true) {
        LateIsDrained(s.world, c);
      }
    }
  }

  lemma StartsUnregistered(w: World, step: Option<SyncSpec.Event>, c: Channel)
    requires c !in w.callers && (step.Some? ==> SyncSpec.Enabled(w, step.value))
    ensures step.Some? && c in SyncSpec.Step(w, step.value).callers ==>
      SyncSpec.Step(w, step.value).callers[c].phase.Starting?
  {
  }

  lemma LateIsDrained(w: World, c: Channel)
    requires Consistent(w) && c in w.callers && w.callers[c].phase == Registered(true)
    ensures w.loop == Ended(true)
  {
    assert Informed(w, c, w.callers[c]);
  }

  // Who inserts or leaves under the token of another due caller makes that one not due.
  lemma NobodyElse(s: System, e: Event, c: Channel, d: Channel)
    requires InOrder(s) && Exclusive(s) && Enabled(s, e)
    requires StepsOf(s, e) == Some(Insert(d)) || StepsOf(s, e) == Some(Leave(d))
    requires Due(s, c) && Due(Step(s, e), c) && c != d
    ensures d in s.world.callers && s.world.callers[d].token != s.world.callers[c].token
  {
    hide Consistent, Answered, IsRegistered;
    assert c in s.stages ==> StageInOrder(s, c);
    assert d in s.stages ==> StageInOrder(s, d);
    assert d in s.terminations ==> TerminationInOrder(s, d);
    assert c in s.terminations ==> TerminationInOrder(s, c);
    var token := s.world.callers[c].token;
    assert Lives(s, c, token);
    assert s.world.callers[d].token == token ==> Lives(s, d, token);
  }

  lemma StepKeepsDue(s: System, e: Event, c: Channel)
    requires InOrder(s) && Exclusive(s) && Enabled(s, e) && Due(Step(s, e), c)
    ensures IsRegistered(Step(s, e).world, c)
  {
    hide Consistent, Answered, Due, InOrder, Exclusive, SyncSpec.Step;
    DueBefore(s, e, c);
    if e == Plain(Insert(c)) {
      InsertedIsRegistered(s.world, c);
    } else {
      DueIsRegistered(s, c);
      var step := StepsOf(s, e);
      if step.Some? {
        if (step.value.Insert? || step.value.Leave?) && step.value.c != c {
          NobodyElse(s, e, c, step.value.c);
        }
        LeavingIsNotDue(s, e, c);
        InOrderIsConsistent(s);
        StepKeepsIff(s.world, step.value, c);
      }
    }
  }

  lemma InOrderIsConsistent(s: System)
    requires InOrder(s)
    ensures Consistent(s.world)
  {
  }

  lemma DueIsRegistered(s: System, c: Channel)
    requires Exclusive(s) && Due(s, c)
    ensures c in s.world.callers && IsRegistered(s.world, c)
  {
  }

  lemma InsertedIsRegistered(w: World, c: Channel)
    requires SyncSpec.Enabled(w, Insert(c))
    ensures IsRegistered(SyncSpec.Step(w, Insert(c)), c)
  {
  }

  lemma LeavingIsNotDue(s: System, e: Event, c: Channel)
    requires Enabled(s, e) && Due(Step(s, e), c)
    ensures StepsOf(s, e) != Some(Leave(c)) && (e != Plain(Insert(c)) ==> StepsOf(s, e) != Some(Insert(c)))
  {
  }

  lemma StepKeepsExclusive(s: System, e: Event)
    requires InOrder(s) && Exclusive(s) && Enabled(s, e) && Polite(s, e)
    ensures Exclusive(Step(s, e))
  {
    hide InOrder, Lives, Apart, Due, IsRegistered, Step, Polite;
    var t := Step(s, e);
    forall c, d, token | Lives(t, c, token) && Lives(t, d, token) ensures Apart(t, c, d) {
      StaysApart(s, e, c, d, token);
    }
    forall c | Due(t, c) ensures IsRegistered(t.world, c) {
      StepKeepsDue(s, e, c);
    }
  }

  lemma {:induction false} RunKeepsExclusive(s: System, events: seq<Event>)
    requires InOrder(s) && Exclusive(s) && Executable(s, events) && AllPolite(s, events)
    ensures InOrder(Run(s, events)) && Exclusive(Run(s, events))
    decreases |events|
  {
    hide InOrder, Exclusive, Step;
    if events != [] {
      StepKeepsInOrder(s, events[0]);
      StepKeepsExclusive(s, events[0]);
      RunKeepsExclusive(Step(s, events[0]), events[1..]);
    }
  }

  lemma RestIsInOrder()
    ensures InOrder(AtRest) && Exclusive(AtRest)
  {
  }

  /** An observation keeps its sender: in every interleaving of requests, continuations, other observations and
      terminations under tokens not in use when they start, an observation that was accepted is in the registry
      until its own termination takes over or the transport fails, and what comes in for its token goes to it. */
  lemma ActiveIsRegistered(events: seq<Event>, c: Channel, packet: Packet)
    requires Executable(AtRest, events) && AllPolite(AtRest, events)
    requires var s := Run(AtRest, events);
      && c in s.stages && s.stages[c].Active? && s.world.loop != Ended(true)
    ensures var s := Run(AtRest, events);
      && c in s.world.callers && IsRegistered(s.world, c) && !Enabled(s, Close(c))
      && (s.world.loop.Listening? && packet.token == s.world.callers[c].token ==>
            SyncSpec.Step(s.world, LookUp(packet)).loop == Holding(c, packet))
  {
    RestIsInOrder();
    RunKeepsExclusive(AtRest, events);
    var s := Run(AtRest, events);
    assert StageInOrder(s, c) && Due(s, c);
  }

  /** While it is being terminated the same holds until the termination has put in its own sender; that of the
      termination is then the one in the registry. */
  lemma EndingHandsOver(events: seq<Event>, c: Channel)
    requires Executable(AtRest, events) && AllPolite(AtRest, events)
    requires var s := Run(AtRest, events);
      && c in s.stages && s.stages[c].Ending? && s.world.loop != Ended(true)
    ensures var s := Run(AtRest, events);
      var ender := s.stages[c].ender;
      && c in s.world.callers && ender in s.world.callers
      && (if s.world.callers[ender].phase.Registered? then IsRegistered(s.world, ender) else IsRegistered(s.world, c))
  {
    RestIsInOrder();
    RunKeepsExclusive(AtRest, events);
    var s := Run(AtRest, events);
    assert StageInOrder(s, c);
    assert Due(s, if s.world.callers[s.stages[c].ender].phase.Registered? then s.stages[c].ender else c);
  }

  /** After a failed registration and after a completed termination nothing is left under the token. */
  lemma TokenIsFree(events: seq<Event>, e: Event, c: Channel)
    requires Executable(AtRest, events) && AllPolite(AtRest, events)
    requires var s := Run(AtRest, events);
      && Enabled(s, e) && c in s.world.callers
      && (e == Fail(c) || (e.Finish? && s.terminations[e.ender] == c))
    ensures var s := Run(AtRest, events);
      var t := Step(s, e);
      && c in t.stages && t.stages[c].Over?
      && s.world.callers[c].token !in t.world.shared.outgoing
      && forall d :: !Lives(t, d, s.world.callers[c].token)
  {
    RestIsInOrder();
    RunKeepsExclusive(AtRest, events);
    var s := Run(AtRest, events);
    LastUserLeaves(s, e, c);
  }

  lemma LastUserLeaves(s: System, e: Event, c: Channel)
    requires InOrder(s) && Exclusive(s) && Enabled(s, e) && c in s.world.callers
    requires e == Fail(c) || (e.Finish? && s.terminations[e.ender] == c)
    ensures var t := Step(s, e);
      && c in t.stages && t.stages[c].Over?
      && s.world.callers[c].token !in t.world.shared.outgoing
      && forall d :: !Lives(t, d, s.world.callers[c].token)
  {
    hide Consistent, Answered, Due;
    var t := Step(s, e);
    var token := s.world.callers[c].token;
    assert StageInOrder(s, c);
    assert e.Finish? ==> TerminationInOrder(s, e.ender);
    assert Lives(s, c, token);
    forall d ensures !Lives(t, d, token) {
      if Lives(t, d, token) {
        LivedBefore(s, e, d, token);
        assert false;
      }
    }
  }

  // ---------------------------------------------------------------- the tokens of continuations

  // In these steps nobody but `d` inserts or leaves, and nothing is drained.
  ghost predicate OnlyBy(events: seq<SyncSpec.Event>, d: Channel) {
    forall i | 0 <= i < |events| :: !events[i].Drain? && (events[i].Insert? || events[i].Leave? ==> events[i].c == d)
  }

  ghost predicate HasTurn(events: seq<SyncSpec.Event>, d: Channel) {
    exists i :: 0 <= i < |events| && (events[i] == Insert(d) || events[i] == Leave(d))
  }

  lemma {:induction false} ElsewhereIff(w: World, events: seq<SyncSpec.Event>, d: Channel, token: Token)
    requires SyncSpec.Executable(w, events) && OnlyBy(events, d) && d in w.callers
    ensures AllElsewhere(w, events, token) <==> w.callers[d].token != token || !HasTurn(events, d)
    decreases |events|
  {
    if events != [] {
      var u := SyncSpec.Step(w, events[0]);
      WorldStep(w, events[0], d);
      forall i | 0 <= i < |events[1..]|
        ensures !events[1..][i].Drain? && (events[1..][i].Insert? || events[1..][i].Leave? ==> events[1..][i].c == d)
      {
        assert events[1..][i] == events[i + 1];
      }
      ElsewhereIff(u, events[1..], d, token);
      TurnNowOrLater(events, d);
    }
  }

  lemma TurnNowOrLater(events: seq<SyncSpec.Event>, d: Channel)
    requires events != []
    ensures HasTurn(events, d) <==> events[0] == Insert(d) || events[0] == Leave(d) || HasTurn(events[1..], d)
  {
    if HasTurn(events[1..], d) {
      var i :| 0 <= i < |events[1..]| && (events[1..][i] == Insert(d) || events[1..][i] == Leave(d));
      assert events[i + 1] == events[1..][i];
    }
    if HasTurn(events, d) {
      var i :| 0 <= i < |events| && (events[i] == Insert(d) || events[i] == Leave(d));
      if i > 0 {
        assert events[1..][i - 1] == events[i];
      }
    }
  }

  lemma TokensDiffer(a: U16, b: U16)
    ensures Client.TokenOf(a) == Client.TokenOf(b) <==> a == b
  {
    if Client.TokenOf(a) == Client.TokenOf(b) {
      assert Client.TokenOf(a)[0] == Client.TokenOf(b)[0] && Client.TokenOf(a)[1] == Client.TokenOf(b)[1];
      assert a == 256 * (a / 256) + a % 256 && b == 256 * (b / 256) + b % 256;
    }
  }

  /** The exact condition under which a continuation spares the observation it belongs to: its token is drawn from
      16 random bits and compared with nothing, so it does iff the draw differs from the one behind the
      observation's token. `events` are any steps in which the continuation `d` takes its turn and nobody else
      inserts or leaves. */
  lemma ContinuationSparesIff(w: World, events: seq<SyncSpec.Event>, c: Channel, d: Channel, drawn: U16, observed: U16)
    requires Consistent(w) && IsRegistered(w, c) && w.callers[c].token == Client.TokenOf(observed)
    requires SyncSpec.Executable(w, [Arrive(d, Client.TokenOf(drawn))] + events) && OnlyBy(events, d)
        && HasTurn(events, d)
    ensures IsRegistered(SyncSpec.Run(w, [Arrive(d, Client.TokenOf(drawn))] + events), c) <==> drawn != observed
  {
    hide Consistent, IsRegistered, HasTurn;
    var arrive := Arrive(d, Client.TokenOf(drawn));
    var all := [arrive] + events;
    assert all[0] == arrive && all[1..] == events;
    var u := SyncSpec.Step(w, arrive);
    assert d in u.callers && u.callers[d].token == Client.TokenOf(drawn);
    SenderSurvivesIff(w, all, c);
    ElsewhereIff(u, events, d, Client.TokenOf(observed));
    TokensDiffer(drawn, observed);
  }

  /** And what an unlucky draw does: from any system with an active observation that nothing else is happening to, the
      continuation replaces its sender, the task of the observation ends, and nobody is told. */
  lemma UnluckyDrawEndsObservation(s: System, c: Channel, d: Channel)
    requires InOrder(s) && c in s.stages && s.stages[c].Active? && s.world.loop.Listening?
    requires d !in s.world.callers && c in s.world.callers
    ensures var token := s.world.callers[c].token;
      var events := [Plain(Arrive(d, token)), Plain(Check(d)), Plain(Insert(d)), Close(c)];
      && Executable(s, events)
      && var t := Run(s, events);
         && c in t.stages && t.stages[c].Over? && SentTo(t.world.shared, c) == SentTo(s.world.shared, c)
  {
    var token := s.world.callers[c].token;
    assert s.world.shared.error.None?;
    var s1 := Step(s, Plain(Arrive(d, token)));
    var s2 := Step(s1, Plain(Check(d)));
    var s3 := Step(s2, Plain(Insert(d)));
    var s4 := Step(s3, Close(c));
    var tail3: seq<Event> := [Close(c)];
    var tail2 := [Plain(Insert(d))] + tail3;
    var tail1 := [Plain(Check(d))] + tail2;
    var all := [Plain(Arrive(d, token))] + tail1;
    NothingLeft(s4);
    Unfold(s3, tail3);
    Unfold(s2, tail2);
    Unfold(s1, tail1);
    Unfold(s, all);
    assert all == [Plain(Arrive(d, token)), Plain(Check(d)), Plain(Insert(d)), Close(c)];
  }

  /** Such systems exist: an observation whose registration is answered is active. */
  lemma AcceptanceHappens(token: Token, packet: Packet)
    requires packet.token == token
    ensures var events := [Observe(0, token), Plain(Check(0)), Plain(Insert(0)), Plain(LookUp(packet)),
        Plain(Forward), Accept(0)];
      && Executable(AtRest, events) && AllPolite(AtRest, events)
      && var s := Run(AtRest, events);
         0 in s.stages && s.stages[0].Active? && s.world.loop.Listening? && 0 in s.world.callers
  {
    hide Executable, Run, AllPolite;
    var waiting := World(Shared(None, map[token := 0], map[]), map[0 := Caller(token, Registered(false))], Listening);
    var s3 := System(waiting, map[0 := Opening], map[]);
    var s1 := Step(AtRest, Observe(0, token));
    var s2 := Step(s1, Plain(Check(0)));
    assert Step(s2, Plain(Insert(0))) == s3;
    Acceptance(s3, token, packet);
    var tail3 := [Plain(LookUp(packet)), Plain(Forward), Accept(0)];
    var tail2 := [Plain(Insert(0))] + tail3;
    var tail1 := [Plain(Check(0))] + tail2;
    var all := [Observe(0, token)] + tail1;
    UnfoldPolite(s2, tail2);
    UnfoldPolite(s1, tail1);
    UnfoldPolite(AtRest, all);
    assert all == [Observe(0, token), Plain(Check(0)), Plain(Insert(0)), Plain(LookUp(packet)), Plain(Forward),
        Accept(0)];
  }

  lemma Acceptance(s: System, token: Token, packet: Packet)
    requires packet.token == token && s.stages == map[0 := Opening] && s.world.loop.Listening? && 0 in s.world.callers
    requires token in s.world.shared.outgoing && s.world.shared.outgoing[token] == 0
    ensures var events := [Plain(LookUp(packet)), Plain(Forward), Accept(0)];
      && Executable(s, events) && AllPolite(s, events)
      && var t := Run(s, events);
         0 in t.stages && t.stages[0].Active? && t.world.loop.Listening? && 0 in t.world.callers
  {
    hide Executable, Run, AllPolite;
    var s1 := Step(s, Plain(LookUp(packet)));
    var s2 := Step(s1, Plain(Forward));
    var log := SentTo(s2.world.shared, 0);
    assert log[|log| - 1] == Ok(packet);
    var s3 := Step(s2, Accept(0));
    NothingLeft(s3);
    NothingPolite(s3);
    var tail2: seq<Event> := [Accept(0)];
    var tail1 := [Plain(Forward)] + tail2;
    var all := [Plain(LookUp(packet))] + tail1;
    UnfoldPolite(s2, tail2);
    UnfoldPolite(s1, tail1);
    UnfoldPolite(s, all);
    assert all == [Plain(LookUp(packet)), Plain(Forward), Accept(0)];
  }

  lemma NothingPolite(s: System)
    ensures Executable(s, []) && AllPolite(s, [])
  {
  }

  lemma UnfoldPolite(s: System, events: seq<Event>)
    requires events != [] && Enabled(s, events[0]) && Polite(s, events[0])
    requires Executable(Step(s, events[0]), events[1..]) && AllPolite(Step(s, events[0]), events[1..])
    ensures Executable(s, events) && AllPolite(s, events) && Run(s, events) == Run(Step(s, events[0]), events[1..])
  {
  }

  lemma NothingLeft(s: System)
    ensures Executable(s, []) && Run(s, []) == s
  {
  }

  lemma Unfold(s: System, events: seq<Event>)
    requires events != [] && Enabled(s, events[0]) && Executable(Step(s, events[0]), events[1..])
    ensures Executable(s, events) && Run(s, events) == Run(Step(s, events[0]), events[1..])
  {
  }
}
