/** What a failure of the transport does to observations: the drain tells every sender that is in the registry, so
    every observation that still has its own there. */
module ObservationFailure {
  import opened Coap
  import opened ObservationLife
  import Sync = SyncSpec

  // The drain owes the caller the error: its sender was in by then, and no termination had taken its place.
  ghost predicate Owed(s: System, c: Sync.Channel) {
    && InByTheDrain(s, c)
    && (c in s.stages ==> !s.stages[c].Over? && !(s.stages[c].Ending? && InByTheDrain(s, s.stages[c].ender)))
  }

  ghost predicate InByTheDrain(s: System, c: Sync.Channel) {
    c in s.world.callers && s.world.callers[c].phase == Sync.Registered(false)
  }

  ghost predicate WasTold(w: Sync.World, c: Sync.Channel) {
    Sync.ToldOfFailure(Sync.SentTo(w.shared, c))
  }

  ghost predicate AllTold(s: System) {
    s.world.loop == Sync.Ended(true) ==> forall c | Owed(s, c) :: WasTold(s.world, c)
  }

  lemma OwedIsDue(s: System, c: Sync.Channel)
    requires InOrder(s) && Owed(s, c) && s.world.loop != Sync.Ended(true)
    ensures Due(s, c)
  {
    hide Answered, Sync.IsRegistered;
    if c in s.stages && s.stages[c].Ending? {
      assert StageInOrder(s, c);
      var ender := s.stages[c].ender;
      if s.world.callers[ender].phase == Sync.Registered(true) {
        LateIsDrained(s.world, ender);
      }
    }
  }

  lemma DrainTells(w: Sync.World, c: Sync.Channel)
    requires Sync.Consistent(w) && Sync.Enabled(w, Sync.Drain) && Sync.IsRegistered(w, c)
    ensures WasTold(Sync.Step(w, Sync.Drain), c)
  {
    Sync.DrainedTo(w, w.loop.error, c);
    var log := Sync.SentTo(Sync.Step(w, Sync.Drain).shared, c);
    assert log[|log| - 1].Err?;
  }

  // After the drain nobody becomes owed, and nothing sent is taken back.
  lemma OwedBefore(s: System, e: Event, c: Sync.Channel)
    requires InOrder(s) && Enabled(s, e) && Owed(Step(s, e), c)
    ensures Owed(s, c) || s.world.loop != Sync.Ended(true)
  {
    hide Sync.Consistent, Answered, Sync.IsRegistered;
    var step := StepsOf(s, e);
    if s.world.loop == Sync.Ended(true) {
      if c !in s.world.callers {
        NobodyNew(s.world, step, c);
        StartsUnregistered(s.world, step, c);
      } else {
        if step.Some? {
          WorldStep(s.world, step.value, c);
        }
        if c in s.stages && s.stages[c].Ending? {
          assert StageInOrder(s, c);
          if step.Some? {
            WorldStep(s.world, step.value, s.stages[c].ender);
          }
        }
      }
    }
  }

  lemma LogsGrow(w: Sync.World, e: Sync.Event, c: Sync.Channel)
    requires Sync.Enabled(w, e) && WasTold(w, c) && w.loop == Sync.Ended(true)
    ensures WasTold(Sync.Step(w, e), c) && Sync.Step(w, e).loop == Sync.Ended(true)
  {
    var i :| 0 <= i < |Sync.SentTo(w.shared, c)| && Sync.SentTo(w.shared, c)[i].Err?;
    assert Sync.SentTo(Sync.Step(w, e).shared, c)[i].Err?;
  }

  lemma OnlyTheDrainEndsIt(w: Sync.World, e: Sync.Event)
    requires Sync.Enabled(w, e)
    ensures Sync.Step(w, e).loop == Sync.Ended(true) ==> e.Drain? || w.loop == Sync.Ended(true)
  {
  }

  lemma StepKeepsAllTold(s: System, e: Event)
    requires InOrder(s) && Exclusive(s) && AllTold(s) && Enabled(s, e)
    ensures AllTold(Step(s, e))
  {
    hide InOrder, Exclusive, Owed, Due, WasTold, Sync.IsRegistered, Sync.Step;
    var t := Step(s, e);
    var step := StepsOf(s, e);
    if t.world.loop == Sync.Ended(true) {
      forall c | Owed(t, c) ensures WasTold(t.world, c) {
        OwedBefore(s, e, c);
        if s.world.loop != Sync.Ended(true) {
          OnlyTheDrainEndsIt(s.world, step.value);
          DrainKeepsOwed(s, c);
          OwedIsDue(s, c);
          DueIsRegistered(s, c);
          InOrderIsConsistent(s);
          DrainTells(s.world, c);
        } else if step.Some? {
          LogsGrow(s.world, step.value, c);
        }
      }
    }
  }

  lemma DrainKeepsOwed(s: System, c: Sync.Channel)
    requires Enabled(s, Plain(Sync.Drain)) && Owed(Step(s, Plain(Sync.Drain)), c)
    ensures Owed(s, c)
  {
  }

  lemma {:induction false} RunKeepsAllTold(s: System, events: seq<Event>)
    requires InOrder(s) && Exclusive(s) && AllTold(s) && Executable(s, events) && AllPolite(s, events)
    ensures AllTold(Run(s, events))
    decreases |events|
  {
    hide InOrder, Exclusive, AllTold, Step;
    if events != [] {
      StepKeepsInOrder(s, events[0]);
      StepKeepsExclusive(s, events[0]);
      StepKeepsAllTold(s, events[0]);
      RunKeepsAllTold(Step(s, events[0]), events[1..]);
    }
  }

  /** Once `fail` is through, every active observation was sent the error, and so was every one being terminated
      unless its termination had taken over by then, which was sent it instead. */
  lemma FailureReachesObservations(events: seq<Event>, c: Sync.Channel)
    requires Executable(AtRest, events) && AllPolite(AtRest, events)
    requires var s := Run(AtRest, events);
      s.world.loop == Sync.Ended(true) && c in s.stages && (s.stages[c].Active? || s.stages[c].Ending?)
    ensures var s := Run(AtRest, events);
      && (s.stages[c].Active? ==> WasTold(s.world, c))
      && (s.stages[c].Ending? ==>
            var ender := s.stages[c].ender;
            && ender in s.world.callers
            && WasTold(s.world, if InByTheDrain(s, ender) then ender else c))
  {
    RestIsInOrder();
    RunKeepsExclusive(AtRest, events);
    RunKeepsAllTold(AtRest, events);
    var s := Run(AtRest, events);
    assert StageInOrder(s, c);
    if s.stages[c].Active? {
      assert Owed(s, c);
    } else {
      var ender := s.stages[c].ender;
      assert TerminationInOrder(s, ender);
      assert Owed(s, if InByTheDrain(s, ender) then ender else c);
    }
  }
}
