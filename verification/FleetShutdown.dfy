/** How a supervisor's run ends, and how the fleet does: what follows a stream that ended by itself, one
    that was cancelled, and the end of the fleet's own context. */
module FleetShutdown {
  import opened Fleet
  import opened FleetProgress

  // -------------------------------------------------------------------------
  // The end of the fleet
  // -------------------------------------------------------------------------

  /** The home's next step once the fleet's context is done: a wait is given up. */
  function LastStep(at: At, id: string): Event {
    if at.Parked? || at.Retrying? then GiveUp(id) else NextStep(at, id)
  }

  function ToTheEnd(at: At): (n: nat)
    ensures n <= 8
  {
    match at
    case Gate => 8
    case Building => 7
    case Streaming => 6
    case Returned => 5
    case Judged(_) => 4
    case Stopped(_) => 3
    case Retrying => 2
    case Parked => 2
    case LoopTop => 1
    case _ => 0
  }

  lemma OwnStepEnds(h: Managed, onDisk: bool, running: bool, e: Event)
    requires HomeOk(h, onDisk, running, true) && !e.Shutdown? && !e.Command?
    ensures var h' := Supervise(h, true, e);
            h'.run.at != h.run.at ==> ToTheEnd(h'.run.at) < ToTheEnd(h.run.at)
  {
  }

  lemma StepEnds(host: Hosting, s: State, e: Event, id: string)
    requires Ok(s) && id in s.homes && s.down
    ensures var s' := Step(host, s, e);
            && id in s'.homes && s'.down
            && (s'.homes[id].run.at != s.homes[id].run.at ==> ToTheEnd(s'.homes[id].run.at) < ToTheEnd(s.homes[id].run.at))
  {
    if e.Shutdown? {
      ShutdownKeepsPolicy(host, s, id);
    } else if e.id != id {
      OthersLeaveIt(host, s, e, id);
    } else if !e.Command? {
      assert HomeOk(s.homes[id], s.disk[id], id in s.runners, true);
      OwnStepEnds(s.homes[id], s.disk[id], id in s.runners, e);
    }
  }

  lemma LastStepMoves(h: Managed, onDisk: bool, running: bool, id: string)
    requires HomeOk(h, onDisk, running, true) && Managing(h.run.at)
    ensures Supervise(h, true, LastStep(h.run.at, id)).run.at != h.run.at
  {
  }

  lemma {:induction false} DownHomeEnds(host: Hosting, s: State, events: seq<Event>, id: string)
    requires Ok(s) && id in s.homes && s.down
    ensures var s' := After(host, s, events);
            && Ok(s') && id in s'.homes && s'.down
            && Moves(host, s, events, id) + ToTheEnd(s'.homes[id].run.at) <= ToTheEnd(s.homes[id].run.at)
    decreases |events|
  {
    RunKeepsOk(host, s, events);
    if events != [] {
      var p := events[..|events| - 1];
      DownHomeEnds(host, s, p, id);
      StepEnds(host, After(host, s, p), events[|events| - 1], id);
    }
  }

  /** The end of the fleet's context cancels every home's. */
  lemma ShutdownIsTheEnd(host: Hosting, s: State)
    requires Ok(s)
    ensures var over := Step(host, s, Shutdown); Ok(over) && over.down && over.homes.Keys == s.homes.Keys
  {
    ShutdownKeepsOk(host, s);
  }

  /** The home has no live context, and its supervisor has exited or has a step to take. */
  predicate Ending(host: Hosting, s: State, id: string) {
    && id in s.homes && !s.homes[id].run.context.Live?
    && (s.homes[id].run.at.Exited? || s.homes[id].run.at.Unstarted? || Opens(host, s, id, LastStep(s.homes[id].run.at, id)))
  }

  /** Once it is done no home has a live context, whatever else happens; every supervisor is at most eight
      moves from its exit, and its next step is open to it until then. */
  lemma FleetShutsDown(host: Hosting, s: State, events: seq<Event>, id: string)
    requires Ok(s) && id in s.homes && s.down
    ensures var s' := After(host, s, events);
            Ending(host, s', id) && Moves(host, s, events, id) + ToTheEnd(s'.homes[id].run.at) <= 8
  {
    DownHomeEnds(host, s, events, id);
    var s' := After(host, s, events);
    assert Ending(host, s', id) by { AnEndIsNear(host, s', id); }
  }

  lemma AnEndIsNear(host: Hosting, s: State, id: string)
    requires Ok(s) && id in s.homes && s.down
    ensures Ending(host, s, id)
  {
    assert HomeOk(s.homes[id], s.disk[id], id in s.runners, true);
    if Managing(s.homes[id].run.at) { LastStepMoves(s.homes[id], s.disk[id], id in s.runners, id); }
  }

  // -------------------------------------------------------------------------
  // The end of one run
  // -------------------------------------------------------------------------

  /** A build that fails is a run that returned, with no runner. */
  lemma FailedBuildReturns(host: Hosting, s: State, id: string)
    requires Ok(s) && id in s.homes && s.homes[id].run.at.Building?
    ensures var s' := Step(host, s, FailBuild(id));
            && id in s'.homes && s'.homes[id].run == s.homes[id].run.(at := Returned)
            && !s'.homes[id].run.hasRunner && id !in s'.runners
  {
    assert HomeOk(s.homes[id], s.disk[id], id in s.runners, s.down);
  }

  /** A token ends a pause and a retry's wait, and is spent. */
  lemma TokenWakes(host: Hosting, s: State, id: string)
    requires id in s.homes && s.homes[id].wake && (s.homes[id].run.at.Parked? || s.homes[id].run.at.Retrying?)
    ensures var s' := Step(host, s, TakeWake(id));
            id in s'.homes && s'.homes[id].run.at.LoopTop? && !s'.homes[id].wake
  {
  }

  /** And nothing else does: while the fleet runs, a home that waits to retry, or waits paused, with no token
      moves only when its second is up, or not at all. */
  lemma WaitsItOut(host: Hosting, s: State, e: Event, id: string)
    requires id in s.homes && !s.homes[id].wake && !s.down && !Touches(e, id)
    ensures var s' := Step(host, s, e);
            && id in s'.homes
            && (s.homes[id].run.at.Parked? ==> s'.homes[id] == s.homes[id])
            && (s.homes[id].run.at.Retrying? ==>
                  s'.homes[id] == if e == RetryDue(id) then s.homes[id].(run := s.homes[id].run.(at := LoopTop)) else s.homes[id])
  {
    if e.id != id { OthersLeaveIt(host, s, e, id); }
  }

  /** Where a supervisor is n moves after its run returned: a cancelled run goes round at once, and one
      that ended by itself waits out the retry second, and says that it does. */
  predicate WindsUp(run: Run, cancelled: bool, n: nat) {
    match n
    case 0 => run.at.Returned? && run.context.Cancelled? == cancelled
    case 1 => run.at == Judged(cancelled)
    case 2 => run.at == Stopped(cancelled)
    case 3 => (if cancelled then run.at.LoopTop? else run.at.Retrying?) && run.retrying == !cancelled && !run.hasRunner && !run.hasCancel
    case _ => true
  }

  predicate Touches(e: Event, id: string) {
    e.Shutdown? || (e.Command? && e.id == id)
  }

  lemma OwnStepWindsUp(h: Managed, onDisk: bool, running: bool, down: bool, e: Event, cancelled: bool, n: nat)
    requires HomeOk(h, onDisk, running, down) && !e.Shutdown? && !e.Command? && WindsUp(h.run, cancelled, n)
    ensures var run := Supervise(h, down, e).run; WindsUp(run, cancelled, if run.at != h.run.at then n + 1 else n)
  {
  }

  lemma StepWindsUp(host: Hosting, s: State, e: Event, id: string, cancelled: bool, n: nat)
    requires Ok(s) && id in s.homes && !Touches(e, id) && WindsUp(s.homes[id].run, cancelled, n)
    ensures var s' := Step(host, s, e);
            id in s'.homes && WindsUp(s'.homes[id].run, cancelled, if s'.homes[id].run.at != s.homes[id].run.at then n + 1 else n)
  {
    if e.id != id {
      OthersLeaveIt(host, s, e, id);
    } else {
      OwnStepWindsUp(s.homes[id], s.disk[id], id in s.runners, s.down, e, cancelled, n);
    }
  }

  /** Whatever the rest of the fleet does, and with no command for the home, a run that returned is wound up
      in three moves, by whether its context was cancelled when it returned. */
  lemma {:induction false} RunWindsUp(host: Hosting, s: State, events: seq<Event>, id: string)
    requires Ok(s) && id in s.homes && s.homes[id].run.at.Returned?
    requires forall i :: 0 <= i < |events| ==> !Touches(events[i], id)
    ensures WindsUp(HomeAfter(host, s, events, id).run, s.homes[id].run.context.Cancelled?, Moves(host, s, events, id))
    decreases |events|
  {
    RunKeepsHomes(host, s, events);
    if events != [] {
      var p := events[..|events| - 1];
      RunKeepsOk(host, s, p);
      RunKeepsHomes(host, s, p);
      RunWindsUp(host, s, p, id);
      StepWindsUp(host, After(host, s, p), events[|events| - 1], id, s.homes[id].run.context.Cancelled?, Moves(host, s, p, id));
    }
  }

  /** A home says it is retrying only between two runs. */
  ghost predicate RetriesBetweenRuns(s: State) {
    forall id :: id in s.homes && s.homes[id].run.retrying ==> !Engaged(s.homes[id].run.at)
  }

  lemma {:induction false} RetryingIsBetweenRuns(host: Hosting, s: State, events: seq<Event>)
    requires Ok(s) && RetriesBetweenRuns(s)
    ensures RetriesBetweenRuns(After(host, s, events))
  {
    if events != [] {
      var p, e := events[..|events| - 1], events[|events| - 1];
      RetryingIsBetweenRuns(host, s, p);
      RunKeepsOk(host, s, p);
      StepKeepsRetries(host, After(host, s, p), e);
    }
  }

  lemma OwnStepKeepsRetries(h: Managed, down: bool, e: Event)
    requires h.run.retrying ==> !Engaged(h.run.at)
    ensures var run := Supervise(h, down, e).run; run.retrying ==> !Engaged(run.at)
  {
  }

  lemma StepKeepsRetries(host: Hosting, s: State, e: Event)
    requires Ok(s) && RetriesBetweenRuns(s)
    ensures RetriesBetweenRuns(Step(host, s, e))
  {
    var s' := Step(host, s, e);
    forall id | id in s'.homes && s'.homes[id].run.retrying ensures !Engaged(s'.homes[id].run.at) {
      if e.Shutdown? {
        ShutdownKeepsPolicy(host, s, id);
      } else if e.id != id {
        OthersLeaveIt(host, s, e, id);
      } else if !e.Command? {
        OwnStepKeepsRetries(s.homes[id], s.down, e);
      }
    }
  }
}
