/** What a supervisor comes to over every interleaving: a home that is enabled gets to its stream, and a
    home that is paused settles, however the steps of the rest of the fleet fall between its own. */
module FleetProgress {
  import opened Fleet

  predicate Managing(at: At) {
    !at.Unstarted? && !at.Exited?
  }

  /** The home's own step from a place: what its supervisor does next. */
  function NextStep(at: At, id: string): Event {
    match at
    case LoopTop => TestContext(id)
    case Gate => PassGate(id)
    case Parked => TakeWake(id)
    case Building => Register(id)
    case Streaming => EndStream(id)
    case Returned => Judge(id)
    case Judged(_) => CancelOwn(id)
    case Stopped(_) => Leave(id)
    case Retrying => RetryDue(id)
    case _ => Shutdown
  }

  ghost function HomeAfter(host: Hosting, s: State, events: seq<Event>, id: string): Managed
    requires id in s.homes
  {
    RunKeepsHomes(host, s, events);
    After(host, s, events).homes[id]
  }

  /** The step moves the home's supervisor. */
  predicate Opens(host: Hosting, s: State, id: string, e: Event) {
    id in s.homes && id in Step(host, s, e).homes && Step(host, s, e).homes[id].run.at != s.homes[id].run.at
  }

  /** How often a run of steps moved the home's supervisor. */
  ghost function Moves(host: Hosting, s: State, events: seq<Event>, id: string): nat
    requires id in s.homes
  {
    if events == [] then 0
    else
      var p := events[..|events| - 1];
      Moves(host, s, p, id) + if HomeAfter(host, s, events, id).run.at != HomeAfter(host, s, p, id).run.at then 1 else 0
  }

  lemma HomeAfterPrefix(host: Hosting, s: State, events: seq<Event>, n: nat, id: string)
    requires id in s.homes && n < |events|
    ensures HomeAfter(host, s, events[..|events| - 1][..n], id) == HomeAfter(host, s, events[..n], id)
  {
    assert events[..|events| - 1][..n] == events[..n];
  }

  /** A step of another home, or a command for one, is nothing to this one. */
  lemma OthersLeaveIt(host: Hosting, s: State, e: Event, id: string)
    requires id in s.homes && !e.Shutdown? && e.id != id
    ensures id in Step(host, s, e).homes && Step(host, s, e).homes[id] == s.homes[id] && Step(host, s, e).down == s.down
  {
  }

  // -------------------------------------------------------------------------
  // An enabled home gets to its stream
  // -------------------------------------------------------------------------

  /** The supervisor has a live context and is making its stream or running it. */
  predicate AtStream(run: Run) {
    run.context.Live? && (run.at.Building? || run.at.Streaming?)
  }

  function Distance(at: At): nat {
    match at
    case Building => 8
    case Streaming => 7
    case Returned => 6
    case Judged(_) => 5
    case Stopped(_) => 4
    case Retrying => 3
    case Parked => 3
    case LoopTop => 2
    case Gate => 1
    case _ => 0
  }

  predicate Pauses(e: Event, id: string) {
    e.Shutdown? || (e.Command? && e.id == id && !e.enabled)
  }

  predicate OnItsWay(h: Managed, down: bool) {
    h.enabled && Managing(h.run.at) && !down
  }

  lemma OwnStepAdvances(h: Managed, onDisk: bool, running: bool, e: Event)
    requires HomeOk(h, onDisk, running, false) && OnItsWay(h, false) && !AtStream(h.run)
    requires !e.Shutdown? && !e.Command?
    ensures var h' := Supervise(h, false, e);
            && OnItsWay(h', false)
            && (h'.run.at == h.run.at ==> !AtStream(h'.run))
            && (h'.run.at != h.run.at ==> AtStream(h'.run) || Distance(h'.run.at) < Distance(h.run.at))
  {
  }

  lemma StepAdvances(host: Hosting, s: State, e: Event, id: string)
    requires Ok(s) && id in s.homes && OnItsWay(s.homes[id], s.down) && !AtStream(s.homes[id].run) && !Pauses(e, id)
    ensures var s' := Step(host, s, e);
            && id in s'.homes && OnItsWay(s'.homes[id], s'.down)
            && (s'.homes[id].run.at == s.homes[id].run.at ==> !AtStream(s'.homes[id].run))
            && (s'.homes[id].run.at != s.homes[id].run.at ==>
                  AtStream(s'.homes[id].run) || Distance(s'.homes[id].run.at) < Distance(s.homes[id].run.at))
  {
    if e.id != id {
      OthersLeaveIt(host, s, e, id);
    } else if !e.Command? {
      OwnStepAdvances(s.homes[id], s.disk[id], id in s.runners, e);
    }
  }

  /** The supervisor of a home on its way is never stuck: its next step moves it, whatever the token
      and the flags are. */
  lemma NeverStuck(h: Managed, onDisk: bool, running: bool, id: string)
    requires HomeOk(h, onDisk, running, false) && OnItsWay(h, false)
    ensures Supervise(h, false, NextStep(h.run.at, id)).run.at != h.run.at
  {
  }

  lemma OpenToIt(host: Hosting, s: State, id: string)
    requires Ok(s) && id in s.homes && OnItsWay(s.homes[id], s.down)
    ensures Opens(host, s, id, NextStep(s.homes[id].run.at, id))
  {
    NeverStuck(s.homes[id], s.disk[id], id in s.runners, id);
  }

  ghost predicate ReachedStream(host: Hosting, s: State, events: seq<Event>, id: string)
    requires id in s.homes
  {
    exists n :: 0 <= n <= |events| && AtStream(HomeAfter(host, s, events[..n], id).run)
  }

  lemma {:induction false} StaysOnItsWay(host: Hosting, s: State, events: seq<Event>, id: string)
    requires Ok(s) && id in s.homes && OnItsWay(s.homes[id], s.down)
    requires forall i :: 0 <= i < |events| ==> !Pauses(events[i], id)
    requires !ReachedStream(host, s, events, id)
    ensures OnItsWay(HomeAfter(host, s, events, id), After(host, s, events).down)
    ensures Moves(host, s, events, id) + Distance(HomeAfter(host, s, events, id).run.at) <= Distance(s.homes[id].run.at)
    decreases |events|
  {
    if events != [] {
      var p := events[..|events| - 1];
      RunKeepsHomes(host, s, p);
      assert !ReachedStream(host, s, p, id) by {
        forall n | 0 <= n <= |p| ensures !AtStream(HomeAfter(host, s, p[..n], id).run) {
          HomeAfterPrefix(host, s, events, n, id);
        }
      }
      StaysOnItsWay(host, s, p, id);
      RunKeepsOk(host, s, p);
      assert p[..|p|] == p && events[..|events|] == events;
      StepAdvances(host, After(host, s, p), events[|events| - 1], id);
    }
  }

  /** Over every interleaving that does not pause it or shut the fleet down, an enabled home reaches a
      live stream within eight moves of its own supervisor, from wherever it is: parked with its token,
      waiting out a retry, or still leaving a run that was cancelled. Until then its next step is
      always open to it. */
  lemma EnabledHomeReachesItsStream(host: Hosting, s: State, events: seq<Event>, id: string)
    requires Ok(s) && id in s.homes && OnItsWay(s.homes[id], s.down)
    requires forall i :: 0 <= i < |events| ==> !Pauses(events[i], id)
    ensures ReachedStream(host, s, events, id)
            || (Moves(host, s, events, id) < 8 && Opens(host, After(host, s, events), id, NextStep(HomeAfter(host, s, events, id).run.at, id)))
  {
    if !ReachedStream(host, s, events, id) {
      StaysOnItsWay(host, s, events, id);
      RunKeepsHomes(host, s, events);
      RunKeepsOk(host, s, events);
      OpenToIt(host, After(host, s, events), id);
    }
  }

  // -------------------------------------------------------------------------
  // A paused home settles
  // -------------------------------------------------------------------------

  /** Parked with no token left: nothing but a resume or the end of the fleet moves it. */
  predicate Settled(h: Managed) {
    h.run.at.Parked? && !h.wake
  }

  function Unsettled(h: Managed): nat {
    (if h.run.at.Parked? then 0 else Distance(h.run.at)) + if h.wake then 4 else 0
  }

  predicate Resumes(e: Event, id: string) {
    e.Shutdown? || (e.Command? && e.id == id && e.enabled)
  }

  predicate Winding(h: Managed, down: bool) {
    !h.enabled && Managing(h.run.at) && !down
  }

  lemma OwnStepSettles(h: Managed, onDisk: bool, running: bool, e: Event)
    requires HomeOk(h, onDisk, running, false) && Winding(h, false) && !e.Shutdown? && !e.Command?
    ensures var h' := Supervise(h, false, e);
            && Winding(h', false) && !h'.run.context.Live?
            && (h'.run.at == h.run.at ==> Unsettled(h') == Unsettled(h))
            && (h'.run.at != h.run.at ==> Unsettled(h') < Unsettled(h))
            && (Settled(h) ==> h' == h)
  {
  }

  lemma StepSettles(host: Hosting, s: State, e: Event, id: string)
    requires Ok(s) && id in s.homes && Winding(s.homes[id], s.down) && !Resumes(e, id)
    ensures var s' := Step(host, s, e);
            && id in s'.homes && Winding(s'.homes[id], s'.down) && !s'.homes[id].run.context.Live?
            && (s'.homes[id].run.at == s.homes[id].run.at ==> Unsettled(s'.homes[id]) == Unsettled(s.homes[id]))
            && (s'.homes[id].run.at != s.homes[id].run.at ==> Unsettled(s'.homes[id]) < Unsettled(s.homes[id]))
            && (Settled(s.homes[id]) ==> s'.homes[id] == s.homes[id])
  {
    if e.id != id {
      OthersLeaveIt(host, s, e, id);
      assert HomeOk(s.homes[id], s.disk[id], id in s.runners, s.down);
    } else if !e.Command? {
      OwnStepSettles(s.homes[id], s.disk[id], id in s.runners, e);
    }
  }

  lemma StillWinding(h: Managed, onDisk: bool, running: bool, id: string)
    requires HomeOk(h, onDisk, running, false) && Winding(h, false) && !Settled(h)
    ensures Supervise(h, false, NextStep(h.run.at, id)).run.at != h.run.at
  {
  }

  lemma WindingIsOpen(host: Hosting, s: State, id: string)
    requires Ok(s) && id in s.homes && Winding(s.homes[id], s.down) && !Settled(s.homes[id])
    ensures Opens(host, s, id, NextStep(s.homes[id].run.at, id))
  {
    StillWinding(s.homes[id], s.disk[id], id in s.runners, id);
  }

  lemma {:induction false} StaysWinding(host: Hosting, s: State, events: seq<Event>, id: string)
    requires Ok(s) && id in s.homes && Winding(s.homes[id], s.down)
    requires forall i :: 0 <= i < |events| ==> !Resumes(events[i], id)
    ensures var h := HomeAfter(host, s, events, id);
            && Winding(h, After(host, s, events).down)
            && Moves(host, s, events, id) + Unsettled(h) <= Unsettled(s.homes[id])
    decreases |events|
  {
    if events != [] {
      var p := events[..|events| - 1];
      RunKeepsHomes(host, s, p);
      StaysWinding(host, s, p, id);
      RunKeepsOk(host, s, p);
      StepSettles(host, After(host, s, p), events[|events| - 1], id);
    }
  }

  /** Over every interleaving that does not resume it or shut the fleet down, a paused home has no live
      context, its supervisor makes at most twelve moves, and until it is parked with no token left
      its next step is open to it. */
  lemma PausedHomeSettles(host: Hosting, s: State, events: seq<Event>, id: string)
    requires Ok(s) && id in s.homes && Winding(s.homes[id], s.down)
    requires forall i :: 0 <= i < |events| ==> !Resumes(events[i], id)
    ensures var h := HomeAfter(host, s, events, id);
            && Winding(h, After(host, s, events).down) && !h.run.context.Live?
            && Moves(host, s, events, id) + Unsettled(h) <= Unsettled(s.homes[id]) <= 12
            && (Settled(h) || Opens(host, After(host, s, events), id, NextStep(h.run.at, id)))
  {
    RunKeepsOk(host, s, events);
    RunKeepsHomes(host, s, events);
    StaysWinding(host, s, events, id);
    var s' := After(host, s, events);
    assert HomeOk(s'.homes[id], s'.disk[id], id in s'.runners, s'.down);
    if !Settled(s'.homes[id]) { WindingIsOpen(host, s', id); }
  }
}
