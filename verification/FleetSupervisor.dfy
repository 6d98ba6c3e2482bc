/** The fleet's critical sections, as they change the fleet in place. */
module FleetSupervisor {
  import opened Fleet

  class Supervisor {
    const host: Hosting
    var homes: map<string, Managed>
    var disk: map<string, bool>
    var runners: set<string>
    var down: bool

    function Now(): State
      reads this
    {
      State(homes, disk, runners, down)
    }

    constructor (host: Hosting, s: State)
      ensures this.host == host && Now() == s
    {
      this.host := host;
      homes, disk, runners, down := s.homes, s.disk, s.runners, s.down;
    }

    /** SetHomeEnabled: refuse an ambiguous key, save first, then cancel and leave one token. */
    method SetHomeEnabled(id: string, enabled: bool, saved: bool) returns (answer: Answer)
      modifies this
      ensures answer == Answered(host, old(Now()), id, enabled, saved)
      ensures Now() == Step(host, old(Now()), Command(id, enabled, saved))
    {
      if id !in homes {
        return NotConfigured;
      }
      var h := homes[id];
      var others := homes.Keys - {id};
      while others != {}
        invariant others <= homes.Keys - {id}
        invariant Now() == old(Now())
        invariant forall other :: other in homes && other != id && other !in others ==> host(homes[other].url) != host(h.url)
        decreases |others|
      {
        var other :| other in others;
        if host(homes[other].url) == host(h.url) {
          return Ambiguous;
        }
        others := others - {other};
      }
      assert !SharesKey(host, homes, id);
      if h.enabled == enabled {
        return Done;
      }
      if !saved {
        return NotSaved;
      }
      disk := disk[id := enabled];
      h := h.(enabled := enabled);
      if !enabled && h.run.hasCancel {
        h := h.(run := h.run.(context := CancelContext(h.run.context)));
      }
      h := h.(wake := true);
      homes := homes[id := h];
      return Done;
    }

    /** The critical section at the head of runManagedHome's loop. */
    method Pass(id: string) returns (parked: bool)
      requires id in homes && homes[id].run.at.Gate?
      modifies this
      ensures Now() == Step(host, old(Now()), PassGate(id))
      ensures parked == !old(homes)[id].enabled
    {
      var h := homes[id];
      parked := !h.enabled;
      if parked {
        h := h.(run := h.run.(at := Parked));
      } else {
        h := h.(run := h.run.(context := if down then Cancelled else Live, hasCancel := true));
        h := h.(run := h.run.(retrying := false, at := Building));
      }
      homes := homes[id := h];
    }

    /** The critical section at its end. */
    method LeaveRun(id: string)
      requires id in homes && homes[id].run.at.Stopped?
      modifies this
      ensures Now() == Step(host, old(Now()), Leave(id))
    {
      var cancelled := homes[id].run.at.cancelled;
      var run := homes[id].run.(hasCancel := false, context := NoContext, hasRunner := false);
      run := run.(retrying := !cancelled, at := if cancelled then LoopTop else Retrying);
      homes := homes[id := homes[id].(run := run)];
    }

    /** runManagedHomeOnce puts its runner on the fleet's list, and takes it off again. */
    method AddRunner(id: string)
      requires id in homes && homes[id].run.at.Building?
      modifies this
      ensures Now() == Step(host, old(Now()), Register(id))
    {
      homes := homes[id := homes[id].(run := homes[id].run.(hasRunner := true, at := Streaming))];
      runners := runners + {id};
    }

    method DropRunner(id: string)
      requires id in homes && homes[id].run.at.Streaming?
      modifies this
      ensures Now() == Step(host, old(Now()), EndStream(id))
    {
      homes := homes[id := homes[id].(run := homes[id].run.(at := Returned))];
      runners := runners - {id};
    }
  }
}
