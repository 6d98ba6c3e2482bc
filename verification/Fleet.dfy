/** The fleet supervisor and the local pause/resume control, as interleaved atomic steps: every
    critical section, channel operation and cancel of one home's supervisor is one step, and so is
    a whole control command, which runs under the fleet's mutex. */
module Fleet {
  import opened Basics
  import opened ClusterUrl
  import opened Homes

  /** A home's cancellable context, from the supervisor's point of view. */
  datatype Context = NoContext | Live | Cancelled

  /** Where one home's supervisor is in runManagedHome. */
  datatype At =
    | Unstarted                     // a duplicate: no supervisor runs
    | LoopTop                       // about to test the fleet's context
    | Gate                          // about to take the mutex and read enabled
    | Parked                        // paused, waiting on wake
    | Building                      // context made, runner not registered
    | Streaming                     // runner registered
    | Returned                      // runner gone, its result in hand
    | Judged(cancelled: bool)       // has read whether the context was cancelled
    | Stopped(cancelled: bool)      // has cancelled its own context
    | Retrying                      // waiting out the retry second
    | Exited

  /** A supervisor's own variables: h.cancel, h.runner, h.retrying, its context and its place. */
  datatype Run = Run(hasCancel: bool, hasRunner: bool, retrying: bool, context: Context, at: At)

  datatype Managed = Managed(url: string, suppressed: bool, enabled: bool, wake: bool, run: Run)

  /** disk is each home's enabled flag in workers.yaml; down is the fleet's own context. */
  datatype State = State(homes: map<string, Managed>, disk: map<string, bool>, runners: set<string>, down: bool)

  datatype Event =
    | Shutdown
    | TestContext(id: string)
    | PassGate(id: string)
    | TakeWake(id: string)
    | GiveUp(id: string)
    | Register(id: string)
    | FailBuild(id: string)
    | EndStream(id: string)
    | Judge(id: string)
    | CancelOwn(id: string)
    | Leave(id: string)
    | RetryDue(id: string)
    | Command(id: string, enabled: bool, saved: bool)

  function CancelContext(c: Context): Context {
    if c.Live? then Cancelled else c
  }

  /** The step receives the wake token. */
  predicate TakesToken(run: Run, wake: bool, e: Event) {
    e.TakeWake? && wake && (run.at.Parked? || run.at.Retrying?)
  }

  /** One step of runManagedHome. */
  function Advance(run: Run, enabled: bool, wake: bool, down: bool, e: Event): Run {
    match e
    case TestContext(_) => if run.at.LoopTop? then run.(at := if down then Exited else Gate) else run
    case PassGate(_) =>
      if !run.at.Gate? then run
      else if !enabled then run.(at := Parked)
      else Run(true, run.hasRunner, false, if down then Cancelled else Live, Building)
    case TakeWake(_) => if TakesToken(run, wake, e) then run.(at := LoopTop) else run
    case GiveUp(_) =>
      if run.at.Parked? && down then run.(at := Exited)
      else if run.at.Retrying? && down then run.(at := LoopTop)
      else run
    case Register(_) => if run.at.Building? then run.(hasRunner := true, at := Streaming) else run
    case FailBuild(_) => if run.at.Building? then run.(at := Returned) else run
    case EndStream(_) => if run.at.Streaming? then run.(at := Returned) else run
    case Judge(_) => if run.at.Returned? then run.(at := Judged(run.context.Cancelled?)) else run
    case CancelOwn(_) =>
      if run.at.Judged? then run.(context := CancelContext(run.context), at := Stopped(run.at.cancelled)) else run
    case Leave(_) =>
      if run.at.Stopped? then
        Run(false, false, !run.at.cancelled, NoContext, if run.at.cancelled then LoopTop else Retrying)
      else run
    case RetryDue(_) => if run.at.Retrying? then run.(at := LoopTop) else run
    case Shutdown => run.(context := CancelContext(run.context))
    case Command(_, _, _) => run
  }

  /** A supervisor's step, for the home it supervises. */
  function Supervise(h: Managed, down: bool, e: Event): Managed {
    h.(wake := h.wake && !TakesToken(h.run, h.wake, e), run := Advance(h.run, h.enabled, h.wake, down, e))
  }

  type Hosting = string -> string

  /** Another managed home answers to the same control key. */
  predicate SharesKey(host: Hosting, homes: map<string, Managed>, id: string)
    requires id in homes
  {
    exists other :: other in homes && other != id && host(homes[other].url) == host(homes[id].url)
  }

  datatype Answer = Done | NotConfigured | Ambiguous | NotSaved

  function Answered(host: Hosting, s: State, id: string, enabled: bool, saved: bool): Answer {
    if id !in s.homes then NotConfigured
    else if SharesKey(host, s.homes, id) then Ambiguous
    else if s.homes[id].enabled != enabled && !saved then NotSaved
    else Done
  }

  /** SetHomeEnabled on the home it is for: cancel a paused home, and leave one token. */
  function Switched(h: Managed, enabled: bool): Managed {
    h.(enabled := enabled, wake := true,
       run := if !enabled && h.run.hasCancel then h.run.(context := CancelContext(h.run.context)) else h.run)
  }

  /** SetHomeEnabled. */
  function Commanded(host: Hosting, s: State, id: string, enabled: bool, saved: bool): State {
    if Answered(host, s, id, enabled, saved).Done? && s.homes[id].enabled != enabled then
      s.(homes := s.homes[id := Switched(s.homes[id], enabled)], disk := s.disk[id := enabled])
    else s
  }

  function Runners(runners: set<string>, h: Managed, e: Event): set<string> {
    if e.Register? && h.run.at.Building? then runners + {e.id}
    else if e.EndStream? && h.run.at.Streaming? then runners - {e.id}
    else runners
  }

  function Step(host: Hosting, s: State, e: Event): State {
    if e.Shutdown? then
      s.(down := true, homes := map id | id in s.homes :: Supervise(s.homes[id], true, e))
    else if e.Command? then Commanded(host, s, e.id, e.enabled, e.saved)
    else if e.id in s.homes then
      s.(homes := s.homes[e.id := Supervise(s.homes[e.id], s.down, e)], runners := Runners(s.runners, s.homes[e.id], e))
    else s
  }

  function After(host: Hosting, s: State, events: seq<Event>): State {
    if events == [] then s
    else Step(host, After(host, s, events[..|events| - 1]), events[|events| - 1])
  }

  // -------------------------------------------------------------------------
  // What every step keeps
  // -------------------------------------------------------------------------

  /** The supervisor is between making a context and forgetting it. */
  predicate Engaged(at: At) {
    at.Building? || at.Streaming? || at.Returned? || at.Judged? || at.Stopped?
  }

  ghost predicate HomeOk(h: Managed, onDisk: bool, running: bool, down: bool) {
    && h.enabled == onDisk
    && (h.run.context.Live? ==> h.enabled && !down)
    && (h.run.hasCancel <==> Engaged(h.run.at))
    && (h.run.context.NoContext? <==> !Engaged(h.run.at))
    && (h.run.at.Stopped? ==> h.run.context.Cancelled?)
    && (h.run.at.Parked? && h.enabled ==> h.wake)
    && (h.run.at.Streaming? ==> h.run.hasRunner)
    && (h.run.hasRunner ==> Engaged(h.run.at) && !h.run.at.Building?)
    && (h.run.at.Streaming? <==> running)
    && (h.suppressed <==> h.run.at.Unstarted?)
  }

  ghost predicate Ok(s: State) {
    && s.disk.Keys == s.homes.Keys
    && s.runners <= s.homes.Keys
    && forall id :: id in s.homes ==> HomeOk(s.homes[id], s.disk[id], id in s.runners, s.down)
  }

  lemma SuperviseKeepsOk(h: Managed, onDisk: bool, runners: set<string>, down: bool, e: Event)
    requires !e.Shutdown? && !e.Command? && HomeOk(h, onDisk, e.id in runners, down)
    ensures HomeOk(Supervise(h, down, e), onDisk, e.id in Runners(runners, h, e), down)
  {
  }

  lemma ShutdownKeepsOk(host: Hosting, s: State)
    requires Ok(s)
    ensures Ok(Step(host, s, Shutdown))
  {
    var s' := Step(host, s, Shutdown);
    assert s'.homes.Keys == s.homes.Keys;
    forall id | id in s'.homes ensures HomeOk(s'.homes[id], s'.disk[id], id in s'.runners, true) {
      assert HomeOk(s.homes[id], s.disk[id], id in s.runners, s.down);
    }
  }

  lemma CommandKeepsOk(host: Hosting, s: State, id: string, enabled: bool, saved: bool)
    requires Ok(s)
    ensures Ok(Commanded(host, s, id, enabled, saved))
  {
    var s' := Commanded(host, s, id, enabled, saved);
    if s' != s {
      assert s'.disk.Keys == s'.homes.Keys == s.homes.Keys;
      forall k | k in s'.homes ensures HomeOk(s'.homes[k], s'.disk[k], k in s'.runners, s'.down) {
        assert HomeOk(s.homes[k], s.disk[k], k in s.runners, s.down);
      }
    }
  }

  lemma OwnStepKeepsOk(host: Hosting, s: State, e: Event)
    requires Ok(s) && !e.Shutdown? && !e.Command? && e.id in s.homes
    ensures Ok(Step(host, s, e))
  {
    var s' := Step(host, s, e);
    SuperviseKeepsOk(s.homes[e.id], s.disk[e.id], s.runners, s.down, e);
    assert s'.homes.Keys == s.homes.Keys;
    forall k | k in s'.homes ensures HomeOk(s'.homes[k], s'.disk[k], k in s'.runners, s'.down) {
      assert HomeOk(s.homes[k], s.disk[k], k in s.runners, s.down);
    }
  }

  /** Every step of every interleaving keeps the supervisor's invariant. */
  lemma StepKeepsOk(host: Hosting, s: State, e: Event)
    requires Ok(s)
    ensures Ok(Step(host, s, e))
  {
    if e.Shutdown? {
      ShutdownKeepsOk(host, s);
    } else if e.Command? {
      CommandKeepsOk(host, s, e.id, e.enabled, e.saved);
    } else if e.id in s.homes {
      OwnStepKeepsOk(host, s, e);
    }
  }

  lemma {:induction false} RunKeepsOk(host: Hosting, s: State, events: seq<Event>)
    requires Ok(s)
    ensures Ok(After(host, s, events))
  {
    if events != [] {
      RunKeepsOk(host, s, events[..|events| - 1]);
      StepKeepsOk(host, After(host, s, events[..|events| - 1]), events[|events| - 1]);
    }
  }

  /** Pause safety and no lost wake-up, over every interleaving: an uncancelled home context exists
      only while that home is enabled, a registered runner always has its context's cancel, a
      supervisor parked while its home is enabled has a token waiting, and the saved flag is the
      one in memory. */
  lemma PausedMeansCancelled(host: Hosting, s: State, events: seq<Event>, id: string)
    requires Ok(s) && id in After(host, s, events).homes
    ensures var s' := After(host, s, events);
            var h := s'.homes[id];
            && (!h.enabled ==> !h.run.context.Live?)
            && (id in s'.runners ==> h.run.hasCancel && !h.run.context.NoContext?)
            && (h.run.at.Parked? && h.enabled ==> h.wake)
            && id in s'.disk && s'.disk[id] == h.enabled
  {
    RunKeepsOk(host, s, events);
  }

  /** A pause ends the home's stream in the same step, and only that home's. */
  lemma PauseCancelsOneHome(host: Hosting, s: State, id: string)
    requires Ok(s) && Answered(host, s, id, false, true).Done?
    ensures var s' := Step(host, s, Command(id, false, true));
            && id in s'.homes && !s'.homes[id].enabled && !s'.homes[id].run.context.Live?
            && s'.homes.Keys == s.homes.Keys
            && forall other :: other in s.homes && other != id ==> s'.homes[other] == s.homes[other]
  {
  }

  // -------------------------------------------------------------------------
  // The fleet as it starts, and restarts
  // -------------------------------------------------------------------------

  ghost predicate IsDuplicate(on: Keying, homes: seq<Home>, id: string) {
    var enabled := EnabledHomes(homes);
    exists d :: d in SkippedOf(on, enabled, |enabled|) && d.home.id == id
  }

  ghost function Manage(on: Keying, homes: seq<Home>, h: Home): Managed {
    var duplicate := IsDuplicate(on, homes, h.id);
    Managed(h.url, duplicate, IsEnabled(h), false,
            Run(false, false, false, NoContext, if duplicate then Unstarted else LoopTop))
  }

  ghost function StartUpTo(on: Keying, homes: seq<Home>, n: nat): (s: State)
    requires n <= |homes|
    ensures s.runners == {} && !s.down
  {
    if n == 0 then State(map[], map[], {}, false)
    else
      var s := StartUpTo(on, homes, n - 1);
      var h := homes[n - 1];
      s.(homes := s.homes[h.id := Manage(on, homes, h)], disk := s.disk[h.id := IsEnabled(h)])
  }

  /** Fleet.Run's managed homes, before any supervisor moves. */
  ghost function Start(on: Keying, homes: seq<Home>): State {
    StartUpTo(on, homes, |homes|)
  }

  predicate DifferentIds(homes: seq<Home>) {
    forall i, j :: 0 <= i < j < |homes| ==> homes[i].id != homes[j].id
  }

  lemma {:induction false} StartIsOk(on: Keying, homes: seq<Home>, n: nat)
    requires n <= |homes|
    ensures Ok(StartUpTo(on, homes, n))
  {
    if n > 0 {
      StartIsOk(on, homes, n - 1);
      var before, s, h := StartUpTo(on, homes, n - 1), StartUpTo(on, homes, n), homes[n - 1];
      assert HomeOk(Manage(on, homes, h), IsEnabled(h), false, false);
      assert s.disk.Keys == before.disk.Keys + {h.id} && s.homes.Keys == before.homes.Keys + {h.id};
      forall id | id in s.homes ensures HomeOk(s.homes[id], s.disk[id], id in s.runners, s.down) {
        if id != h.id { assert HomeOk(before.homes[id], before.disk[id], id in before.runners, before.down); }
      }
    }
  }

  /** What the started fleet manages under an id is a home of the registry with that id. */
  lemma {:induction false} StartManages(on: Keying, homes: seq<Home>, n: nat, id: string)
    requires n <= |homes| && id in StartUpTo(on, homes, n).homes
    ensures exists i :: 0 <= i < n && homes[i].id == id && StartUpTo(on, homes, n).homes[id] == Manage(on, homes, homes[i])
  {
    if n > 0 {
      if id == homes[n - 1].id {
        assert StartUpTo(on, homes, n).homes[id] == Manage(on, homes, homes[n - 1]);
      } else {
        StartManages(on, homes, n - 1, id);
        var i :| 0 <= i < n - 1 && homes[i].id == id && StartUpTo(on, homes, n - 1).homes[id] == Manage(on, homes, homes[i]);
        assert StartUpTo(on, homes, n).homes[id] == Manage(on, homes, homes[i]);
      }
    }
  }

  // -------------------------------------------------------------------------
  // One connection per control key
  // -------------------------------------------------------------------------

  predicate Connectable(h: Managed) {
    h.enabled && !h.suppressed
  }

  /** No two connectable homes answer to one key. */
  ghost predicate KeysDistinct(key: string -> ClusterKey, s: State) {
    forall a, b :: a in s.homes && b in s.homes && a != b && Connectable(s.homes[a]) && Connectable(s.homes[b]) ==>
      key(s.homes[a].url) != key(s.homes[b].url)
  }

  /** A control key as a cluster key. */
  function ByKey(host: Hosting): string -> ClusterKey {
    (url: string) => ByText(host(url))
  }

  lemma StepKeepsKeys(host: Hosting, s: State, e: Event)
    requires KeysDistinct(ByKey(host), s)
    ensures KeysDistinct(ByKey(host), Step(host, s, e))
  {
    var s' := Step(host, s, e);
    if e.Command? && s' != s {
      forall a, b | a in s'.homes && b in s'.homes && a != b && Connectable(s'.homes[a]) && Connectable(s'.homes[b])
        ensures ByKey(host)(s'.homes[a].url) != ByKey(host)(s'.homes[b].url)
      {
        assert !SharesKey(host, s.homes, e.id);
        assert a == e.id || b == e.id || (s'.homes[a] == s.homes[a] && s'.homes[b] == s.homes[b]);
      }
    } else if !e.Command? {
      SupervisionKeepsPolicy(host, s, e);
    }
  }

  lemma ShutdownKeepsPolicy(host: Hosting, s: State, id: string)
    requires id in s.homes
    ensures var s' := Step(host, s, Shutdown);
            s'.homes.Keys == s.homes.Keys && s'.homes[id] == Supervise(s.homes[id], true, Shutdown)
  {
  }

  /** Only a command changes what a home connects to. */
  lemma SupervisionKeepsPolicy(host: Hosting, s: State, e: Event)
    requires !e.Command?
    ensures var s' := Step(host, s, e);
            && s'.homes.Keys == s.homes.Keys
            && forall id :: id in s.homes ==>
                 && s'.homes[id].url == s.homes[id].url
                 && s'.homes[id].enabled == s.homes[id].enabled
                 && s'.homes[id].suppressed == s.homes[id].suppressed
  {
    var s' := Step(host, s, e);
    assert s'.homes.Keys == s.homes.Keys;
    if e.Shutdown? {
      forall id | id in s.homes
        ensures s'.homes[id].url == s.homes[id].url && s'.homes[id].enabled == s.homes[id].enabled
        ensures s'.homes[id].suppressed == s.homes[id].suppressed
      {
        ShutdownKeepsPolicy(host, s, id);
      }
    }
  }

  lemma {:induction false} RunKeepsKeys(host: Hosting, s: State, events: seq<Event>)
    requires KeysDistinct(ByKey(host), s)
    ensures KeysDistinct(ByKey(host), After(host, s, events))
  {
    if events != [] {
      RunKeepsKeys(host, s, events[..|events| - 1]);
      StepKeepsKeys(host, After(host, s, events[..|events| - 1]), events[|events| - 1]);
    }
  }

  lemma UnsuppressedRuns(on: Keying, homes: seq<Home>, h: Home)
    requires h in homes && IsEnabled(h) && !IsDuplicate(on, homes, h.id)
    ensures h in Runnable(on, homes)
  {
    var enabled := EnabledHomes(homes);
    assert h in enabled;
    var i :| 0 <= i < |enabled| && enabled[i] == h;
    RunsOrIsSkipped(on, enabled, i, |enabled|);
  }

  /** As it starts, no two connectable homes are on one cluster. */
  lemma StartKeysDistinct(on: Keying, homes: seq<Home>)
    requires DifferentIds(homes)
    ensures KeysDistinct(on, Start(on, homes))
  {
    var s := Start(on, homes);
    forall a, b | a in s.homes && b in s.homes && a != b && Connectable(s.homes[a]) && Connectable(s.homes[b])
      ensures on(s.homes[a].url) != on(s.homes[b].url)
    {
      StartManages(on, homes, |homes|, a);
      StartManages(on, homes, |homes|, b);
      var i :| 0 <= i < |homes| && homes[i].id == a && s.homes[a] == Manage(on, homes, homes[i]);
      var j :| 0 <= j < |homes| && homes[j].id == b && s.homes[b] == Manage(on, homes, homes[j]);
      UnsuppressedRuns(on, homes, homes[i]);
      UnsuppressedRuns(on, homes, homes[j]);
      RunnersDiffer(on, EnabledHomes(homes), homes[i], homes[j]);
    }
  }

  lemma FinerKeysDistinct(on: Keying, finer: Keying, s: State)
    requires KeysDistinct(on, s)
    requires forall a, b :: a in s.homes && b in s.homes && finer(s.homes[a].url) == finer(s.homes[b].url) ==>
               on(s.homes[a].url) == on(s.homes[b].url)
    ensures KeysDistinct(finer, s)
  {
  }

  lemma WellFormedStart(homes: seq<Home>)
    requires forall h :: h in homes ==> WellFormed(h.url)
    ensures forall id :: id in Start(Key, homes).homes ==> WellFormed(Start(Key, homes).homes[id].url)
  {
    var s := Start(Key, homes);
    forall id | id in s.homes ensures WellFormed(s.homes[id].url) {
      StartManages(Key, homes, |homes|, id);
      var i :| 0 <= i < |homes| && homes[i].id == id && s.homes[id] == Manage(Key, homes, homes[i]);
      assert homes[i] in homes;
    }
  }

  /** With well-formed URLs, no sequence of control commands and supervisor steps leaves two
      connectable homes on one control key. */
  lemma OneHomePerControlKey(homes: seq<Home>, events: seq<Event>)
    requires DifferentIds(homes) && forall h :: h in homes ==> WellFormed(h.url)
    ensures KeysDistinct(ByKey(HostOf), After(HostOf, Start(Key, homes), events))
  {
    var s := Start(Key, homes);
    StartKeysDistinct(Key, homes);
    WellFormedStart(homes);
    forall a, b | a in s.homes && b in s.homes && HostOf(s.homes[a].url) == HostOf(s.homes[b].url)
      ensures Key(s.homes[a].url) == Key(s.homes[b].url)
    {
      SameHostSameCluster(s.homes[a].url, s.homes[b].url);
    }
    FinerKeysDistinct(Key, ByKey(HostOf), s);
    RunKeepsKeys(HostOf, s, events);
  }

  // -------------------------------------------------------------------------
  // What no run changes
  // -------------------------------------------------------------------------

  /** No step adds, drops, renames or un-suppresses a managed home. */
  ghost predicate SameHomes(s: State, s': State) {
    && s'.homes.Keys == s.homes.Keys
    && forall id :: id in s.homes ==> s'.homes[id].url == s.homes[id].url && s'.homes[id].suppressed == s.homes[id].suppressed
  }

  lemma {:induction false} RunKeepsHomes(host: Hosting, s: State, events: seq<Event>)
    ensures SameHomes(s, After(host, s, events))
  {
    if events != [] {
      RunKeepsHomes(host, s, events[..|events| - 1]);
      var before := After(host, s, events[..|events| - 1]);
      var e := events[|events| - 1];
      if !e.Command? {
        SupervisionKeepsPolicy(host, before, e);
      } else {
        assert SameHomes(before, Step(host, before, e));
      }
    }
  }
}
