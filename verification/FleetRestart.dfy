/** A restart keeps the policy: what the control service saved is what the next fleet starts with. */
module FleetRestart {
  import Basics
  import opened Homes
  import opened Fleet

  /** The registry a restart reads: the same homes, with the flags the control service saved. */
  function Saved(homes: seq<Home>, disk: map<string, bool>): (saved: seq<Home>)
    ensures |saved| == |homes|
    ensures forall i :: 0 <= i < |homes| ==>
              saved[i] == if homes[i].id in disk then homes[i].(enabled := Basics.Some(disk[homes[i].id])) else homes[i]
  {
    seq(|homes|, i requires 0 <= i < |homes| =>
      if homes[i].id in disk then homes[i].(enabled := Basics.Some(disk[homes[i].id])) else homes[i])
  }

  lemma {:induction false} StartManagesAll(on: Keying, homes: seq<Home>, n: nat, i: nat)
    requires i < n <= |homes|
    ensures homes[i].id in StartUpTo(on, homes, n).homes
  {
    if i < n - 1 { StartManagesAll(on, homes, n - 1, i); }
  }

  /** What a started fleet manages under an id of the registry carries that id's flag, when every
      home with the id has the same one. */
  lemma StartsEnabled(on: Keying, homes: seq<Home>, i: nat)
    requires i < |homes|
    requires forall j :: 0 <= j < |homes| && homes[j].id == homes[i].id ==> IsEnabled(homes[j]) == IsEnabled(homes[i])
    ensures homes[i].id in Start(on, homes).homes
    ensures Start(on, homes).homes[homes[i].id].enabled == IsEnabled(homes[i])
  {
    StartManagesAll(on, homes, |homes|, i);
    StartManages(on, homes, |homes|, homes[i].id);
  }

  /** The saved flag of every home of the registry is the one in memory, after any run. */
  lemma SavedFlag(on: Keying, host: Hosting, homes: seq<Home>, events: seq<Event>, id: string)
    requires id in After(host, Start(on, homes), events).homes
    ensures var s := After(host, Start(on, homes), events);
            && id in s.disk && s.disk[id] == s.homes[id].enabled
            && exists i :: 0 <= i < |homes| && homes[i].id == id
  {
    StartIsOk(on, homes, |homes|);
    RunKeepsOk(host, Start(on, homes), events);
    RunKeepsHomes(host, Start(on, homes), events);
    StartManages(on, homes, |homes|, id);
  }

  /** A restart never undoes a pause, or a resume, that succeeded. */
  lemma RestartKeepsPolicy(on: Keying, host: Hosting, homes: seq<Home>, events: seq<Event>, id: string)
    requires id in After(host, Start(on, homes), events).homes
    ensures var s := After(host, Start(on, homes), events);
            var restarted := Start(on, Saved(homes, s.disk));
            id in restarted.homes && restarted.homes[id].enabled == s.homes[id].enabled
  {
    SavedFlag(on, host, homes, events, id);
    var i :| 0 <= i < |homes| && homes[i].id == id;
    StartsEnabled(on, Saved(homes, After(host, Start(on, homes), events).disk), i);
  }

  // -------------------------------------------------------------------------
  // The file and the answer
  // -------------------------------------------------------------------------

  /** What a command's answer tells: done exactly when the home is managed, no other home has its key,
      and the flag was so already or has been saved. After it the home has the flag, in memory and in
      the file, and after any other answer nothing at all has changed. */
  lemma AnswerTellsTheOutcome(host: Hosting, s: State, id: string, enabled: bool, saved: bool)
    requires Ok(s)
    ensures var answer, s' := Answered(host, s, id, enabled, saved), Step(host, s, Command(id, enabled, saved));
            && (answer.Done? <==>
                  && id in s.homes
                  && (forall other :: other in s.homes && other != id ==> host(s.homes[other].url) != host(s.homes[id].url))
                  && (s.homes[id].enabled == enabled || saved))
            && (answer.NotConfigured? <==> id !in s.homes)
            && (answer.NotSaved? ==> !saved)
            && (answer.Done? ==> id in s'.homes && s'.homes[id].enabled == enabled && id in s'.disk && s'.disk[id] == enabled)
            && (!answer.Done? || !saved ==> s' == s)
  {
    if id in s.homes { assert HomeOk(s.homes[id], s.disk[id], id in s.runners, s.down); }
  }

  /** A step changes a saved flag only when it is a command for that home whose save succeeded. */
  lemma OnlySavedCommandsWrite(host: Hosting, s: State, e: Event, id: string)
    requires Ok(s) && id in s.disk
    ensures var s' := Step(host, s, e);
            && id in s'.disk
            && (s'.disk[id] != s.disk[id] ==> e == Command(id, s'.disk[id], true))
  {
  }

  /** Over any run a home's saved flag is the one it began with or that of a command for it whose save
      succeeded; and the flag in memory is the saved one (Fleet.PausedMeansCancelled). */
  lemma {:induction false} FlagNeedsASavedCommand(host: Hosting, s: State, events: seq<Event>, id: string)
    requires Ok(s) && id in s.disk
    ensures var s' := After(host, s, events);
            id in s'.disk && (s'.disk[id] != s.disk[id] ==> Command(id, s'.disk[id], true) in events)
  {
    if events != [] {
      var p, e := events[..|events| - 1], events[|events| - 1];
      FlagNeedsASavedCommand(host, s, p, id);
      RunKeepsOk(host, s, p);
      OnlySavedCommandsWrite(host, After(host, s, p), e, id);
      assert events == p + [e];
    }
  }
}
