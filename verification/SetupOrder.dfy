/** The order a reporter's sends arrive in: Stage and flush each take what they send under the lock and
    send it after they let go, so a flush can deliver a stage as it no longer is. */
module SetupOrder {
  import opened Basics
  import opened Utf8Text
  import opened SetupTracker
  import opened SetupReporter

  /** recorded: the reporter's own stages. caller and flushing: taken and not sent yet, by a Stage call
      and by a flush. word: the last thing the worker was told of each stage. */
  datatype Sends = Sends(recorded: map<Name, Stage>, caller: Option<Stage>, flushing: seq<Stage>, word: map<Name, Stage>)

  datatype Act =
    | Record(st: Stage)             // Stage, under its lock: calls follow one another
    | CallerSends
    | Collect(names: seq<Name>)     // flush, under its lock; the last it names is sent first
    | FlushSends

  const NOTHING_SENT := Sends(map[], None, [], map[])

  function Snapshots(recorded: map<Name, Stage>, names: seq<Name>): seq<Stage> {
    if names == [] then []
    else
      var before, name := Snapshots(recorded, names[..|names| - 1]), names[|names| - 1];
      if name in recorded then before + [recorded[name]] else before
  }

  function Next(s: Sends, a: Act): Sends {
    match a
    case Record(st) => if s.caller.None? then s.(recorded := s.recorded[st.name := st], caller := Some(st)) else s
    case CallerSends =>
      if s.caller.Some? then s.(caller := None, word := s.word[s.caller.value.name := s.caller.value]) else s
    case Collect(names) => if s.flushing == [] then s.(flushing := Snapshots(s.recorded, names)) else s
    case FlushSends =>
      if s.flushing != [] then
        var last := s.flushing[|s.flushing| - 1];
        s.(flushing := s.flushing[..|s.flushing| - 1], word := s.word[last.name := last])
      else s
  }

  function Ran(acts: seq<Act>): Sends {
    if acts == [] then NOTHING_SENT else Next(Ran(acts[..|acts| - 1]), acts[|acts| - 1])
  }

  /** The flush is sending the stage otherwise than it is recorded now. */
  predicate Overtaken(s: Sends, name: Name) {
    s.flushing != [] && var last := s.flushing[|s.flushing| - 1]; last.name == name && name in s.recorded && s.recorded[name] != last
  }

  predicate SendsOf(s: Sends, a: Act, name: Name) {
    || (a.CallerSends? && s.caller.Some? && s.caller.value.name == name)
    || (a.FlushSends? && s.flushing != [] && s.flushing[|s.flushing| - 1].name == name)
  }

  /** The last send of a stage was a flush's that had been overtaken. */
  predicate EndsOvertaken(acts: seq<Act>, name: Name) {
    if acts == [] then false
    else
      var before, a := Ran(acts[..|acts| - 1]), acts[|acts| - 1];
      if SendsOf(before, a, name) then a.FlushSends? && Overtaken(before, name)
      else EndsOvertaken(acts[..|acts| - 1], name)
  }

  /** What a flush has in hand is of stages the reporter has. */
  predicate InHandKnown(s: Sends) {
    forall i :: 0 <= i < |s.flushing| ==> s.flushing[i].name in s.recorded
  }

  predicate KeyedByName(s: Sends) {
    forall name :: name in s.recorded ==> s.recorded[name].name == name
  }

  lemma {:induction false} SnapshotsKnown(recorded: map<Name, Stage>, names: seq<Name>)
    requires forall name :: name in recorded ==> recorded[name].name == name
    ensures forall st :: st in Snapshots(recorded, names) ==> st.name in recorded
  {
    if names != [] { SnapshotsKnown(recorded, names[..|names| - 1]); }
  }

  ghost predicate Told(s: Sends, name: Name, overtaken: bool) {
    name in s.recorded ==>
      if s.caller.Some? && s.caller.value.name == name then s.caller.value == s.recorded[name]
      else name in s.word && (s.word[name] == s.recorded[name] <==> !overtaken)
  }

  lemma NextKeepsTold(s: Sends, a: Act, name: Name, overtaken: bool)
    requires InHandKnown(s) && KeyedByName(s) && Told(s, name, overtaken)
    ensures InHandKnown(Next(s, a)) && KeyedByName(Next(s, a))
    ensures Told(Next(s, a), name, if SendsOf(s, a, name) then a.FlushSends? && Overtaken(s, name) else overtaken)
  {
    if a.Collect? { SnapshotsKnown(s.recorded, a.names); }
  }

  lemma {:induction false} RanIsTold(acts: seq<Act>, name: Name)
    ensures InHandKnown(Ran(acts)) && KeyedByName(Ran(acts)) && Told(Ran(acts), name, EndsOvertaken(acts, name))
  {
    if acts != [] {
      RanIsTold(acts[..|acts| - 1], name);
      NextKeepsTold(Ran(acts[..|acts| - 1]), acts[|acts| - 1], name, EndsOvertaken(acts[..|acts| - 1], name));
    }
  }

  /** Over every interleaving of calls and flushes, once no call is sending, the worker's last word on a
      stage is the reporter's exactly when the last send of it was not an overtaken flush's. */
  lemma LastWordExactlyWhen(acts: seq<Act>, name: Name)
    requires Ran(acts).caller.None? && name in Ran(acts).recorded
    ensures name in Ran(acts).word
    ensures Ran(acts).word[name] == Ran(acts).recorded[name] <==> !EndsOvertaken(acts, name)
  {
    RanIsTold(acts, name);
  }

  // -------------------------------------------------------------------------
  // What an overtaken keepalive costs
  // -------------------------------------------------------------------------

  /** A stage runs; a flush takes its keepalive; the stage ends and says so; the keepalive goes out. */
  function LateKeepalive(running: Stage, ended: Stage): seq<Act> {
    [Record(running), CallerSends, Collect([running.name]), Record(ended), CallerSends, FlushSends]
  }

  lemma RanMore(acts: seq<Act>, n: nat)
    requires n < |acts|
    ensures Ran(acts[..n + 1]) == Next(Ran(acts[..n]), acts[n])
  {
    assert acts[..n + 1][..n] == acts[..n];
  }

  lemma KeepaliveIsTaken(running: Stage, ended: Stage)
    ensures Ran(LateKeepalive(running, ended)[..3]) ==
              Sends(map[running.name := running], None, [running], map[running.name := running])
  {
    var acts := LateKeepalive(running, ended);
    assert acts[..0] == [];
    RanMore(acts, 0);
    RanMore(acts, 1);
    RanMore(acts, 2);
    assert [running.name][..0] == [];
    assert Snapshots(map[running.name := running], [running.name]) == Snapshots(map[running.name := running], []) + [running];
  }

  /** The reporter has it ended, and nothing is left to send; the worker was last told it runs. */
  lemma KeepaliveIsLast(running: Stage, ended: Stage)
    requires running.name == ended.name && running != ended
    ensures var s := Ran(LateKeepalive(running, ended));
            && s.caller.None? && s.flushing == []
            && s.recorded == map[running.name := ended] && s.word == map[running.name := running]
  {
    var acts, name := LateKeepalive(running, ended), running.name;
    KeepaliveIsTaken(running, ended);
    RanMore(acts, 3);
    assert Ran(acts[..4]) == Sends(map[name := ended], Some(ended), [running], map[name := running]);
    RanMore(acts, 4);
    assert Ran(acts[..5]) == Sends(map[name := ended], None, [running], map[name := ended]);
    RanMore(acts, 5);
    assert acts[..6] == acts;
  }

  function Reported(phase: Phase): Stage {
    Stage(Runtime, phase, "", NO_FIGURES)
  }

  /** So a stage that was done is told as failed: the late keepalive has it running again in the
      worker's report, nothing sends it once more, and the installer's end fails what still runs. */
  lemma DoneIsToldAsFailed(t: Tracker, at: int, end: int)
    ensures var told := Delivered(t, [Reported(Running), Reported(Done), Reported(Running)], at);
            var finished := Apply(told, Control([], None, true, None, false), end).tracker.report;
            var i := Find(finished.stages, Runtime);
            && i < |finished.stages| && finished.stages[i].phase.Failed? && finished.stages[i].detail == ENDED_WITHOUT_RESULT
  {
    var sent := [Reported(Running), Reported(Done), Reported(Running)];
    var before := Delivered(t, sent[..2], at);
    var told := Apply(before, Sending(sent[2]), at).tracker;
    assert Delivered(t, sent, at) == told;
    LastReportStands(before, at);
    FinishEndsEverything(told, end, end);
  }

  lemma LastReportStands(t: Tracker, at: int)
    ensures var stages := Apply(t, Sending(Reported(Running)), at).tracker.report.stages;
            var i := Find(stages, Runtime);
            i < |stages| && stages[i].phase.Running?
  {
    var i := Find(t.report.stages, Runtime);
    var stages := Apply(t, Sending(Reported(Running)), at).tracker.report.stages;
    assert stages[i].name.Runtime? && forall k :: 0 <= k < i ==> stages[k].name != Runtime;
  }
}
