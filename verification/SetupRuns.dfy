/** The setup report over a machine's life: reports arrive and are saved, or the disk refuses, and
    the worker restarts from what its file holds. */
module SetupRuns {
  import opened Basics
  import opened Utf8Text
  import opened SetupTracker

  // -------------------------------------------------------------------------
  // loadSetupTracker
  // -------------------------------------------------------------------------

  /** The stages of a file this worker can read, within bounds. */
  function Kept(stages: seq<Stage>): seq<Stage> {
    if stages == [] then []
    else
      var before, st := Kept(stages[..|stages| - 1]), stages[|stages| - 1];
      if st.name.OtherName? || st.phase.OtherPhase? then before else before + [BoundedStage(st)]
  }

  function KeptAnswers(answers: map<Name, Answer>): map<Name, Answer> {
    map k | k in answers && k == Permissions && answers[k] == Answer(Permissions, Skip) :: answers[k]
  }

  function Load(file: Option<Report>): Tracker {
    match file
    case None => NO_REPORT
    case Some(r) => Tracker(true, Report(r.finished, Kept(r.stages), KeptAnswers(r.answers), r.updated))
  }

  lemma KeptMore(stages: seq<Stage>, st: Stage)
    requires StageOk(st)
    ensures Kept(stages + [st]) == Kept(stages) + [st]
  {
    assert (stages + [st])[..|stages|] == stages;
  }

  lemma {:induction false} KeptIsAll(stages: seq<Stage>)
    requires forall i :: 0 <= i < |stages| ==> StageOk(stages[i])
    ensures Kept(stages) == stages
  {
    if stages != [] {
      var before, st := stages[..|stages| - 1], stages[|stages| - 1];
      KeptIsAll(before);
      KeptMore(before, st);
      assert before + [st] == stages;
    }
  }

  /** Saving a report and loading it again gives the same report. */
  lemma LoadOfSaved(t: Tracker)
    requires TrackerOk(t) && t.present
    ensures Load(Some(t.report)) == t
  {
    KeptIsAll(t.report.stages);
    assert KeptAnswers(t.report.answers) == t.report.answers;
  }

  // -------------------------------------------------------------------------
  // A machine's life
  // -------------------------------------------------------------------------

  /** kept: the worker has a state directory to keep its report in. */
  datatype Machine = Machine(kept: bool, mem: Tracker, disk: Option<Report>)

  datatype Event =
    | Arrives(c: Control, now: int, saved: bool)
    | Restart

  function Step(m: Machine, e: Event): Machine {
    match e
    case Arrives(c, now, saved) =>
      var o := Apply(m.mem, c, now);
      m.(mem := o.tracker,
         disk := if o.problem.None? && m.kept && o.tracker.present && saved then Some(o.tracker.report) else m.disk)
    case Restart => m.(mem := if m.kept then Load(m.disk) else NO_REPORT)
  }

  function After(kept: bool, h: seq<Event>): Machine {
    if h == [] then Machine(kept, NO_REPORT, None) else Step(After(kept, h[..|h| - 1]), h[|h| - 1])
  }

  predicate MachineOk(m: Machine) {
    TrackerOk(m.mem) && (m.disk.Some? ==> Ok(m.disk.value))
  }

  lemma StepKeepsOk(m: Machine, e: Event)
    requires MachineOk(m)
    ensures MachineOk(Step(m, e))
  {
    match e
    case Arrives(c, now, saved) => ApplyKeepsOk(m.mem, c, now);
    case Restart => if m.kept && m.disk.Some? { LoadOfSaved(Tracker(true, m.disk.value)); }
  }

  /** In every reachable state the stage names are distinct and in the vocabulary, and nothing is
      running once the setup is finished. */
  lemma {:induction false} ReachableOk(kept: bool, h: seq<Event>)
    ensures MachineOk(After(kept, h)) && After(kept, h).kept == kept
  {
    if h != [] {
      ReachableOk(kept, h[..|h| - 1]);
      StepKeepsOk(After(kept, h[..|h| - 1]), h[|h| - 1]);
    }
  }

  /** A report that was saved survives a restart unchanged. */
  lemma SavedReportSurvives(h: seq<Event>, c: Control, now: int)
    ensures var m := Step(After(true, h), Arrives(c, now, true));
            Apply(After(true, h).mem, c, now).problem.None? && m.mem.present ==> Step(m, Restart) == m
  {
    ReachableOk(true, h);
    StepKeepsOk(After(true, h), Arrives(c, now, true));
    var m := Step(After(true, h), Arrives(c, now, true));
    if m.mem.present { LoadOfSaved(m.mem); }
  }

  /** What a stage of the file is loaded as: nothing, when its name or state is not one of the worker's. */
  function LoadedStage(st: Stage): seq<Stage> {
    if st.name in {Permissions, Runtime, Models, Workbench} && st.phase in {Waiting, Running, Done, Failed, Skipped} then [BoundedStage(st)]
    else []
  }

  lemma KeptOneMore(stages: seq<Stage>, st: Stage)
    ensures Kept(stages + [st]) == Kept(stages) + LoadedStage(st)
  {
    assert (stages + [st])[..|stages|] == stages;
  }

  lemma {:induction false} KeptJoins(before: seq<Stage>, after: seq<Stage>)
    ensures Kept(before + after) == Kept(before) + Kept(after)
  {
    if after == [] {
      assert before + after == before;
    } else {
      var rest, last := after[..|after| - 1], after[|after| - 1];
      KeptJoins(before, rest);
      KeptOneMore(before + rest, last);
      KeptOneMore(rest, last);
      assert before + after == before + rest + [last] && after == rest + [last];
    }
  }

  /** Whatever a file holds, each stage of it that is in the vocabulary is loaded in its place, within the
      bounds, and each other one is left out; of its answers only the one the one question has is; and its
      end and its time are as they were. */
  lemma AnyFileLoads(r: Report, before: seq<Stage>, st: Stage, after: seq<Stage>)
    requires r.stages == before + [st] + after
    ensures var t := Load(Some(r));
            && t.present && t.report.finished == r.finished && t.report.updated == r.updated
            && t.report.stages == Kept(before) + LoadedStage(st) + Kept(after)
            && t.report.answers == if Permissions in r.answers && r.answers[Permissions] == Answer(Permissions, Skip)
                                   then map[Permissions := Answer(Permissions, Skip)] else map[]
  {
    KeptOneMore(before, st);
    KeptJoins(before + [st], after);
  }

  /** The file changes exactly when a report is accepted, there is a place to keep it and the write
      succeeds, and then it holds the report; a report that is refused never touches it. */
  lemma WritesExactlyWhen(m: Machine, c: Control, now: int, saved: bool)
    ensures var o, m' := Apply(m.mem, c, now), Step(m, Arrives(c, now, saved));
            && m'.mem == o.tracker && m'.kept == m.kept
            && (o.problem.Some? || !m.kept || !o.tracker.present || !saved ==> m'.disk == m.disk)
            && (o.problem.None? && m.kept && o.tracker.present && saved ==> m'.disk == Some(o.tracker.report))
  {
  }

  // -------------------------------------------------------------------------
  // An answer belongs to the run it was given in
  // -------------------------------------------------------------------------

  /** The permissions stage is running with an answer beside it. */
  predicate Answered(t: Tracker) {
    Permissions in t.report.answers && RunsNow(t.report.stages, Permissions)
  }

  predicate GivesAnswer(e: Event) {
    e.Arrives? && e.c.answer == Some(Answer(Permissions, Skip))
  }

  lemma StageKeepsRun(t: Tracker, st: Stage, now: int)
    requires Answered(ApplyStage(t, st, now).tracker)
    requires TrackerOk(t)
    ensures Answered(t)
  {
    var b := BoundedStage(st);
    var after := Recorded(t.report.stages, b);
    var i :| 0 <= i < |after| && after[i].name == Permissions && after[i].phase.Running?;
    if i < |t.report.stages| && after[i] == t.report.stages[i] {
      assert RunsNow(t.report.stages, Permissions);
    } else {
      assert after[i] == b;
    }
  }

  /** Only an answer puts one beside the running stage. */
  lemma OnlyAnswersAnswer(m: Machine, e: Event)
    requires MachineOk(m) && !e.Restart?
    requires Answered(Step(m, e).mem) && !Answered(m.mem)
    ensures GivesAnswer(e)
  {
    if Validate(e.c).None? && e.c.answer.None? && !e.c.reset && e.c.plan == [] {
      if e.c.stage.Some? {
        StageKeepsRun(m.mem, e.c.stage.value, e.now);
      } else {
        ApplyKeepsOk(m.mem, e.c, e.now);
      }
    }
  }

  ghost predicate AnsweredSince(kept: bool, h: seq<Event>, a: nat) {
    && a < |h| && GivesAnswer(h[a])
    && forall i :: a < i <= |h| ==> Answered(After(kept, h[..i]).mem)
  }

  lemma StillSince(kept: bool, h: seq<Event>, a: nat)
    requires h != [] && AnsweredSince(kept, h[..|h| - 1], a) && Answered(After(kept, h).mem)
    ensures AnsweredSince(kept, h, a)
  {
    var p := h[..|h| - 1];
    assert h[a] == p[a];
    forall i | a < i <= |h| ensures Answered(After(kept, h[..i]).mem) {
      if i < |h| { assert p[..i] == h[..i]; } else { assert h[..i] == h; }
    }
  }

  /** The answer was given in the run of the stage that is going on now. */
  ghost predicate OfThisRun(kept: bool, h: seq<Event>) {
    exists a: nat :: AnsweredSince(kept, h, a)
  }

  /** Every answer beside the running stage, at any point of the history, was given in that run. */
  ghost predicate AnswersBelong(kept: bool, h: seq<Event>) {
    forall n :: 0 <= n <= |h| && Answered(After(kept, h[..n]).mem) ==> OfThisRun(kept, h[..n])
  }

  predicate BringsAnswer(m: Machine) {
    Answered(Step(m, Restart).mem) && !Answered(m.mem)
  }

  /** No restart brings an answered stage back to a worker that did not hold one. */
  ghost predicate RestartsBringNone(kept: bool, h: seq<Event>) {
    forall i :: 0 <= i < |h| && h[i].Restart? ==> !BringsAnswer(After(kept, h[..i]))
  }

  lemma NonePrefix(kept: bool, h: seq<Event>)
    requires h != [] && RestartsBringNone(kept, h)
    ensures RestartsBringNone(kept, h[..|h| - 1])
    ensures h[|h| - 1].Restart? ==> !BringsAnswer(After(kept, h[..|h| - 1]))
  {
    var p := h[..|h| - 1];
    forall i | 0 <= i < |p| && p[i].Restart? ensures !BringsAnswer(After(kept, p[..i])) {
      assert p[..i] == h[..i] && h[i].Restart?;
    }
  }

  lemma {:induction false} BelongsNow(kept: bool, h: seq<Event>)
    requires RestartsBringNone(kept, h) && Answered(After(kept, h).mem)
    ensures OfThisRun(kept, h)
  {
    if h != [] {
      var p := h[..|h| - 1];
      NonePrefix(kept, h);
      if Answered(After(kept, p).mem) {
        BelongsNow(kept, p);
        var a: nat :| AnsweredSince(kept, p, a);
        StillSince(kept, h, a);
      } else {
        ReachableOk(kept, p);
        OnlyAnswersAnswer(After(kept, p), h[|h| - 1]);
        assert h[..|h|] == h;
        assert AnsweredSince(kept, h, |h| - 1);
      }
    }
  }

  lemma NoneTake(kept: bool, h: seq<Event>, n: nat)
    requires n <= |h| && RestartsBringNone(kept, h)
    ensures RestartsBringNone(kept, h[..n])
  {
    forall i | 0 <= i < n && h[..n][i].Restart? ensures !BringsAnswer(After(kept, h[..n][..i])) {
      assert h[..n][..i] == h[..i] && h[i].Restart?;
    }
  }

  lemma RestartGivesNone(kept: bool, h: seq<Event>, i: nat)
    requires i < |h| && h[i].Restart? && BringsAnswer(After(kept, h[..i]))
    ensures Answered(After(kept, h[..i + 1]).mem) && !OfThisRun(kept, h[..i + 1])
  {
    var g := h[..i + 1];
    assert g[..i] == h[..i] && g[i] == h[i];
    forall a: nat ensures !AnsweredSince(kept, g, a) {
      assert a < i ==> !Answered(After(kept, g[..i]).mem);
    }
  }

  /** An answer beside the running stage was always given in that same run of it, at every point of a
      history, exactly when no restart of it brings an answered stage back to a worker that held none. */
  lemma AnswersBelongExactlyWhen(kept: bool, h: seq<Event>)
    ensures AnswersBelong(kept, h) <==> RestartsBringNone(kept, h)
  {
    if RestartsBringNone(kept, h) {
      forall n | 0 <= n <= |h| && Answered(After(kept, h[..n]).mem) ensures OfThisRun(kept, h[..n]) {
        NoneTake(kept, h, n);
        BelongsNow(kept, h[..n]);
      }
    } else {
      var i :| 0 <= i < |h| && h[i].Restart? && BringsAnswer(After(kept, h[..i]));
      RestartGivesNone(kept, h, i);
    }
  }

  /** The file holds what the worker does: a restart changes nothing. */
  predicate FileAgrees(m: Machine) {
    m.kept ==> Load(m.disk) == m.mem
  }

  predicate AllSaved(h: seq<Event>) {
    forall i :: 0 <= i < |h| && h[i].Arrives? ==> h[i].saved
  }

  lemma {:induction false} SavedHistoryAgrees(kept: bool, h: seq<Event>)
    requires AllSaved(h)
    ensures FileAgrees(After(kept, h))
  {
    if h != [] {
      var p, e := h[..|h| - 1], h[|h| - 1];
      SavedHistoryAgrees(kept, p);
      ReachableOk(kept, p);
      ReachableOk(kept, h);
      if e.Arrives? && After(kept, h).mem.present { LoadOfSaved(After(kept, h).mem); }
    }
  }

  /** Whenever every save succeeds the rule holds at every point. */
  lemma SavedAnswersBelong(kept: bool, h: seq<Event>)
    requires AllSaved(h)
    ensures AnswersBelong(kept, h)
  {
    forall i | 0 <= i < |h| && h[i].Restart? ensures !BringsAnswer(After(kept, h[..i])) {
      SavedHistoryAgrees(kept, h[..i]);
      KeptStays(kept, h[..i]);
    }
    AnswersBelongExactlyWhen(kept, h);
  }

  lemma KeptStays(kept: bool, h: seq<Event>)
    ensures After(kept, h).kept == kept
  {
    ReachableOk(kept, h);
  }

  predicate IsStart(c: Control) {
    Validate(c).None? && c.stage.Some? && c.stage.value.name == Permissions && c.stage.value.phase.Running?
  }

  lemma StartDropsAnswer(t: Tracker, c: Control, now: int)
    requires TrackerOk(t) && IsStart(c) && !Answered(t)
    ensures !Answered(Apply(t, c, now).tracker)
  {
    var i := Find(t.report.stages, Permissions);
    assert BoundedStage(c.stage.value).name == Permissions;
    if i < |t.report.stages| && t.report.stages[i].phase.Running? {
      assert RunsNow(t.report.stages, Permissions);
    }
  }

  lemma StartKeepsAnswer(t: Tracker, c: Control, now: int)
    requires TrackerOk(t) && IsStart(c) && Answered(t)
    ensures Answered(Apply(t, c, now).tracker)
  {
    var r, b := t.report, BoundedStage(c.stage.value);
    var i := Find(r.stages, Permissions);
    assert i < |r.stages| && r.stages[i].phase.Running?;
    assert Recorded(r.stages, b)[i] == b;
  }

  /** After a restart the file decides: a stage starting again finds an answer exactly when the file
      has the stage running with one beside it. */
  lemma FileDecides(m: Machine, starts: Control, later: int, saved: bool)
    requires MachineOk(m) && IsStart(starts)
    ensures Answered(Step(Step(m, Restart), Arrives(starts, later, saved)).mem) <==>
              m.kept && m.disk.Some? && Answered(Tracker(true, m.disk.value))
  {
    var restarted := Step(m, Restart);
    StepKeepsOk(m, Restart);
    if m.kept && m.disk.Some? { LoadOfSaved(Tracker(true, m.disk.value)); }
    if Answered(restarted.mem) {
      StartKeepsAnswer(restarted.mem, starts, later);
    } else {
      StartDropsAnswer(restarted.mem, starts, later);
    }
  }

  /** So from any state: the stage ends, the worker restarts, the stage starts again. An answer of the
      old run is there exactly when the end was not written and the file still has that run in it. */
  lemma StaleExactlyWhenSaveIsLost(m: Machine, ends: Control, now: int, saved: bool, starts: Control, later: int, again: bool)
    requires MachineOk(m) && IsStart(starts)
    requires var o := Apply(m.mem, ends, now); o.problem.None? && !RunsNow(o.tracker.report.stages, Permissions)
    ensures var written := saved && Apply(m.mem, ends, now).tracker.present;
            var restarted := Step(Step(m, Arrives(ends, now, saved)), Restart);
            Answered(Step(restarted, Arrives(starts, later, again)).mem) <==>
              !written && m.kept && m.disk.Some? && Answered(Tracker(true, m.disk.value))
  {
    StepKeepsOk(m, Arrives(ends, now, saved));
    FileDecides(Step(m, Arrives(ends, now, saved)), starts, later, again);
  }

  // -------------------------------------------------------------------------
  // A history that does it
  // -------------------------------------------------------------------------

  function Says(phase: Phase): Control {
    Control([], Some(Stage(Permissions, phase, "", NO_FIGURES)), false, None, false)
  }

  function Skips(): Control {
    Control([], None, false, Some(Answer(Permissions, Skip)), false)
  }

  /** The stage runs and is answered; its end is not written; the worker restarts and it runs again. */
  function Forgotten(): seq<Event> {
    [Arrives(Says(Running), 0, true), Arrives(Skips(), 1, true), Arrives(Says(Done), 2, false), Restart, Arrives(Says(Running), 4, true)]
  }

  lemma StageText(phase: Phase)
    ensures BoundedStage(Stage(Permissions, phase, "", NO_FIGURES)) == Stage(Permissions, phase, "", NO_FIGURES)
  {
    TrimOfTrimmed("");
    assert ByteLen("") == 0;
  }

  /** One stage, with or without its answer. */
  function Only(phase: Phase, answers: map<Name, Answer>, updated: int): Tracker {
    Tracker(true, Report(false, [Stage(Permissions, phase, "", NO_FIGURES)], answers, updated))
  }

  lemma FirstRun()
    ensures Apply(NO_REPORT, Says(Running), 0).tracker == Only(Running, map[], 0) && Apply(NO_REPORT, Says(Running), 0).problem.None?
  {
    StageText(Running);
  }

  lemma SkipIsTaken()
    ensures var o := Apply(Only(Running, map[], 0), Skips(), 1);
            o.problem.None? && o.tracker == Only(Running, map[Permissions := Answer(Permissions, Skip)], 0)
  {
    assert Only(Running, map[], 0).report.stages[0].phase.Running?;
  }

  lemma DoneIsTaken(answers: map<Name, Answer>)
    ensures var o := Apply(Only(Running, answers, 0), Says(Done), 2); o.problem.None? && o.tracker == Only(Done, answers, 2)
  {
    StageText(Done);
    var stages := Only(Running, answers, 0).report.stages;
    assert Find(stages, Permissions) == 0;
  }

  lemma ForgottenAnswered()
    ensures var answers := map[Permissions := Answer(Permissions, Skip)];
            After(true, Forgotten()[..2]) == Machine(true, Only(Running, answers, 0), Some(Only(Running, answers, 0).report))
  {
    FirstRun();
    SkipIsTaken();
    assert Forgotten()[..0] == [];
    AfterMore(true, Forgotten(), 0);
    AfterMore(true, Forgotten(), 1);
  }

  lemma ForgottenEnds()
    ensures var h := Forgotten();
            && After(true, h[..3]) == Step(After(true, h[..2]), h[2])
            && After(true, h) == Step(Step(After(true, h[..3]), Restart), h[4])
  {
    var h := Forgotten();
    AfterMore(true, h, 2);
    AfterMore(true, h, 3);
    AfterMore(true, h, 4);
    assert h[..5] == h;
  }

  /** The rule fails on it: the last state has an answer beside the running stage, and no answer of
      that run was ever given. */
  lemma AnswerOutlivesItsRun()
    ensures Answered(After(true, Forgotten()).mem) && !OfThisRun(true, Forgotten())
  {
    var h, answers := Forgotten(), map[Permissions := Answer(Permissions, Skip)];
    var m := After(true, h[..2]);
    ForgottenAnswered();
    ForgottenEnds();
    DoneIsTaken(answers);
    ReachableOk(true, h[..2]);
    assert m.mem.report.stages[0].phase.Running?;
    StaleExactlyWhenSaveIsLost(m, Says(Done), 2, false, Says(Running), 4, true);
    assert !Answered(After(true, h[..3]).mem);
    forall a: nat ensures !AnsweredSince(true, h, a) {
      assert a == 1 ==> !Answered(After(true, h[..3]).mem);
    }
  }

  lemma AfterMore(kept: bool, h: seq<Event>, n: nat)
    requires n < |h|
    ensures After(kept, h[..n + 1]) == Step(After(kept, h[..n]), h[n])
  {
    assert h[..n + 1][..n] == h[..n];
  }
}
