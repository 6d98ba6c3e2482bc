/** The machine's one setup report: five kinds of report change it, a file keeps it across restarts,
    and every heartbeat carries it. */
module SetupTracker {
  import opened Basics
  import opened Utf8Text

  const SECOND := 1_000_000_000
  const QUIET_AFTER := 120 * SECOND
  const MAX_DETAIL_BYTES := 512
  const MAX_MODEL_BYTES := 256

  const ENDED_WITHOUT_RESULT := "This stage ended " + "without reporting a result. " + "The installer's terminal " + "output says why."

  // The closed vocabularies, and any other word.
  datatype Name = Permissions | Runtime | Models | Workbench | OtherName(word: string)
  datatype Phase = Waiting | Running | Done | Failed | Skipped | OtherPhase(word: string)
  datatype Choice = Skip | OtherChoice(word: string)

  /** The models stage's own figures. */
  datatype Figures = Figures(model: string, completed: nat, total: nat, done: int, of: int)

  const NO_FIGURES := Figures("", 0, 0, 0, 0)

  datatype Stage = Stage(name: Name, phase: Phase, detail: string, figures: Figures)
  datatype Answer = Answer(stage: Name, choice: Choice)

  datatype Control = Control(plan: seq<Name>, stage: Option<Stage>, finished: bool, answer: Option<Answer>, reset: bool)

  datatype Problem = NotOnePart | UnknownStage | PlannedTwice | UnknownPhase | NoAnswerExpected | UnknownChoice | NotWaiting

  datatype Report = Report(finished: bool, stages: seq<Stage>, answers: map<Name, Answer>, updated: int)
  datatype Tracker = Tracker(present: bool, report: Report)

  const NO_REPORT := Tracker(false, Report(false, [], map[], 0))

  // -------------------------------------------------------------------------
  // validate
  // -------------------------------------------------------------------------

  function Parts(c: Control): nat {
    (if c.plan != [] then 1 else 0) + (if c.stage.Some? then 1 else 0) + (if c.finished then 1 else 0)
    + (if c.answer.Some? then 1 else 0) + (if c.reset then 1 else 0)
  }

  /** The first thing wrong with a plan, reading it in order. */
  function PlanProblem(plan: seq<Name>): (p: Option<Problem>)
    ensures p.None? <==> KnownNames(plan) && DistinctNames(plan)
  {
    if plan == [] then None
    else
      var before, name := PlanProblem(plan[..|plan| - 1]), plan[|plan| - 1];
      if before.Some? then before
      else if name.OtherName? then Some(UnknownStage)
      else if name in plan[..|plan| - 1] then Some(PlannedTwice)
      else None
  }

  predicate KnownNames(plan: seq<Name>) {
    forall i :: 0 <= i < |plan| ==> !plan[i].OtherName?
  }

  predicate DistinctNames(plan: seq<Name>) {
    forall i, j :: 0 <= i < j < |plan| ==> plan[i] != plan[j]
  }

  function Validate(c: Control): Option<Problem> {
    if Parts(c) != 1 then Some(NotOnePart)
    else if PlanProblem(c.plan).Some? then PlanProblem(c.plan)
    else if c.stage.Some? && c.stage.value.name.OtherName? then Some(UnknownStage)
    else if c.stage.Some? && c.stage.value.phase.OtherPhase? then Some(UnknownPhase)
    else if c.answer.Some? && c.answer.value.stage != Permissions then Some(NoAnswerExpected)
    else if c.answer.Some? && c.answer.value.choice != Skip then Some(UnknownChoice)
    else None
  }

  // -------------------------------------------------------------------------
  // boundedStage
  // -------------------------------------------------------------------------

  function BoundedFigures(f: Figures): Figures {
    var model := Trim(f.model);
    var of := if f.of < 0 then 0 else f.of;
    Figures(if ByteLen(model) > MAX_MODEL_BYTES then "" else model,
            if f.total > 0 && f.completed > f.total then f.total else f.completed, f.total,
            if (if f.done < of then f.done else of) < 0 then 0 else if f.done < of then f.done else of,
            of)
  }

  function BoundedStage(st: Stage): Stage {
    Stage(st.name, st.phase, ClipText(Trim(st.detail), MAX_DETAIL_BYTES),
          if st.name.Models? then BoundedFigures(st.figures) else NO_FIGURES)
  }

  lemma BoundedFiguresAreFixed(f: Figures)
    ensures BoundedFigures(BoundedFigures(f)) == BoundedFigures(f)
    ensures var b := BoundedFigures(f); 0 <= b.done <= b.of && (b.total > 0 ==> b.completed <= b.total)
  {
    TrimTwice(f.model);
    TrimOfTrimmed("");
    assert ByteLen("") == 0;
  }

  /** Figures within the bounds are kept as they are, and each one outside them is drawn in on its own. */
  lemma FiguresAreDrawnIn(f: Figures)
    ensures var b := BoundedFigures(f);
            && b.total == f.total
            && (b.completed == f.completed || (f.completed > f.total > 0 && b.completed == f.total))
            && b.of == (if f.of < 0 then 0 else f.of)
            && b.done == (if f.done < 0 then 0 else if f.done > b.of then b.of else f.done)
            && b.model == (if ByteLen(Trim(f.model)) > 256 then "" else Trim(f.model))
    ensures f.model == Trim(f.model) && ByteLen(f.model) <= 256 && 0 <= f.done <= f.of && (f.total > 0 ==> f.completed <= f.total) ==>
              BoundedFigures(f) == f
  {
  }

  /** A stage is kept but for its sentence, trimmed and cut to as many characters as fit 512 bytes, and its
      figures, which are the models stage's alone. */
  lemma StageIsDrawnIn(st: Stage)
    ensures var b, text := BoundedStage(st), Trim(st.detail);
            && b.name == st.name && b.phase == st.phase
            && b.figures == (if st.name.Models? then BoundedFigures(st.figures) else Figures("", 0, 0, 0, 0))
            && (if ByteLen(text) <= 512 then b.detail == text
                else exists k: nat :: k < |text| && ByteLen(text[..k]) <= 512 < ByteLen(text[..k + 1]) && b.detail == Trim(text[..k]))
  {
    var text := Trim(st.detail);
    if ByteLen(text) > 512 {
      assert text[..|text|] == text;
      var k := Fit(text, 512);
      assert k < |text|;
    }
  }

  /** Holding a stage to the engine's bounds twice is holding it to them once. */
  lemma BoundedStageIsFixed(st: Stage)
    ensures BoundedStage(BoundedStage(st)) == BoundedStage(st)
  {
    BoundedTextIsFixed(st.detail, MAX_DETAIL_BYTES);
    BoundedFiguresAreFixed(st.figures);
  }

  // -------------------------------------------------------------------------
  // applyLocked
  // -------------------------------------------------------------------------

  /** The first stage of that name, or |stages|. */
  function Find(stages: seq<Stage>, name: Name): (i: nat)
    ensures i <= |stages|
    ensures i < |stages| ==> stages[i].name == name
    ensures forall k :: 0 <= k < i ==> stages[k].name != name
  {
    FindFrom(stages, name, 0)
  }

  function FindFrom(stages: seq<Stage>, name: Name, from: nat): (i: nat)
    requires from <= |stages|
    ensures from <= i <= |stages|
    ensures i < |stages| ==> stages[i].name == name
    ensures forall k :: from <= k < i ==> stages[k].name != name
    decreases |stages| - from
  {
    if from == |stages| || stages[from].name == name then from else FindFrom(stages, name, from + 1)
  }

  predicate RunsNow(stages: seq<Stage>, name: Name) {
    exists i :: 0 <= i < |stages| && stages[i].name == name && stages[i].phase.Running?
  }

  function Recorded(stages: seq<Stage>, st: Stage): seq<Stage> {
    var i := Find(stages, st.name);
    if i < |stages| then stages[i := st] else stages + [st]
  }

  function Ended(st: Stage): Stage {
    if st.phase.Waiting? then st.(phase := Skipped)
    else if st.phase.Running? then st.(phase := Failed, detail := ENDED_WITHOUT_RESULT)
    else st
  }

  function AllEnded(stages: seq<Stage>): (r: seq<Stage>)
    ensures |r| == |stages| && forall i :: 0 <= i < |r| ==> r[i] == Ended(stages[i])
  {
    seq(|stages|, i requires 0 <= i < |stages| => Ended(stages[i]))
  }

  function Planned(plan: seq<Name>): (r: seq<Stage>)
    ensures |r| == |plan| && forall i :: 0 <= i < |r| ==> r[i] == Stage(plan[i], Waiting, "", NO_FIGURES)
  {
    seq(|plan|, i requires 0 <= i < |plan| => Stage(plan[i], Waiting, "", NO_FIGURES))
  }

  /** What a report comes to: the tracker after it, whether it changed a step, and what was wrong. */
  datatype Outcome = Outcome(tracker: Tracker, step: bool, problem: Option<Problem>)

  function ApplyAnswer(t: Tracker, a: Answer): Outcome {
    if !t.present || t.report.finished || !RunsNow(t.report.stages, a.stage) then Outcome(t, false, Some(NotWaiting))
    else Outcome(t.(report := t.report.(answers := t.report.answers[a.stage := a])), true, None)
  }

  function ApplyReset(t: Tracker, now: int): Outcome {
    if !t.present then Outcome(t, false, None) else Outcome(Tracker(true, Report(true, [], map[], now)), true, None)
  }

  function ApplyStage(t: Tracker, reported: Stage, now: int): Outcome {
    var st, r := BoundedStage(reported), t.report;
    var i := Find(r.stages, st.name);
    var starts := st.phase.Running? && (i < |r.stages| ==> !r.stages[i].phase.Running?);
    Outcome(Tracker(true, Report(r.finished && !st.phase.Running?, Recorded(r.stages, st),
                                 if starts then r.answers - {st.name} else r.answers, now)),
            i < |r.stages| ==> r.stages[i].phase != st.phase || r.stages[i].detail != st.detail,
            None)
  }

  function Apply(t: Tracker, c: Control, now: int): Outcome {
    var problem := Validate(c);
    if problem.Some? then Outcome(t, false, problem)
    else if c.answer.Some? then ApplyAnswer(t, c.answer.value)
    else if c.reset then ApplyReset(t, now)
    else if c.plan != [] then Outcome(Tracker(true, Report(false, Planned(c.plan), map[], now)), true, None)
    else if c.stage.Some? then ApplyStage(t, c.stage.value, now)
    else Outcome(Tracker(true, Report(true, AllEnded(t.report.stages), t.report.answers, now)), true, None)
  }

  /** stateLocked. */
  datatype Standing = IsFinished | IsStopped | IsRunning

  predicate AnyPending(stages: seq<Stage>) {
    exists i :: 0 <= i < |stages| && (stages[i].phase.Waiting? || stages[i].phase.Running?)
  }

  function StandingOf(r: Report, now: int): Standing {
    if r.finished || !AnyPending(r.stages) then IsFinished
    else if now - r.updated > QUIET_AFTER then IsStopped
    else IsRunning
  }

  /** A setup is stopped exactly when a stage waits or runs, the installer has not said it is done,
      and nothing has been heard for more than two minutes; finished exactly when the installer said so
      or no stage is left to run. */
  lemma StandingExactly(r: Report, now: int)
    ensures StandingOf(r, now).IsStopped? <==>
              && !r.finished && now - r.updated > 120_000_000_000
              && exists i :: 0 <= i < |r.stages| && r.stages[i].phase in {Waiting, Running}
    ensures StandingOf(r, now).IsFinished? <==>
              r.finished || forall i :: 0 <= i < |r.stages| ==> r.stages[i].phase !in {Waiting, Running}
  {
    if i :| 0 <= i < |r.stages| && r.stages[i].phase in {Waiting, Running} {
      assert AnyPending(r.stages);
    }
  }

  // -------------------------------------------------------------------------
  // What every report keeps
  // -------------------------------------------------------------------------

  predicate StageOk(st: Stage) {
    !st.name.OtherName? && !st.phase.OtherPhase? && BoundedStage(st) == st
  }

  predicate NamesDiffer(stages: seq<Stage>) {
    forall i, j :: 0 <= i < j < |stages| ==> stages[i].name != stages[j].name
  }

  predicate StagesOk(stages: seq<Stage>) {
    NamesDiffer(stages) && forall i :: 0 <= i < |stages| ==> StageOk(stages[i])
  }

  predicate NoneRuns(stages: seq<Stage>) {
    forall i :: 0 <= i < |stages| ==> !stages[i].phase.Running?
  }

  predicate Ok(r: Report) {
    && StagesOk(r.stages)
    && (r.finished ==> NoneRuns(r.stages))
    && (forall k :: k in r.answers ==> k == Permissions && r.answers[k] == Answer(Permissions, Skip))
  }

  predicate TrackerOk(t: Tracker) {
    Ok(t.report) && (!t.present ==> t.report == NO_REPORT.report)
  }

  lemma EndedWithoutResultIsBounded()
    ensures ClipText(Trim(ENDED_WITHOUT_RESULT), MAX_DETAIL_BYTES) == ENDED_WITHOUT_RESULT
  {
    assert |"This stage ended "| == 17 && |"without reporting a result. "| == 28 && |"The installer's terminal "| == 25;
    assert |"output says why."| == 16 && "This stage ended "[0] == 'T' && "output says why."[15] == '.';
    TrimOfTrimmed(ENDED_WITHOUT_RESULT);
    ShortTextFits(ENDED_WITHOUT_RESULT);
  }

  lemma EndedIsOk(st: Stage)
    requires StageOk(st)
    ensures StageOk(Ended(st)) && Ended(st).name == st.name && !Ended(st).phase.Running?
  {
    EndedWithoutResultIsBounded();
  }

  lemma PlannedIsOk(plan: seq<Name>)
    requires KnownNames(plan) && DistinctNames(plan)
    ensures Ok(Report(false, Planned(plan), map[], 0))
  {
    TrimOfTrimmed("");
    assert ByteLen("") == 0;
  }

  lemma RecordedElements(stages: seq<Stage>, st: Stage)
    requires NamesDiffer(stages)
    ensures var r := Recorded(stages, st);
            NamesDiffer(r) && forall i :: 0 <= i < |r| ==> r[i] == st || (i < |stages| && r[i] == stages[i])
  {
  }

  lemma RecordedKeepsOk(stages: seq<Stage>, st: Stage)
    requires StagesOk(stages) && StageOk(st)
    ensures StagesOk(Recorded(stages, st))
    ensures NoneRuns(stages) && !st.phase.Running? ==> NoneRuns(Recorded(stages, st))
  {
    RecordedElements(stages, st);
  }

  lemma ApplyStageKeepsOk(t: Tracker, st: Stage, now: int)
    requires TrackerOk(t) && !st.name.OtherName? && !st.phase.OtherPhase?
    ensures TrackerOk(ApplyStage(t, st, now).tracker)
  {
    BoundedStageIsFixed(st);
    RecordedKeepsOk(t.report.stages, BoundedStage(st));
  }

  lemma ApplyFinishedKeepsOk(r: Report, now: int)
    requires Ok(r)
    ensures Ok(Report(true, AllEnded(r.stages), r.answers, now))
  {
    forall i | 0 <= i < |r.stages| ensures StageOk(Ended(r.stages[i])) && !Ended(r.stages[i]).phase.Running? {
      EndedIsOk(r.stages[i]);
    }
    assert forall i :: 0 <= i < |r.stages| ==> Ended(r.stages[i]).name == r.stages[i].name;
  }

  /** Stage names stay distinct and in the vocabulary, nothing is running once finished, and every
      stage stays within the engine's bounds. */
  lemma ApplyKeepsOk(t: Tracker, c: Control, now: int)
    requires TrackerOk(t)
    ensures TrackerOk(Apply(t, c, now).tracker)
  {
    if Validate(c).None? && c.answer.None? && !c.reset {
      if c.plan != [] {
        PlannedIsOk(c.plan);
      } else if c.stage.Some? {
        ApplyStageKeepsOk(t, c.stage.value, now);
      } else {
        ApplyFinishedKeepsOk(t.report, now);
      }
    }
  }

  /** Once the installer says it is done no stage waits or runs, each keeps its name, and one that was
      running is failed and one that was waiting skipped. */
  lemma FinishEndsEverything(t: Tracker, now: int, later: int)
    ensures var r := Apply(t, Control([], None, true, None, false), now).tracker.report;
            && r.finished && |r.stages| == |t.report.stages| && !AnyPending(r.stages) && StandingOf(r, later).IsFinished?
            && forall i :: 0 <= i < |r.stages| ==>
                 var was, st := t.report.stages[i], r.stages[i];
                 && st.name == was.name
                 && (was.phase.Running? ==> st.phase.Failed? && st.detail == ENDED_WITHOUT_RESULT)
                 && (was.phase.Waiting? ==> st.phase.Skipped? && st.detail == was.detail)
                 && (!was.phase.Running? && !was.phase.Waiting? ==> st == was)
  {
  }

  /** What a page can tell one step of the setup by. */
  predicate SameSteps(r: Report, r': Report) {
    && r'.finished == r.finished && r'.answers == r.answers && |r'.stages| == |r.stages|
    && forall i :: 0 <= i < |r.stages| ==>
         r'.stages[i].name == r.stages[i].name && r'.stages[i].phase == r.stages[i].phase && r'.stages[i].detail == r.stages[i].detail
  }

  lemma SilentStageChangesNoStep(t: Tracker, st: Stage, now: int)
    requires TrackerOk(t) && !ApplyStage(t, st, now).step
    ensures SameSteps(t.report, ApplyStage(t, st, now).tracker.report)
  {
    var i := Find(t.report.stages, st.name);
    assert BoundedStage(st).name == st.name && BoundedStage(st).phase == st.phase;
    assert i < |t.report.stages| && t.report.stages[i].phase == st.phase;
  }

  /** A report that announces no step changed none, so no beat is owed for it. */
  lemma SilentReportChangesNoStep(t: Tracker, c: Control, now: int)
    requires TrackerOk(t) && !Apply(t, c, now).step
    ensures SameSteps(t.report, Apply(t, c, now).tracker.report)
  {
    if Validate(c).None? && c.answer.None? && !c.reset && c.plan == [] && c.stage.Some? {
      SilentStageChangesNoStep(t, c.stage.value, now);
    }
  }

  /** The keepalive of a running stage announces none, and keeps the answer it was given. */
  lemma KeepaliveIsSilent(t: Tracker, i: nat, figures: Figures, now: int)
    requires TrackerOk(t) && i < |t.report.stages| && t.report.stages[i].phase.Running?
    ensures var st := t.report.stages[i];
            var o := Apply(t, Control([], Some(st.(figures := figures)), false, None, false), now);
            !o.step && o.problem.None? && o.tracker.report.answers == t.report.answers && o.tracker.report.updated == now
  {
    var st := t.report.stages[i];
    assert StageOk(st);
    assert Find(t.report.stages, st.name) == i;
  }

  // -------------------------------------------------------------------------
  // The tracker, which keeps its report in place
  // -------------------------------------------------------------------------

  lemma {:induction false} FirstPlanProblem(plan: seq<Name>, n: nat)
    requires n <= |plan| && PlanProblem(plan[..n]).Some?
    ensures PlanProblem(plan) == PlanProblem(plan[..n])
  {
    if n == |plan| {
      assert plan[..n] == plan;
    } else {
      assert plan[..|plan| - 1][..n] == plan[..n];
      FirstPlanProblem(plan[..|plan| - 1], n);
    }
  }

  /** validate's walk over a plan. */
  method CheckPlan(plan: seq<Name>) returns (problem: Option<Problem>)
    ensures problem == PlanProblem(plan)
  {
    var seen: set<Name> := {};
    var i := 0;
    while i < |plan|
      invariant 0 <= i <= |plan|
      invariant seen == set name | name in plan[..i]
      invariant PlanProblem(plan[..i]).None?
    {
      assert plan[..i + 1][..i] == plan[..i];
      if plan[i].OtherName? {
        FirstPlanProblem(plan, i + 1);
        return Some(UnknownStage);
      }
      if plan[i] in seen {
        FirstPlanProblem(plan, i + 1);
        return Some(PlannedTwice);
      }
      seen := seen + {plan[i]};
      i := i + 1;
    }
    assert plan[..i] == plan;
    return None;
  }

  class LiveTracker {
    var present: bool
    var finished: bool
    var stages: seq<Stage>
    var answers: map<Name, Answer>
    var updated: int

    function Now(): Tracker
      reads this
    {
      Tracker(present, Report(finished, stages, answers, updated))
    }

    constructor ()
      ensures Now() == NO_REPORT
    {
      present, finished, stages, answers, updated := false, false, [], map[], 0;
    }

    method TakeAnswer(a: Answer) returns (step: bool, problem: Option<Problem>)
      modifies this
      ensures Outcome(Now(), step, problem) == ApplyAnswer(old(Now()), a)
    {
      var waiting, i := false, 0;
      while i < |stages|
        invariant 0 <= i <= |stages|
        invariant waiting <==> exists k :: 0 <= k < i && stages[k].name == a.stage && stages[k].phase.Running?
      {
        if stages[i].name == a.stage && stages[i].phase.Running? {
          waiting := true;
        }
        i := i + 1;
      }
      if !present || finished || !waiting {
        return false, Some(NotWaiting);
      }
      answers := answers[a.stage := a];
      return true, None;
    }

    method TakeStage(reported: Stage, now: int) returns (step: bool)
      modifies this
      ensures Outcome(Now(), step, None) == ApplyStage(old(Now()), reported, now)
    {
      present, updated := true, now;
      var st := BoundedStage(reported);
      if st.phase.Running? {
        finished := false;
      }
      var i := 0;
      while i < |stages|
        invariant 0 <= i <= |stages|
        invariant forall k :: 0 <= k < i ==> stages[k].name != st.name
      {
        if stages[i].name == st.name {
          var before := stages[i];
          if st.phase.Running? && !before.phase.Running? {
            answers := answers - {st.name};
          }
          stages := stages[i := st];
          return before.phase != st.phase || before.detail != st.detail;
        }
        i := i + 1;
      }
      if st.phase.Running? {
        answers := answers - {st.name};
      }
      stages := stages + [st];
      return true;
    }

    method Finish(now: int)
      modifies this
      ensures Now() == Tracker(true, Report(true, AllEnded(old(stages)), old(answers), now))
    {
      present, updated, finished := true, now, true;
      var i := 0;
      while i < |stages|
        invariant 0 <= i <= |stages| == |old(stages)|
        invariant forall k :: 0 <= k < i ==> stages[k] == Ended(old(stages)[k])
        invariant forall k :: i <= k < |stages| ==> stages[k] == old(stages)[k]
        invariant present && finished && updated == now && answers == old(answers)
      {
        if stages[i].phase.Waiting? {
          stages := stages[i := stages[i].(phase := Skipped)];
        } else if stages[i].phase.Running? {
          stages := stages[i := stages[i].(phase := Failed, detail := ENDED_WITHOUT_RESULT)];
        }
        i := i + 1;
      }
    }

    /** stateLocked. */
    method State(now: int) returns (standing: Standing)
      ensures standing == StandingOf(Now().report, now)
    {
      if finished {
        return IsFinished;
      }
      var pending, i := false, 0;
      while i < |stages| && !pending
        invariant 0 <= i <= |stages|
        invariant pending <==> exists k :: 0 <= k < i && (stages[k].phase.Waiting? || stages[k].phase.Running?)
      {
        pending := stages[i].phase.Waiting? || stages[i].phase.Running?;
        i := i + 1;
      }
      if !pending {
        return IsFinished;
      }
      return if now - updated > QUIET_AFTER then IsStopped else IsRunning;
    }

    /** Apply, up to the save: validate, then record. */
    method ApplyReport(c: Control, now: int) returns (step: bool, problem: Option<Problem>)
      modifies this
      ensures Outcome(Now(), step, problem) == Apply(old(Now()), c, now)
    {
      var plan := CheckPlan(c.plan);
      problem := if Parts(c) == 1 && plan.Some? then plan else Validate(c);
      if problem.Some? {
        return false, problem;
      }
      if c.answer.Some? {
        step, problem := TakeAnswer(c.answer.value);
      } else if c.reset {
        step := present;
        if present {
          finished, stages, answers, updated := true, [], map[], now;
        }
      } else if c.plan != [] {
        present, updated, finished, answers, step := true, now, false, map[], true;
        stages := seq(|c.plan|, i requires 0 <= i < |c.plan| => Stage(c.plan[i], Waiting, "", NO_FIGURES));
      } else if c.stage.Some? {
        step := TakeStage(c.stage.value, now);
      } else {
        step := true;
        Finish(now);
      }
    }
  }
}
