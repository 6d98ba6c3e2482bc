/** What each of the five kinds of report does to the tracker, and which are refused. */
module SetupReports {
  import opened Basics
  import opened SetupTracker

  /** A report is accepted exactly when it has one of its five parts, and that part is within the closed
      vocabularies: a plan of known names, none twice; a stage of a known name and state; the one answer
      the one question has. */
  lemma AcceptedExactlyWhen(c: Control)
    ensures Validate(c).None? <==>
              && multiset{c.plan != [], c.stage.Some?, c.finished, c.answer.Some?, c.reset}[true] == 1
              && (forall name :: name in c.plan ==> !name.OtherName?)
              && (forall i, j :: 0 <= i < j < |c.plan| ==> c.plan[i] != c.plan[j])
              && (c.stage.Some? ==> !c.stage.value.name.OtherName? && !c.stage.value.phase.OtherPhase?)
              && (c.answer.Some? ==> c.answer.value == Answer(Permissions, Skip))
  {
    assert KnownNames(c.plan) <==> forall name :: name in c.plan ==> !name.OtherName?;
    assert DistinctNames(c.plan) <==> forall i, j :: 0 <= i < j < |c.plan| ==> c.plan[i] != c.plan[j];
  }

  /** A report that is refused, for whatever reason, changes nothing and announces nothing. */
  lemma RefusedChangesNothing(t: Tracker, c: Control, now: int)
    ensures var o := Apply(t, c, now);
            && (Validate(c).Some? ==> o.problem == Validate(c))
            && (o.problem.Some? ==> o.tracker == t && !o.step)
  {
  }

  /** A plan begins the report again: each stage of it waits, and nothing else is left. */
  lemma PlanBeginsAgain(t: Tracker, plan: seq<Name>, now: int)
    requires plan != [] && Validate(Control(plan, None, false, None, false)).None?
    ensures var o := Apply(t, Control(plan, None, false, None, false), now);
            var r := o.tracker.report;
            && o.problem.None? && o.step && o.tracker.present
            && !r.finished && r.answers == map[] && r.updated == now && |r.stages| == |plan|
            && forall i :: 0 <= i < |plan| ==> r.stages[i] == Stage(plan[i], Waiting, "", Figures("", 0, 0, 0, 0))
  {
  }

  /** r' is r with st as one of its stages, in the place of the stage of its name or at the end. */
  ghost predicate StageTaken(stages: seq<Stage>, st: Stage, taken: seq<Stage>) {
    exists i :: 0 <= i < |taken| && taken[i] == st
      && (if exists k :: 0 <= k < |stages| && stages[k].name == st.name then |taken| == |stages| && stages[i].name == st.name
          else |taken| == |stages| + 1 && i == |stages|)
      && forall j :: 0 <= j < |stages| && j != i ==> taken[j] == stages[j]
  }

  lemma RecordedInPlace(stages: seq<Stage>, st: Stage)
    ensures StageTaken(stages, st, Recorded(stages, st))
  {
    var i := Find(stages, st.name);
    if i < |stages| {
      assert Recorded(stages, st)[i] == st;
    } else {
      assert Recorded(stages, st)[|stages|] == st;
    }
  }

  lemma FoundIsOnly(stages: seq<Stage>, name: Name)
    requires NamesDiffer(stages)
    ensures RunsNow(stages, name) <==> Find(stages, name) < |stages| && stages[Find(stages, name)].phase.Running?
    ensures forall i :: 0 <= i < |stages| && stages[i].name == name ==> i == Find(stages, name)
  {
  }

  /** A stage's report records that stage, within the bounds, and touches no other. A stage that starts,
      or starts again, loses the answer it had; a running one reopens a finished report. It announces a
      step exactly when the stage is new or its state or sentence is another. */
  lemma StageIsTaken(t: Tracker, st: Stage, now: int)
    requires TrackerOk(t) && !st.name.OtherName? && !st.phase.OtherPhase?
    ensures var o := Apply(t, Control([], Some(st), false, None, false), now);
            var was, r := t.report, o.tracker.report;
            && o.problem.None? && o.tracker.present && r.updated == now
            && StageTaken(was.stages, BoundedStage(st), r.stages)
            && (r.finished <==> was.finished && !st.phase.Running?)
            && (r.answers == if st.phase.Running? && !RunsNow(was.stages, st.name) then was.answers - {st.name} else was.answers)
            && (!o.step <==> exists i :: 0 <= i < |was.stages| && was.stages[i].name == st.name
                               && was.stages[i].phase == st.phase && was.stages[i].detail == BoundedStage(st).detail)
  {
    RecordedInPlace(t.report.stages, BoundedStage(st));
    FoundIsOnly(t.report.stages, st.name);
    assert Apply(t, Control([], Some(st), false, None, false), now) == ApplyStage(t, st, now);
  }

  /** An answer is taken exactly while its stage runs in a report that is not finished, and is then the one
      thing that changes. */
  lemma AnswerIsTaken(t: Tracker, a: Answer, now: int)
    requires a == Answer(Permissions, Skip)
    ensures var o := Apply(t, Control([], None, false, Some(a), false), now);
            if t.present && !t.report.finished && exists st :: st in t.report.stages && st.name.Permissions? && st.phase.Running? then
              o == Outcome(t.(report := t.report.(answers := t.report.answers[Permissions := a])), true, None)
            else o == Outcome(t, false, Some(NotWaiting))
  {
    if st :| st in t.report.stages && st.name.Permissions? && st.phase.Running? {
      var i :| 0 <= i < |t.report.stages| && t.report.stages[i] == st;
      assert RunsNow(t.report.stages, Permissions);
    }
  }

  /** A reset ends whatever is there, and leaves nothing of it. */
  lemma ResetClears(t: Tracker, now: int)
    ensures var o := Apply(t, Control([], None, false, None, true), now);
            o == if t.present then Outcome(Tracker(true, Report(true, [], map[], now)), true, None) else Outcome(t, false, None)
  {
  }

  /** The end of the installer is heard, and keeps the answers. */
  lemma FinishIsHeard(t: Tracker, now: int)
    ensures var o := Apply(t, Control([], None, true, None, false), now);
            && o.problem.None? && o.step && o.tracker.present
            && o.tracker.report.answers == t.report.answers && o.tracker.report.updated == now
  {
  }
}
