/** What an admitted pull comes to: whatever the rest of the worker does between its steps, it is a few
    steps from its end, and the next one is open to it. */
module PullProgress {
  import Basics
  import opened ModelPull

  /** The pull's own next step, with what the runtime or the policy says to it. */
  function NextStep(stage: Stage, i: nat, error: Basics.Option<string>): Event {
    match stage
    case Pulling => PullReturns(i, error)
    case Failed(_) => ReadReason(i)
    case Allowing => AllowReturns(i, error)
    case Reloading => ReloadReturns(i, error)
    case Ending(_, _) => SendEnd(i)
    case Sent(_, _) => Release(i)
    case _ => Ask(i)
  }

  function StepsLeft(stage: Stage): (n: nat)
    ensures n <= 6
  {
    match stage
    case Pulling => 6
    case Failed(_) => 5
    case Allowing => 5
    case Reloading => 4
    case Ending(_, _) => 3
    case Sent(_, _) => 2
    case Freed(_, _) => 1
    case Over(_, _) => 0
  }

  lemma {:induction false} PullsStay(s: State, events: seq<Event>)
    ensures |After(s, events).pulls| >= |s.pulls|
  {
    if events != [] {
      PullsStay(s, events[..|events| - 1]);
      StepKeepsPulls(After(s, events[..|events| - 1]), events[|events| - 1]);
    }
  }

  lemma StepKeepsPulls(s: State, e: Event)
    ensures |Step(s, e).pulls| >= |s.pulls|
  {
  }

  ghost function StageAfter(s: State, events: seq<Event>, i: nat): Stage
    requires i < |s.pulls|
  {
    PullsStay(s, events);
    After(s, events).pulls[i].stage
  }

  /** How often a run of steps moved pull i. */
  ghost function Moves(s: State, events: seq<Event>, i: nat): nat
    requires i < |s.pulls|
  {
    if events == [] then 0
    else
      var before := events[..|events| - 1];
      Moves(s, before, i) + if StageAfter(s, events, i) != StageAfter(s, before, i) then 1 else 0
  }

  lemma WorkMoves(p: Pull, e: Event)
    ensures Work(p, e).stage == p.stage || StepsLeft(Work(p, e).stage) < StepsLeft(p.stage)
    ensures Finish(p, e).stage == p.stage || StepsLeft(Finish(p, e).stage) < StepsLeft(p.stage)
  {
  }

  lemma StepMoves(s: State, e: Event, i: nat)
    requires i < |s.pulls|
    ensures i < |Step(s, e).pulls|
    ensures Step(s, e).pulls[i].stage == s.pulls[i].stage || StepsLeft(Step(s, e).pulls[i].stage) < StepsLeft(s.pulls[i].stage)
  {
    WorkMoves(s.pulls[i], e);
  }

  /** The next step moves the pull, whatever it is told. */
  lemma NextStepMoves(s: State, i: nat, error: Basics.Option<string>)
    requires i < |s.pulls| && !s.pulls[i].stage.Over?
    ensures var s' := Step(s, NextStep(s.pulls[i].stage, i, error));
            i < |s'.pulls| && StepsLeft(s'.pulls[i].stage) < StepsLeft(s.pulls[i].stage)
  {
  }

  predicate MovedBy(s: State, i: nat, error: Basics.Option<string>) {
    && i < |s.pulls| && i < |Step(s, NextStep(s.pulls[i].stage, i, error)).pulls|
    && Step(s, NextStep(s.pulls[i].stage, i, error)).pulls[i].stage != s.pulls[i].stage
  }

  ghost predicate Open(s: State, i: nat) {
    forall error :: MovedBy(s, i, error)
  }

  /** A pull makes at most six moves, and until it is over its next step is open to it: an admitted pull
      whose pull, policy edit and reload return sends its End and lets go. */
  lemma EveryPullRunsOut(s: State, events: seq<Event>, i: nat)
    requires i < |s.pulls|
    ensures Moves(s, events, i) + StepsLeft(StageAfter(s, events, i)) <= 6
    ensures StageAfter(s, events, i).Over? || Open(After(s, events), i)
  {
    PullsStay(s, events);
    MovesAreSteps(s, events, i);
    var s' := After(s, events);
    if !s'.pulls[i].stage.Over? {
      forall error ensures MovedBy(s', i, error) {
        NextStepMoves(s', i, error);
      }
    }
  }

  lemma {:induction false} MovesAreSteps(s: State, events: seq<Event>, i: nat)
    requires i < |s.pulls|
    ensures Moves(s, events, i) + StepsLeft(StageAfter(s, events, i)) <= StepsLeft(s.pulls[i].stage)
  {
    if events != [] {
      var before := events[..|events| - 1];
      MovesAreSteps(s, before, i);
      PullsStay(s, before);
      StepMoves(After(s, before), events[|events| - 1], i);
    }
  }

  /** What a step of the work was told is what the pull's trace says: the runtime's, the policy's and the
      reload's errors each stop it there, and nothing else does. */
  lemma ReturnsAreTold(s: State, i: nat, error: Basics.Option<string>)
    requires i < |s.pulls| && (s.pulls[i].stage.Pulling? || s.pulls[i].stage.Allowing? || s.pulls[i].stage.Reloading?)
    ensures var p, s' := s.pulls[i], Step(s, NextStep(s.pulls[i].stage, i, error));
            && |s'.pulls| == |s.pulls|
            && var q := s'.pulls[i];
               match error
               case Some(text) =>
                 && (p.stage.Pulling? ==> q.stage == Failed(text) && q.trace == p.trace + [PullFailed(text)])
                 && (p.stage.Allowing? ==> q.stage.Ending? && !q.stage.ok && q.trace == p.trace + [AllowFailed(text)])
                 && (p.stage.Reloading? ==> q.stage.Ending? && !q.stage.ok && q.trace == p.trace + [ReloadFailed(text)])
               case None =>
                 && (p.stage.Pulling? ==> q.stage.Allowing? && q.trace == p.trace + [Pulled])
                 && (p.stage.Allowing? ==> q.stage.Reloading? && q.trace == p.trace + [Allowed])
                 && (p.stage.Reloading? ==> q.stage == Ending(true, "") && q.trace == p.trace + [Reloaded])
  {
  }
}
