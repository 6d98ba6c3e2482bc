/** A setup command's side of the setup report, and the keepalive it and the tracker make together:
    while a stage runs, the worker hears of it often enough never to call the setup stopped. */
module SetupReporter {
  import opened Basics
  import opened SetupTracker

  const KEEPALIVE := 30 * SECOND

  /** lastSent is None until the first send, which is longer ago than any keepalive. */
  datatype Reporter = Reporter(stages: map<Name, Stage>, order: seq<Name>, pending: bool, lastSent: Option<int>)

  const QUIET := Reporter(map[], [], false, None)

  function Sending(st: Stage): Control {
    Control([], Some(st), false, None, false)
  }

  function StageOf(r: Reporter, name: Name): Stage {
    if name in r.stages then r.stages[name] else Stage(name, OtherPhase(""), "", NO_FIGURES)
  }

  function Listed(r: Reporter, st: Stage): Reporter {
    r.(stages := r.stages[st.name := st], order := if st.name in r.stages then r.order else r.order + [st.name])
  }

  /** What Stage sends. */
  function Called(r: Reporter, name: Name, phase: Phase, detail: string): Stage {
    var f := StageOf(r, name).figures;
    Stage(name, phase, detail, if name.Models? && phase.Done? && f.of > 0 then f.(done := f.of) else f)
  }

  function StageCalled(r: Reporter, name: Name, phase: Phase, detail: string, at: int): Reporter {
    Listed(r, Called(r, name, phase, detail)).(pending := false, lastSent := Some(at))
  }

  function PullCalled(r: Reporter, figures: Figures): Reporter {
    Listed(r, Stage(Models, Running, "", figures)).(pending := true)
  }

  predicate KeepaliveDue(r: Reporter, at: int) {
    r.lastSent.None? || at - r.lastSent.value >= KEEPALIVE
  }

  predicate IsDue(r: Reporter, name: Name, at: int, final: bool) {
    || (name.Models? && r.pending)
    || (StageOf(r, name).phase.Running? && KeepaliveDue(r, at) && !final)
  }

  /** The stages a flush sends, of the first n in order. */
  function Due(r: Reporter, at: int, final: bool, n: nat): seq<Stage>
    requires n <= |r.order|
  {
    if n == 0 then []
    else
      var before := Due(r, at, final, n - 1);
      if IsDue(r, r.order[n - 1], at, final) then before + [StageOf(r, r.order[n - 1])] else before
  }

  function Flushed(r: Reporter, at: int, final: bool): Reporter {
    r.(pending := false, lastSent := if Due(r, at, final, |r.order|) == [] then r.lastSent else Some(at))
  }

  // -------------------------------------------------------------------------
  // The reporter and the tracker it reports to
  // -------------------------------------------------------------------------

  /** since: when the reporter last went from no running stage to one. */
  datatype World = World(r: Reporter, t: Tracker, lastTick: int, since: Option<int>)

  datatype Event =
    | CallStage(name: Name, phase: Phase, detail: string)
    | CallPull(figures: Figures)
    | Tick
    | Another(c: Control)             // a report from anybody else

  datatype Timed = Timed(at: int, e: Event)

  predicate AnyRuns(r: Reporter) {
    exists i :: 0 <= i < |r.order| && StageOf(r, r.order[i]).phase.Running?
  }

  function Delivered(t: Tracker, sent: seq<Stage>, at: int): Tracker {
    if sent == [] then t
    else Apply(Delivered(t, sent[..|sent| - 1], at), Sending(sent[|sent| - 1]), at).tracker
  }

  function Reacts(r: Reporter, e: Timed): Reporter {
    match e.e
    case CallStage(name, phase, detail) => StageCalled(r, name, phase, detail, e.at)
    case CallPull(figures) => PullCalled(r, figures)
    case Tick => Flushed(r, e.at, false)
    case Another(_) => r
  }

  function Hears(w: World, e: Timed): Tracker {
    match e.e
    case CallStage(name, phase, detail) => Apply(w.t, Sending(Called(w.r, name, phase, detail)), e.at).tracker
    case CallPull(_) => w.t
    case Tick => Delivered(w.t, Due(w.r, e.at, false, |w.r.order|), e.at)
    case Another(c) => Apply(w.t, c, e.at).tracker
  }

  function Step(w: World, e: Timed): World {
    var r := Reacts(w.r, e);
    World(r, Hears(w, e), if e.e.Tick? then e.at else w.lastTick,
          if !AnyRuns(r) then None else if AnyRuns(w.r) then w.since else Some(e.at))
  }

  function After(t: Tracker, start: int, h: seq<Timed>): World {
    if h == [] then World(QUIET, t, start, None) else Step(After(t, start, h[..|h| - 1]), h[|h| - 1])
  }

  function Latest(start: int, h: seq<Timed>): int {
    if h == [] then start else h[|h| - 1].at
  }

  predicate Known(e: Event) {
    e.CallStage? ==> !e.name.OtherName? && !e.phase.OtherPhase?
  }

  function LastTick(start: int, h: seq<Timed>): int {
    if h == [] then start else if h[|h| - 1].e.Tick? then h[|h| - 1].at else LastTick(start, h[..|h| - 1])
  }

  /** Time goes on, and no tick is more than two seconds after the last. */
  predicate Ticking(start: int, h: seq<Timed>)
    decreases |h|
  {
    h == [] ||
    var before, last := h[..|h| - 1], h[|h| - 1];
    && Ticking(start, before)
    && Latest(start, before) <= last.at <= LastTick(start, before) + 2_000_000_000
    && Known(last.e)
  }

  lemma {:induction false} TicksAreRemembered(t: Tracker, start: int, h: seq<Timed>)
    ensures After(t, start, h).lastTick == LastTick(start, h)
  {
    if h != [] { TicksAreRemembered(t, start, h[..|h| - 1]); }
  }

  // -------------------------------------------------------------------------
  // What every step keeps
  // -------------------------------------------------------------------------

  predicate ListOk(r: Reporter) {
    && (forall i :: 0 <= i < |r.order| ==> r.order[i] in r.stages)
    && (forall name :: name in r.stages ==> name in r.order && r.stages[name].name == name)
    && (forall name :: name in r.stages ==> !name.OtherName? && !r.stages[name].phase.OtherPhase?)
    && (r.pending ==> Models in r.stages)
  }

  predicate SentLately(w: World)
    requires w.since.Some?
  {
    w.r.lastSent.Some? && w.r.lastSent.value >= w.since.value && w.lastTick - w.r.lastSent.value < KEEPALIVE
  }

  /** The running stage was sent within the keepalive, or was started by a pull since the last tick. */
  predicate Fresh(w: World) {
    AnyRuns(w.r) ==> w.since.Some? && (SentLately(w) || (w.r.pending && w.since.value >= w.lastTick))
  }

  predicate Heard(w: World) {
    w.r.lastSent.Some? ==> w.t.report.updated >= w.r.lastSent.value
  }

  ghost predicate Ok(w: World, at: int) {
    && ListOk(w.r) && Fresh(w) && Heard(w)
    && w.lastTick <= at && (w.since.Some? ==> w.since.value <= at)
    && (w.r.lastSent.Some? ==> w.r.lastSent.value <= at)
  }

  lemma ListedKeepsList(r: Reporter, st: Stage)
    requires ListOk(r) && !st.name.OtherName? && !st.phase.OtherPhase?
    ensures ListOk(Listed(r, st)) && st.name in Listed(r, st).order
  {
    var r' := Listed(r, st);
    assert r'.order[|r'.order| - 1] == st.name || st.name in r.stages;
    forall name | name in r'.stages ensures name in r'.order {
      if name in r.stages { assert name in r.order; }
    }
  }

  /** A stage of a known name and phase is always accepted. */
  lemma StageIsHeard(t: Tracker, st: Stage, at: int)
    requires !st.name.OtherName? && !st.phase.OtherPhase?
    ensures Apply(t, Sending(st), at).tracker.report.updated == at
  {
  }

  lemma {:induction false} DueIsKnown(r: Reporter, at: int, n: nat)
    requires ListOk(r) && n <= |r.order|
    ensures forall st :: st in Due(r, at, false, n) ==> !st.name.OtherName? && !st.phase.OtherPhase?
  {
    if n > 0 {
      DueIsKnown(r, at, n - 1);
      assert r.order[n - 1] in r.stages;
    }
  }

  lemma {:induction false} DueGrows(r: Reporter, at: int, i: nat, n: nat)
    requires i < n <= |r.order| && IsDue(r, r.order[i], at, false)
    ensures Due(r, at, false, n) != []
  {
    if i < n - 1 { DueGrows(r, at, i, n - 1); }
  }

  lemma DeliveryIsHeard(t: Tracker, sent: seq<Stage>, at: int)
    requires sent != [] && forall st :: st in sent ==> !st.name.OtherName? && !st.phase.OtherPhase?
    ensures Delivered(t, sent, at).report.updated == at
  {
    StageIsHeard(Delivered(t, sent[..|sent| - 1], at), sent[|sent| - 1], at);
  }

  lemma AnotherIsLater(t: Tracker, c: Control, at: int)
    ensures var t' := Apply(t, c, at).tracker; t'.report.updated == at || t'.report.updated == t.report.updated
  {
  }

  lemma CallStageKeepsOk(w: World, name: Name, phase: Phase, detail: string, at: int, before: int)
    requires Ok(w, before) && before <= at && !name.OtherName? && !phase.OtherPhase?
    ensures Ok(Step(w, Timed(at, CallStage(name, phase, detail))), at)
  {
    var st := Called(w.r, name, phase, detail);
    ListedKeepsList(w.r, st);
    StageIsHeard(w.t, st, at);
  }

  lemma CallPullKeepsOk(w: World, figures: Figures, at: int, before: int)
    requires Ok(w, before) && before <= at
    ensures Ok(Step(w, Timed(at, CallPull(figures))), at)
  {
    ListedKeepsList(w.r, Stage(Models, Running, "", figures));
  }

  /** A tick sends whatever is unsent, and a running stage that is due its keepalive. */
  lemma TickSends(w: World, at: int)
    requires ListOk(w.r) && AnyRuns(w.r) && (w.r.pending || KeepaliveDue(w.r, at))
    ensures Due(w.r, at, false, |w.r.order|) != []
  {
    if w.r.pending {
      var i :| 0 <= i < |w.r.order| && w.r.order[i] == Models;
      DueGrows(w.r, at, i, |w.r.order|);
    } else {
      var i :| 0 <= i < |w.r.order| && StageOf(w.r, w.r.order[i]).phase.Running?;
      DueGrows(w.r, at, i, |w.r.order|);
    }
  }

  lemma TickKeepsOk(w: World, at: int, before: int)
    requires Ok(w, before) && before <= at
    ensures Ok(Step(w, Timed(at, Tick)), at)
  {
    var sent := Due(w.r, at, false, |w.r.order|);
    DueIsKnown(w.r, at, |w.r.order|);
    if sent != [] { DeliveryIsHeard(w.t, sent, at); }
    if AnyRuns(w.r) && (w.r.pending || KeepaliveDue(w.r, at)) { TickSends(w, at); }
    assert AnyRuns(Flushed(w.r, at, false)) == AnyRuns(w.r) by {
      assert forall name :: StageOf(Flushed(w.r, at, false), name) == StageOf(w.r, name);
    }
  }

  lemma StepKeepsOk(w: World, e: Timed, before: int)
    requires Ok(w, before) && before <= e.at && Known(e.e)
    ensures Ok(Step(w, e), e.at)
  {
    match e.e
    case CallStage(name, phase, detail) => CallStageKeepsOk(w, name, phase, detail, e.at, before);
    case CallPull(figures) => CallPullKeepsOk(w, figures, e.at, before);
    case Tick => TickKeepsOk(w, e.at, before);
    case Another(c) => AnotherIsLater(w.t, c, e.at);
  }

  lemma {:induction false} RunKeepsOk(t: Tracker, start: int, h: seq<Timed>)
    requires Ticking(start, h)
    ensures Ok(After(t, start, h), Latest(start, h))
  {
    if h != [] {
      RunKeepsOk(t, start, h[..|h| - 1]);
      StepKeepsOk(After(t, start, h[..|h| - 1]), h[|h| - 1], Latest(start, h[..|h| - 1]));
    }
  }

  predicate SentWithin(w: World, now: int, span: int) {
    w.r.lastSent.Some? && now - w.r.lastSent.value < span
  }

  predicate SentSince(w: World, since: int) {
    w.r.lastSent.Some? && w.r.lastSent.value >= since
  }

  /** While the reporter has had a running stage, no thirty-two seconds pass without a send; and once
      it has been sent, or two seconds on, the tracker never calls the setup stopped. */
  lemma NeverStoppedWhileRunning(t: Tracker, start: int, h: seq<Timed>, now: int)
    requires Ticking(start, h) && AnyRuns(After(t, start, h).r)
    requires Latest(start, h) <= now <= LastTick(start, h) + 2_000_000_000
    ensures var w := After(t, start, h);
            && w.since.Some?
            && (now - w.since.value < 32_000_000_000 || SentWithin(w, now, 32_000_000_000))
            && (SentSince(w, w.since.value) || now > w.since.value + 2_000_000_000 ==>
                  SentWithin(w, now, 32_000_000_000) && !StandingOf(w.t.report, now).IsStopped?)
  {
    RunKeepsOk(t, start, h);
    TicksAreRemembered(t, start, h);
  }

  lemma StartedStageRuns(t: Tracker, st: Stage, at: int)
    requires !st.name.OtherName? && st.phase.Running?
    ensures var r := Apply(t, Sending(st), at).tracker.report;
            r.updated == at && !r.finished && AnyPending(r.stages)
  {
    var r := Apply(t, Sending(st), at).tracker.report;
    var i := Find(t.report.stages, st.name);
    assert r.stages[i].phase.Running?;
  }

  /** And an installer that dies is found out: whatever came before the stage it had started, the tracker
      says running for two minutes after it last heard, and stopped from then on. */
  lemma DeadInstallerIsStopped(t: Tracker, start: int, h: seq<Timed>, name: Name, detail: string, at: int, now: int)
    requires !name.OtherName?
    ensures var w := After(t, start, h + [Timed(at, CallStage(name, Running, detail))]);
            StandingOf(w.t.report, now) == if now - at > 120_000_000_000 then IsStopped else IsRunning
  {
    var all := h + [Timed(at, CallStage(name, Running, detail))];
    var before := After(t, start, h);
    assert all[..|h|] == h;
    StartedStageRuns(before.t, Called(before.r, name, Running, detail), at);
  }

  // -------------------------------------------------------------------------
  // What is sent
  // -------------------------------------------------------------------------

  /** A stage is sent as it was said, with the figures recorded for it, except that a models stage that is
      done has done them all; that is what is recorded, and nothing is left for the tick. */
  lemma StageIsSentAsRecorded(r: Reporter, name: Name, phase: Phase, detail: string, at: int)
    ensures var st, r' := Called(r, name, phase, detail), StageCalled(r, name, phase, detail, at);
            var f := if name in r.stages then r.stages[name].figures else Figures("", 0, 0, 0, 0);
            && st == Stage(name, phase, detail, f.(done := if name.Models? && phase.Done? && f.of > 0 then f.of else f.done))
            && r' == Reporter(r.stages[name := st], if name in r.stages then r.order else r.order + [name], false, Some(at))
  {
  }

  /** A download's figures are recorded on a running models stage, and left for the tick. */
  lemma PullIsRecorded(r: Reporter, figures: Figures)
    ensures PullCalled(r, figures) ==
            Reporter(r.stages[Models := Stage(Models, Running, "", figures)],
                     if Models in r.stages then r.order else r.order + [Models], true, r.lastSent)
  {
  }

  /** Which stages a flush sends: the models stage when its figures are unsent, and unless it is the last
      flush every running stage once nothing was sent for thirty seconds. */
  ghost predicate ToSend(r: Reporter, name: Name, at: int, final: bool) {
    && name in r.stages
    && ((name == Models && r.pending)
        || (r.stages[name].phase.Running? && !final && (r.lastSent.None? || at - r.lastSent.value >= 30_000_000_000)))
  }

  lemma {:induction false} DueExactly(r: Reporter, at: int, final: bool, n: nat)
    requires ListOk(r) && n <= |r.order|
    ensures forall st :: st in Due(r, at, final, n) <==>
              exists i :: 0 <= i < n && ToSend(r, r.order[i], at, final) && st == r.stages[r.order[i]]
  {
    if n > 0 {
      DueExactly(r, at, final, n - 1);
      assert r.order[n - 1] in r.stages;
      assert IsDue(r, r.order[n - 1], at, final) <==> ToSend(r, r.order[n - 1], at, final);
    }
  }

  lemma {:induction false} DueInOrder(r: Reporter, at: int, final: bool, n: nat, a: nat, b: nat) returns (i: nat, j: nat)
    requires ListOk(r) && n <= |r.order| && a < b < |Due(r, at, final, n)|
    ensures i < j < n && Due(r, at, final, n)[a].name == r.order[i] && Due(r, at, final, n)[b].name == r.order[j]
  {
    assert r.order[n - 1] in r.stages;
    if b < |Due(r, at, final, n - 1)| {
      i, j := DueInOrder(r, at, final, n - 1, a, b);
    } else {
      DueExactly(r, at, final, n - 1);
      assert Due(r, at, final, n - 1)[a] in Due(r, at, final, n - 1);
      i :| 0 <= i < n - 1 && ToSend(r, r.order[i], at, final) && Due(r, at, final, n - 1)[a] == r.stages[r.order[i]];
      j := n - 1;
    }
  }

  /** A flush sends exactly those stages, in the order they were first reported, and then has nothing
      unsent; it counts as a send only if it sent something. */
  lemma FlushSendsExactly(r: Reporter, at: int, final: bool)
    requires ListOk(r)
    ensures var sent, r' := Due(r, at, final, |r.order|), Flushed(r, at, final);
            && (forall st :: st in sent <==> exists name :: name in r.order && ToSend(r, name, at, final) && st == r.stages[name])
            && (forall a, b :: 0 <= a < b < |sent| ==>
                  exists i, j :: 0 <= i < j < |r.order| && sent[a].name == r.order[i] && sent[b].name == r.order[j])
            && r' == Reporter(r.stages, r.order, false, if sent == [] then r.lastSent else Some(at))
  {
    var sent := Due(r, at, final, |r.order|);
    DueExactly(r, at, final, |r.order|);
    forall a, b | 0 <= a < b < |sent|
      ensures exists i, j :: 0 <= i < j < |r.order| && sent[a].name == r.order[i] && sent[b].name == r.order[j]
    {
      var i, j := DueInOrder(r, at, final, |r.order|, a, b);
    }
  }

  // -------------------------------------------------------------------------
  // The reporter, which keeps its stages in place
  // -------------------------------------------------------------------------

  class LiveReporter {
    var stages: map<Name, Stage>
    var order: seq<Name>
    var pending: bool
    var lastSent: Option<int>

    function Now(): Reporter
      reads this
    {
      Reporter(stages, order, pending, lastSent)
    }

    constructor ()
      ensures Now() == QUIET
    {
      stages, order, pending, lastSent := map[], [], false, None;
    }

    method CallStage(name: Name, phase: Phase, detail: string, at: int) returns (sent: Stage)
      modifies this
      ensures Now() == StageCalled(old(Now()), name, phase, detail, at)
      ensures sent == Called(old(Now()), name, phase, detail)
    {
      var f := NO_FIGURES;
      if name in stages {
        f := stages[name].figures;
      } else {
        order := order + [name];
      }
      if name.Models? && phase.Done? && f.of > 0 {
        f := f.(done := f.of);
      }
      sent := Stage(name, phase, detail, f);
      stages := stages[name := sent];
      pending := false;
      lastSent := Some(at);
    }

    method CallPull(figures: Figures)
      modifies this
      ensures Now() == PullCalled(old(Now()), figures)
    {
      if Models !in stages {
        order := order + [Models];
      }
      stages := stages[Models := Stage(Models, Running, "", figures)];
      pending := true;
    }

    /** flush: what is unsent, and every running stage once the keepalive is due. */
    method Flush(at: int, final: bool) returns (sent: seq<Stage>)
      requires forall i :: 0 <= i < |order| ==> order[i] in stages
      modifies this
      ensures Now() == Flushed(old(Now()), at, final)
      ensures sent == Due(old(Now()), at, final, |old(order)|)
    {
      sent := [];
      var keepalive := lastSent.None? || at - lastSent.value >= KEEPALIVE;
      var i := 0;
      while i < |order|
        invariant 0 <= i <= |order| && Now() == old(Now())
        invariant sent == Due(Now(), at, final, i)
      {
        var st := stages[order[i]];
        if order[i].Models? && pending {
          sent := sent + [st];
        } else if st.phase.Running? && keepalive && !final {
          sent := sent + [st];
        }
        i := i + 1;
      }
      pending := false;
      if sent != [] {
        lastSent := Some(at);
      }
    }
  }
}
