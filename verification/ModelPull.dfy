/** Cluster-driven model pulls: the receive goroutine admits, refuses, cancels and stops pulls while
    each admitted pull runs on a goroutine of its own. Every critical section and every frame sent
    is one atomic step, and the steps interleave freely. */
module ModelPull {
  import opened Basics

  /** What a pull did, in order. Judged records how many aborts had reached it when its failure was read. */
  datatype Act =
    | PullFailed(text: string) | Judged(aborts: nat)
    | Pulled | AllowFailed(text: string) | Allowed | ReloadFailed(text: string) | Reloaded
    | Ended(ok: bool) | LetGo | Asked

  /** Where run stands. */
  datatype Stage =
    | Pulling
    | Failed(error: string)            // Pull returned an error, the abort reason is not read yet
    | Allowing
    | Reloading
    | Ending(ok: bool, text: string)   // the End is decided and not sent
    | Sent(ok: bool, text: string)
    | Freed(ok: bool, text: string)    // released
    | Over(ok: bool, text: string)

  /** cancelled: an abort has cancelled the pull's context. */
  datatype Pull = Pull(id: string, stage: Stage, reason: string, cancelled: bool, aborts: seq<string>, trace: seq<Act>)

  /** A ModelPullEnd, and the admitted pull it is from. */
  datatype End = End(id: string, ok: bool, text: string, pull: Option<nat>)

  /** What the receive goroutine is in the middle of. */
  datatype Recv =
    | Idle
    | Refusing(id: string, text: string)
    | Aborting(ids: seq<string>, reason: string)
    | Applying(target: nat, ids: seq<string>, reason: string)

  datatype State = State(live: map<string, nat>, pulls: seq<Pull>, recv: Recv, starts: multiset<string>, ends: seq<End>)

  datatype Event =
    | Start(id: string, model: string, supported: bool, allowed: bool)
    | Cancel(id: string, reason: string)
    | StopAll(ids: seq<string>, reason: string)
    | SendRefusal
    | LookUp
    | Apply
    | PullReturns(i: nat, error: Option<string>)
    | ReadReason(i: nat)
    | AllowReturns(i: nat, error: Option<string>)
    | ReloadReturns(i: nat, error: Option<string>)
    | SendEnd(i: nat)
    | Release(i: nat)
    | Ask(i: nat)

  const EMPTY := State(map[], [], Idle, multiset{}, [])

  // -------------------------------------------------------------------------
  // The receive goroutine
  // -------------------------------------------------------------------------

  const UNSUPPORTED := "this worker runs without local-model support"
  const NO_MODEL := "no model was named, so there is nothing to pull"
  const NOT_ALLOWED := "this machine will not pull a model: models.pull is false"

  /** Start: refuse in a sentence, or register the pull before anything slow. */
  function Admit(s: State, id: string, model: string, supported: bool, allowed: bool): State {
    if id == "" then s
    else
      var s := s.(starts := s.starts + multiset{id});
      if !supported then s.(recv := Refusing(id, UNSUPPORTED))
      else if Trim(model) == "" then s.(recv := Refusing(id, NO_MODEL))
      else if !allowed then s.(recv := Refusing(id, NOT_ALLOWED))
      else if id in s.live then s.(recv := Refusing(id, "a pull with request id " + id + " is already running on this worker"))
      else s.(live := s.live[id := |s.pulls|], pulls := s.pulls + [Pull(id, Pulling, "", false, [], [])])
  }

  function CancelReason(reason: string): string {
    "the cluster cancelled this pull: " + if Trim(reason) == "" then "no reason was given" else Trim(reason)
  }

  /** abort, its first critical section: find the pull. */
  function Found(s: State): State {
    match s.recv
    case Aborting(ids, reason) =>
      if ids == [] then s.(recv := Idle)
      else
        var rest := ids[..|ids| - 1];
        var id := ids[|ids| - 1];
        s.(recv := if id in s.live then Applying(s.live[id], rest, reason) else Aborting(rest, reason))
    case _ => s
  }

  function Aborted(p: Pull, reason: string): Pull {
    p.(reason := if p.reason == "" then reason else p.reason, cancelled := true, aborts := p.aborts + [reason])
  }

  /** abort, its second critical section: the first reason stays. */
  function Applied(s: State): State {
    match s.recv
    case Applying(target, ids, reason) =>
      if target < |s.pulls| then
        s.(pulls := s.pulls[target := Aborted(s.pulls[target], reason)], recv := Aborting(ids, reason))
      else s
    case _ => s
  }

  function Receive(s: State, e: Event): State {
    match e
    case Start(id, model, supported, allowed) => if s.recv.Idle? then Admit(s, id, model, supported, allowed) else s
    case Cancel(id, reason) => if s.recv.Idle? then s.(recv := Aborting([id], CancelReason(reason))) else s
    case StopAll(ids, reason) =>
      if s.recv.Idle? && (set id | id in ids) == s.live.Keys then
        s.(recv := Aborting(ids, "this pull was stopped: " + reason))
      else s
    case SendRefusal =>
      if s.recv.Refusing? then s.(recv := Idle, ends := s.ends + [End(s.recv.id, false, s.recv.text, None)]) else s
    case LookUp => Found(s)
    case Apply => Applied(s)
    case _ => s
  }

  // -------------------------------------------------------------------------
  // One pull's goroutine
  // -------------------------------------------------------------------------

  function Then(p: Pull, stage: Stage, act: Act): Pull {
    p.(stage := stage, trace := p.trace + [act])
  }

  const PULLED_AND := "the model was pulled and "
  const NOT_RELOADED := "the model was pulled and allowed, and the running worker could not reload that file: "

  /** The steps of run that do the work and decide the End. */
  function Work(p: Pull, e: Event): Pull {
    match e
    case PullReturns(_, error) =>
      if !p.stage.Pulling? then p
      else if error.Some? then Then(p, Failed(error.value), PullFailed(error.value))
      else Then(p, Allowing, Pulled)
    case ReadReason(_) =>
      if p.stage.Failed? then
        Then(p, Ending(false, if p.reason == "" then p.stage.error else p.reason), Judged(|p.aborts|))
      else p
    case AllowReturns(_, error) =>
      if !p.stage.Allowing? then p
      else if error.Some? then Then(p, Ending(false, PULLED_AND + error.value), AllowFailed(error.value))
      else Then(p, Reloading, Allowed)
    case ReloadReturns(_, error) =>
      if !p.stage.Reloading? then p
      else if error.Some? then Then(p, Ending(false, NOT_RELOADED + error.value), ReloadFailed(error.value))
      else Then(p, Ending(true, ""), Reloaded)
    case _ => p
  }

  /** The steps of run that report and let go. */
  function Finish(p: Pull, e: Event): Pull {
    match e
    case SendEnd(_) => if p.stage.Ending? then Then(p, Sent(p.stage.ok, p.stage.text), Ended(p.stage.ok)) else p
    case Release(_) =>
      if !p.stage.Sent? then p
      else if p.stage.ok then Then(p, Freed(true, p.stage.text), LetGo)
      else Then(p, Over(false, p.stage.text), LetGo)
    case Ask(_) => if p.stage.Freed? then Then(p, Over(p.stage.ok, p.stage.text), Asked) else p
    case _ => p
  }

  predicate OnReceive(e: Event) {
    e.Start? || e.Cancel? || e.StopAll? || e.SendRefusal? || e.LookUp? || e.Apply?
  }

  predicate Finishes(e: Event) {
    e.SendEnd? || e.Release? || e.Ask?
  }

  function Advance(s: State, e: Event): State
    requires !OnReceive(e) && e.i < |s.pulls|
  {
    var p := s.pulls[e.i];
    if Finishes(e) then
      s.(pulls := s.pulls[e.i := Finish(p, e)],
         ends := if e.SendEnd? && p.stage.Ending? then s.ends + [End(p.id, p.stage.ok, p.stage.text, Some(e.i))] else s.ends,
         live := if e.Release? && p.stage.Sent? then s.live - {p.id} else s.live)
    else s.(pulls := s.pulls[e.i := Work(p, e)])
  }

  function Step(s: State, e: Event): State {
    if OnReceive(e) then Receive(s, e)
    else if e.i < |s.pulls| then Advance(s, e)
    else s
  }

  function After(s: State, events: seq<Event>): State {
    if events == [] then s else Step(After(s, events[..|events| - 1]), events[|events| - 1])
  }

  // -------------------------------------------------------------------------
  // What one pull keeps
  // -------------------------------------------------------------------------

  predicate Owes(stage: Stage) {
    stage.Pulling? || stage.Failed? || stage.Allowing? || stage.Reloading? || stage.Ending?
  }

  predicate Holds(stage: Stage) {
    Owes(stage) || stage.Sent?
  }

  /** The text a failed pull reports: the first abort that reached it before its failure was read,
      or the runtime's own words. */
  predicate Explains(t: seq<Act>, text: string, aborts: seq<string>) {
    && |t| >= 2 && t[0].PullFailed? && t[1].Judged? && t[1].aborts <= |aborts|
    && text == if t[1].aborts > 0 then aborts[0] else t[0].text
  }

  /** How many of a trace's acts are the work: the rest report it. */
  function WorkLength(t: seq<Act>): nat {
    if |t| >= 1 && t[0].PullFailed? then 2
    else if |t| >= 2 && t[1].AllowFailed? then 2
    else 3
  }

  predicate Worked(t: seq<Act>, ok: bool, text: string, aborts: seq<string>) {
    if ok then |t| >= 3 && t[0] == Pulled && t[1] == Allowed && t[2] == Reloaded && text == ""
    else
      || Explains(t, text, aborts)
      || (|t| >= 2 && t[0] == Pulled && t[1].AllowFailed? && text == PULLED_AND + t[1].text)
      || (|t| >= 3 && t[0] == Pulled && t[1] == Allowed && t[2].ReloadFailed? && text == NOT_RELOADED + t[2].text)
  }

  predicate Reported(t: seq<Act>, n: nat, ok: bool, more: nat) {
    && |t| == n + 1 + more && t[n] == Ended(ok)
    && (more >= 1 ==> t[n + 1] == LetGo)
    && (more >= 2 ==> t[n + 2] == Asked)
  }

  /** A pull's trace is what its stage says it did. */
  predicate Traced(p: Pull) {
    var t := p.trace;
    match p.stage
    case Pulling => t == []
    case Failed(error) => t == [PullFailed(error)]
    case Allowing => t == [Pulled]
    case Reloading => t == [Pulled, Allowed]
    case Ending(ok, text) => Worked(t, ok, text, p.aborts) && |t| == WorkLength(t)
    case Sent(ok, text) => Worked(t, ok, text, p.aborts) && Reported(t, WorkLength(t), ok, 0)
    case Freed(ok, text) => ok && Worked(t, ok, text, p.aborts) && Reported(t, 3, ok, 1)
    case Over(ok, text) => Worked(t, ok, text, p.aborts) && Reported(t, WorkLength(t), ok, if ok then 2 else 1)
  }

  /** The first abort's reason is the one kept, and an aborted pull is a cancelled one. */
  predicate KeepsFirst(p: Pull) {
    && p.cancelled == (p.aborts != [])
    && (forall k :: 0 <= k < |p.aborts| ==> p.aborts[k] != "")
    && p.reason == if p.aborts == [] then "" else p.aborts[0]
  }

  predicate PullOk(p: Pull) {
    Traced(p) && KeepsFirst(p)
  }

  /** q is the same pull as p, and stands by an End p has sent. */
  predicate Continues(p: Pull, q: Pull) {
    && q.id == p.id
    && (!Owes(p.stage) ==> !Owes(q.stage) && q.stage.ok == p.stage.ok && q.stage.text == p.stage.text)
  }

  lemma WorkKeepsPullOk(p: Pull, e: Event)
    requires PullOk(p)
    ensures PullOk(Work(p, e)) && Continues(p, Work(p, e))
    ensures Owes(Work(p, e).stage) == Owes(p.stage) && Holds(Work(p, e).stage) == Holds(p.stage)
  {
  }

  lemma FinishKeepsTrace(p: Pull, e: Event)
    requires Traced(p)
    ensures Traced(Finish(p, e))
  {
  }

  lemma FinishKeepsPullOk(p: Pull, e: Event)
    requires PullOk(p)
    ensures PullOk(Finish(p, e)) && Continues(p, Finish(p, e))
    ensures Holds(Finish(p, e).stage) <==> Holds(p.stage) && !(e.Release? && p.stage.Sent?)
    ensures Owes(Finish(p, e).stage) <==> Owes(p.stage) && !(e.SendEnd? && p.stage.Ending?)
  {
    FinishKeepsTrace(p, e);
  }

  lemma AbortKeepsPullOk(p: Pull, reason: string)
    requires PullOk(p) && reason != ""
    ensures PullOk(Aborted(p, reason)) && Aborted(p, reason).stage == p.stage && Aborted(p, reason).id == p.id
  {
    var q := Aborted(p, reason);
    assert p.aborts != [] ==> q.aborts[0] == p.aborts[0];
    assert forall text :: Explains(p.trace, text, p.aborts) ==> Explains(q.trace, text, q.aborts);
  }

  // -------------------------------------------------------------------------
  // What every step keeps
  // -------------------------------------------------------------------------

  /** A pull is live from its admission until it is released. */
  ghost predicate LiveOk(live: map<string, nat>, pulls: seq<Pull>) {
    && (forall id :: id in live ==> live[id] < |pulls| && pulls[live[id]].id == id && Holds(pulls[live[id]].stage))
    && (forall i :: 0 <= i < |pulls| && Holds(pulls[i].stage) ==> pulls[i].id in live && live[pulls[i].id] == i)
  }

  predicate Says(p: Pull, e: End) {
    && p.id == e.id
    && !Owes(p.stage) && p.stage.ok == e.ok && p.stage.text == e.text
  }

  predicate EndOk(e: End, pulls: seq<Pull>) {
    match e.pull
    case None => !e.ok
    case Some(i) => i < |pulls| && Says(pulls[i], e)
  }

  predicate RecvOk(recv: Recv, n: nat) {
    && (recv.Aborting? ==> recv.reason != "")
    && (recv.Applying? ==> recv.reason != "" && recv.target < n)
  }

  ghost predicate Ok(s: State) {
    && (forall i :: 0 <= i < |s.pulls| ==> PullOk(s.pulls[i]))
    && LiveOk(s.live, s.pulls)
    && (forall k :: 0 <= k < |s.ends| ==> EndOk(s.ends[k], s.pulls))
    && RecvOk(s.recv, |s.pulls|)
  }

  lemma EndsContinue(ends: seq<End>, pulls: seq<Pull>, i: nat, q: Pull)
    requires i < |pulls| && Continues(pulls[i], q) && forall k :: 0 <= k < |ends| ==> EndOk(ends[k], pulls)
    ensures forall k :: 0 <= k < |ends| ==> EndOk(ends[k], pulls[i := q])
  {
    forall k | 0 <= k < |ends| ensures EndOk(ends[k], pulls[i := q]) {
      assert EndOk(ends[k], pulls);
    }
  }

  lemma LiveContinues(live: map<string, nat>, pulls: seq<Pull>, i: nat, q: Pull)
    requires i < |pulls| && LiveOk(live, pulls) && q.id == pulls[i].id && Holds(q.stage) == Holds(pulls[i].stage)
    ensures LiveOk(live, pulls[i := q])
  {
  }

  lemma LiveReleases(live: map<string, nat>, pulls: seq<Pull>, i: nat, q: Pull)
    requires i < |pulls| && LiveOk(live, pulls) && q.id == pulls[i].id && Holds(pulls[i].stage) && !Holds(q.stage)
    ensures LiveOk(live - {q.id}, pulls[i := q])
  {
  }

  lemma AdmitKeepsOk(s: State, id: string, model: string, supported: bool, allowed: bool)
    requires Ok(s) && s.recv.Idle?
    ensures Ok(Admit(s, id, model, supported, allowed))
  {
    var s' := Admit(s, id, model, supported, allowed);
    if |s'.pulls| > |s.pulls| {
      assert PullOk(Pull(id, Pulling, "", false, [], []));
      forall k | 0 <= k < |s'.ends| ensures EndOk(s'.ends[k], s'.pulls) {
        assert EndOk(s.ends[k], s.pulls);
      }
    }
  }

  lemma AppliedKeepsOk(s: State)
    requires Ok(s)
    ensures Ok(Applied(s))
  {
    if s.recv.Applying? {
      var p, q := s.pulls[s.recv.target], Aborted(s.pulls[s.recv.target], s.recv.reason);
      AbortKeepsPullOk(p, s.recv.reason);
      EndsContinue(s.ends, s.pulls, s.recv.target, q);
      LiveContinues(s.live, s.pulls, s.recv.target, q);
    }
  }

  lemma ReceiveKeepsOk(s: State, e: Event)
    requires Ok(s) && OnReceive(e)
    ensures Ok(Receive(s, e))
  {
    match e
    case Start(id, model, supported, allowed) => if s.recv.Idle? { AdmitKeepsOk(s, id, model, supported, allowed); }
    case Apply => AppliedKeepsOk(s);
    case _ =>
  }

  lemma WorkKeepsOk(s: State, e: Event)
    requires Ok(s) && !OnReceive(e) && !Finishes(e) && e.i < |s.pulls|
    ensures Ok(Advance(s, e))
  {
    var q := Work(s.pulls[e.i], e);
    WorkKeepsPullOk(s.pulls[e.i], e);
    EndsContinue(s.ends, s.pulls, e.i, q);
    LiveContinues(s.live, s.pulls, e.i, q);
  }

  lemma FinishKeepsOk(s: State, e: Event)
    requires Ok(s) && Finishes(e) && e.i < |s.pulls|
    ensures Ok(Advance(s, e))
  {
    var q := Finish(s.pulls[e.i], e);
    FinishKeepsPullOk(s.pulls[e.i], e);
    EndsContinue(s.ends, s.pulls, e.i, q);
    if e.Release? && s.pulls[e.i].stage.Sent? {
      LiveReleases(s.live, s.pulls, e.i, q);
    } else {
      LiveContinues(s.live, s.pulls, e.i, q);
    }
  }

  lemma StepKeepsOk(s: State, e: Event)
    requires Ok(s)
    ensures Ok(Step(s, e))
  {
    if OnReceive(e) {
      ReceiveKeepsOk(s, e);
    } else if e.i < |s.pulls| {
      if Finishes(e) { FinishKeepsOk(s, e); } else { WorkKeepsOk(s, e); }
    }
  }

  lemma {:induction false} RunKeepsOk(s: State, events: seq<Event>)
    requires Ok(s)
    ensures Ok(After(s, events))
  {
    if events != [] {
      RunKeepsOk(s, events[..|events| - 1]);
      StepKeepsOk(After(s, events[..|events| - 1]), events[|events| - 1]);
    }
  }

  /** A start is admitted exactly when it names a request that is not live and a model, on a build that
      pulls and a policy that allows it; any other that names a request is about to be refused. */
  lemma AdmittedExactlyWhen(s: State, id: string, model: string, supported: bool, allowed: bool)
    requires Ok(s) && s.recv.Idle? && id != ""
    ensures var s' := Step(s, Start(id, model, supported, allowed));
            && s'.starts == s.starts + multiset{id}
            && (|s'.pulls| > |s.pulls| <==> supported && Trim(model) != "" && allowed && id !in s.live)
            && (|s'.pulls| > |s.pulls| ==> s'.pulls == s.pulls + [Pull(id, Pulling, "", false, [], [])] && s'.live == s.live[id := |s.pulls|])
            && (|s'.pulls| == |s.pulls| ==> s'.recv.Refusing? && s'.recv.id == id && s'.live == s.live)
  {
  }

  // -------------------------------------------------------------------------
  // Every start has one End, sent or still owed
  // -------------------------------------------------------------------------

  function OwedFor(p: Pull, id: string): nat {
    if Owes(p.stage) && p.id == id then 1 else 0
  }

  function Owed(pulls: seq<Pull>, id: string): nat {
    if pulls == [] then 0 else Owed(pulls[..|pulls| - 1], id) + OwedFor(pulls[|pulls| - 1], id)
  }

  function OwedRefusal(recv: Recv, id: string): nat {
    if recv.Refusing? && recv.id == id then 1 else 0
  }

  function Answered(ends: seq<End>, id: string): nat {
    if ends == [] then 0 else Answered(ends[..|ends| - 1], id) + if ends[|ends| - 1].id == id then 1 else 0
  }

  ghost predicate Balanced(s: State, id: string) {
    s.starts[id] == Answered(s.ends, id) + Owed(s.pulls, id) + OwedRefusal(s.recv, id)
  }

  lemma {:induction false} OwedUpdate(pulls: seq<Pull>, i: nat, q: Pull, id: string)
    requires i < |pulls|
    ensures Owed(pulls[i := q], id) + OwedFor(pulls[i], id) == Owed(pulls, id) + OwedFor(q, id)
  {
    var before, after := pulls[..|pulls| - 1], pulls[i := q];
    if i < |pulls| - 1 {
      assert after[..|after| - 1] == before[i := q];
      OwedUpdate(before, i, q, id);
    } else {
      assert after[..|after| - 1] == before;
    }
  }

  lemma AnsweredMore(ends: seq<End>, e: End, id: string)
    ensures Answered(ends + [e], id) == Answered(ends, id) + if e.id == id then 1 else 0
  {
    assert (ends + [e])[..|ends|] == ends;
  }

  lemma OwedMore(pulls: seq<Pull>, p: Pull, id: string)
    ensures Owed(pulls + [p], id) == Owed(pulls, id) + OwedFor(p, id)
  {
    assert (pulls + [p])[..|pulls|] == pulls;
  }

  lemma AdmitKeepsBalance(s: State, start: string, model: string, supported: bool, allowed: bool, id: string)
    requires s.recv.Idle? && Balanced(s, id)
    ensures Balanced(Admit(s, start, model, supported, allowed), id)
  {
    OwedMore(s.pulls, Pull(start, Pulling, "", false, [], []), id);
  }

  lemma ReceiveKeepsBalance(s: State, e: Event, id: string)
    requires Ok(s) && Balanced(s, id) && OnReceive(e)
    ensures Balanced(Receive(s, e), id)
  {
    match e
    case Start(start, model, supported, allowed) =>
      if s.recv.Idle? { AdmitKeepsBalance(s, start, model, supported, allowed, id); }
    case SendRefusal =>
      if s.recv.Refusing? { AnsweredMore(s.ends, End(s.recv.id, false, s.recv.text, None), id); }
    case Apply =>
      if s.recv.Applying? { OwedUpdate(s.pulls, s.recv.target, Aborted(s.pulls[s.recv.target], s.recv.reason), id); }
    case _ =>
  }

  lemma AdvanceKeepsBalance(s: State, e: Event, id: string)
    requires Ok(s) && Balanced(s, id) && !OnReceive(e) && e.i < |s.pulls|
    ensures Balanced(Advance(s, e), id)
  {
    var p := s.pulls[e.i];
    if Finishes(e) {
      FinishKeepsPullOk(p, e);
      OwedUpdate(s.pulls, e.i, Finish(p, e), id);
      if e.SendEnd? && p.stage.Ending? { AnsweredMore(s.ends, End(p.id, p.stage.ok, p.stage.text, Some(e.i)), id); }
    } else {
      WorkKeepsPullOk(p, e);
      OwedUpdate(s.pulls, e.i, Work(p, e), id);
    }
  }

  /** Over every interleaving, the starts that named a request are the Ends sent for it and the Ends
      still owed: none is dropped and none is answered twice. */
  lemma {:induction false} EveryStartHasOneEnd(events: seq<Event>, id: string)
    ensures Ok(After(EMPTY, events)) && Balanced(After(EMPTY, events), id)
  {
    if events != [] {
      var before, e := After(EMPTY, events[..|events| - 1]), events[|events| - 1];
      EveryStartHasOneEnd(events[..|events| - 1], id);
      StepKeepsOk(before, e);
      if OnReceive(e) {
        ReceiveKeepsBalance(before, e, id);
      } else if e.i < |before.pulls| {
        AdvanceKeepsBalance(before, e, id);
      }
    }
  }

  predicate DidItAll(t: seq<Act>) {
    |t| >= 4 && t[0] == Pulled && t[1] == Allowed && t[2] == Reloaded && t[3] == Ended(true)
  }

  /** What the trace of a pull says about the End it sent. */
  ghost predicate Truthful(p: Pull, e: End) {
    && p.id == e.id
    && (e.ok <==> DidItAll(p.trace))
    && (e.ok ==> e.text == "")
    && (|p.trace| >= 1 && p.trace[0].PullFailed? ==> Explains(p.trace, e.text, p.aborts))
    && (|p.trace| >= 2 && p.trace[1].AllowFailed? ==> e.text == PULLED_AND + p.trace[1].text)
    && (|p.trace| >= 3 && p.trace[2].ReloadFailed? ==> e.text == NOT_RELOADED + p.trace[2].text)
  }

  lemma SentIsTruthful(p: Pull, e: End)
    requires Traced(p) && Says(p, e)
    ensures Truthful(p, e)
  {
  }

  /** ok=true is said by exactly the pulls that pulled, allowed and reloaded, in that order, and a
      pull that failed reports the first abort that reached it before the failure was read. */
  lemma EndsTellTheTruth(events: seq<Event>, k: nat)
    requires k < |After(EMPTY, events).ends|
    ensures var s := After(EMPTY, events);
            match s.ends[k].pull
            case None => !s.ends[k].ok
            case Some(i) => i < |s.pulls| && Truthful(s.pulls[i], s.ends[k])
  {
    EveryStartHasOneEnd(events, "");
    var s := After(EMPTY, events);
    assert EndOk(s.ends[k], s.pulls);
    if s.ends[k].pull.Some? {
      assert PullOk(s.pulls[s.ends[k].pull.value]);
      SentIsTruthful(s.pulls[s.ends[k].pull.value], s.ends[k]);
    }
  }

  lemma AskedLast(p: Pull, n: nat)
    requires Traced(p) && n < |p.trace| && p.trace[n] == Asked
    ensures DidItAll(p.trace) && n == 5 && |p.trace| == 6 && p.trace[4] == LetGo && p.stage.Over?
  {
  }

  /** A pull is live until it lets go, which is after its End, so a cancel behind its start finds it;
      and it asks for the re-advertisement last of all, after a good End. */
  lemma LiveUntilTheEnd(events: seq<Event>, i: nat)
    requires i < |After(EMPTY, events).pulls|
    ensures var s := After(EMPTY, events);
            var p := s.pulls[i];
            && (Holds(p.stage) <==> p.id in s.live && s.live[p.id] == i)
            && (forall n :: 0 <= n < |p.trace| && p.trace[n] == Asked ==>
                  DidItAll(p.trace) && n == 5 && |p.trace| == 6 && p.trace[4] == LetGo && !Holds(p.stage))
  {
    EveryStartHasOneEnd(events, "");
    var p := After(EMPTY, events).pulls[i];
    assert PullOk(p);
    forall n | 0 <= n < |p.trace| && p.trace[n] == Asked
      ensures DidItAll(p.trace) && n == 5 && |p.trace| == 6 && p.trace[4] == LetGo && !Holds(p.stage)
    {
      AskedLast(p, n);
    }
  }

  // -------------------------------------------------------------------------
  // The puller, which keeps its live map in place
  // -------------------------------------------------------------------------

  class Puller {
    var live: map<string, nat>
    var pulls: seq<Pull>
    var recv: Recv
    var starts: multiset<string>
    var ends: seq<End>

    function Now(): State
      reads this
    {
      State(live, pulls, recv, starts, ends)
    }

    constructor ()
      ensures Now() == EMPTY
    {
      live, pulls, recv, starts, ends := map[], [], Idle, multiset{}, [];
    }

    /** Start, up to the refusal it sends or the goroutine it spawns. */
    method StartPull(id: string, model: string, supported: bool, allowed: bool)
      requires recv.Idle?
      modifies this
      ensures Now() == Step(old(Now()), Start(id, model, supported, allowed))
    {
      if id == "" {
        return;
      }
      starts := starts + multiset{id};
      if !supported {
        recv := Refusing(id, UNSUPPORTED);
        return;
      }
      if Trim(model) == "" {
        recv := Refusing(id, NO_MODEL);
        return;
      }
      if !allowed {
        recv := Refusing(id, NOT_ALLOWED);
        return;
      }
      if id in live {
        recv := Refusing(id, "a pull with request id " + id + " is already running on this worker");
        return;
      }
      live := live[id := |pulls|];
      pulls := pulls + [Pull(id, Pulling, "", false, [], [])];
    }

    /** abort, its second critical section. */
    method Abort(target: nat, reason: string)
      requires target < |pulls|
      modifies this
      ensures Now() == old(Now()).(pulls := old(pulls)[target := Aborted(old(pulls)[target], reason)])
    {
      var p := pulls[target];
      if p.reason == "" {
        p := p.(reason := reason);
      }
      pulls := pulls[target := p.(cancelled := true, aborts := p.aborts + [reason])];
    }

    /** StopAll, left to itself: every live pull is aborted, once, and no other is touched. */
    method StopEvery(reason: string)
      requires forall id :: id in live ==> live[id] < |pulls| && pulls[live[id]].id == id
      modifies `pulls
      ensures |pulls| == |old(pulls)|
      ensures forall i :: 0 <= i < |pulls| ==>
                pulls[i] == if old(pulls)[i].id in live && live[old(pulls)[i].id] == i
                            then Aborted(old(pulls)[i], "this pull was stopped: " + reason) else old(pulls)[i]
    {
      var ids := live.Keys;
      while ids != {}
        invariant ids <= live.Keys && |pulls| == |old(pulls)|
        invariant forall id :: id in live ==> live[id] < |pulls| && old(pulls)[live[id]].id == id
        invariant forall i :: 0 <= i < |pulls| ==>
                    pulls[i] == if old(pulls)[i].id in live.Keys - ids && live[old(pulls)[i].id] == i
                                then Aborted(old(pulls)[i], "this pull was stopped: " + reason) else old(pulls)[i]
        decreases |ids|
      {
        var id :| id in ids;
        pulls := pulls[live[id] := Aborted(pulls[live[id]], "this pull was stopped: " + reason)];
        ids := ids - {id};
      }
    }

    /** end. */
    method SendPullEnd(i: nat)
      requires i < |pulls| && pulls[i].stage.Ending?
      modifies this
      ensures Now() == Step(old(Now()), SendEnd(i))
    {
      var p := pulls[i];
      ends := ends + [End(p.id, p.stage.ok, p.stage.text, Some(i))];
      pulls := pulls[i := Then(p, Sent(p.stage.ok, p.stage.text), Ended(p.stage.ok))];
    }

    /** release. */
    method ReleasePull(i: nat)
      requires i < |pulls| && pulls[i].stage.Sent?
      modifies this
      ensures Now() == Step(old(Now()), Release(i))
    {
      var p := pulls[i];
      live := live - {p.id};
      if p.stage.ok {
        pulls := pulls[i := Then(p, Freed(true, p.stage.text), LetGo)];
      } else {
        pulls := pulls[i := Then(p, Over(false, p.stage.text), LetGo)];
      }
    }

    /** run, until its End is decided: pull, then allow, then reload, stopping at what fails. */
    method DoWork(i: nat, pullError: Option<string>, allowError: Option<string>, reloadError: Option<string>)
      requires i < |pulls| && pulls[i].stage.Pulling?
      modifies `pulls
      ensures |pulls| == |old(pulls)| && pulls[i].stage.Ending? && pulls[i].id == old(pulls)[i].id
      ensures pulls[i].stage.ok <==> pullError.None? && allowError.None? && reloadError.None?
      ensures pullError.Some? && old(pulls)[i].reason != "" ==> pulls[i].stage.text == old(pulls)[i].reason
      ensures forall k :: 0 <= k < |pulls| && k != i ==> pulls[k] == old(pulls)[k]
    {
      var p := Work(pulls[i], PullReturns(i, pullError));
      if pullError.Some? {
        pulls := pulls[i := Work(p, ReadReason(i))];
        return;
      }
      p := Work(p, AllowReturns(i, allowError));
      if allowError.Some? {
        pulls := pulls[i := p];
        return;
      }
      pulls := pulls[i := Work(p, ReloadReturns(i, reloadError))];
    }

    /** run, left to itself: it sends one End and lets go whatever fails, and asks for the
        re-advertisement exactly when nothing did. */
    method Run(i: nat, pullError: Option<string>, allowError: Option<string>, reloadError: Option<string>)
        returns (asked: bool)
      requires i < |pulls| && pulls[i].stage.Pulling?
      modifies this
      ensures asked <==> pullError.None? && allowError.None? && reloadError.None?
      ensures |ends| == |old(ends)| + 1 && ends[..|old(ends)|] == old(ends)
      ensures var end := ends[|old(ends)|]; end.id == old(pulls)[i].id && end.ok == asked && end.pull == Some(i)
      ensures live == old(live) - {old(pulls)[i].id}
      ensures |pulls| == |old(pulls)| && pulls[i].stage.Over?
      ensures forall k :: 0 <= k < |pulls| && k != i ==> pulls[k] == old(pulls)[k]
    {
      DoWork(i, pullError, allowError, reloadError);
      SendPullEnd(i);
      ReleasePull(i);
      asked := pulls[i].stage.Freed?;
      if asked {
        pulls := pulls[i := Finish(pulls[i], Ask(i))];
      }
    }
  }
}
