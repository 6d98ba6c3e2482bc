/** The pulls and the re-advertisement together: a live pull keeps the worker busy, and a pull that
    succeeded asks for a re-advertisement once it has let go. */
module PullWorker {
  import opened Basics
  import P = ModelPull
  import R = Readvertise

  datatype State = State(pulls: P.State, ads: R.State)

  datatype Event =
    | OnPulls(step: P.Event)
    | Evaluate(now: int, changed: bool, otherWork: bool)
    | Reload                       // a policy reload asks for a re-advertisement
    | Reconnected

  /** The step is a pull asking for the re-advertisement it earned. */
  predicate Asks(s: P.State, e: P.Event) {
    e.Ask? && e.i < |s.pulls| && s.pulls[e.i].stage.Freed?
  }

  function Busy(s: P.State, otherWork: bool): bool {
    otherWork || |s.live| > 0
  }

  function Step(s: State, e: Event): State {
    match e
    case OnPulls(step) =>
      State(P.Step(s.pulls, step), if Asks(s.pulls, step) then R.Step(s.ads, R.Request) else s.ads)
    case Evaluate(now, changed, otherWork) =>
      s.(ads := R.Step(s.ads, R.Evaluate(now, changed, Busy(s.pulls, otherWork))))
    case Reload => s.(ads := R.Step(s.ads, R.Request))
    case Reconnected => s.(ads := R.Step(s.ads, R.Reconnected))
  }

  function After(events: seq<Event>): State {
    if events == [] then State(P.EMPTY, R.FRESH)
    else Step(After(events[..|events| - 1]), events[|events| - 1])
  }

  // -------------------------------------------------------------------------
  // Each half runs as it would alone
  // -------------------------------------------------------------------------

  function PullEvents(events: seq<Event>): seq<P.Event> {
    if events == [] then []
    else
      var before, e := PullEvents(events[..|events| - 1]), events[|events| - 1];
      if e.OnPulls? then before + [e.step] else before
  }

  /** What an event is to the re-advertisement. */
  function AdEvent(s: P.State, e: Event): Option<R.Event> {
    match e
    case OnPulls(step) => if Asks(s, step) then Some(R.Request) else None
    case Evaluate(now, changed, otherWork) => Some(R.Evaluate(now, changed, Busy(s, otherWork)))
    case Reload => Some(R.Request)
    case Reconnected => Some(R.Reconnected)
  }

  function AdEvents(events: seq<Event>): seq<R.Event> {
    if events == [] then []
    else
      var before, e := AdEvents(events[..|events| - 1]), AdEvent(After(events[..|events| - 1]).pulls, events[|events| - 1]);
      if e.Some? then before + [e.value] else before
  }

  lemma {:induction false} RunsAsPulls(events: seq<Event>)
    ensures After(events).pulls == P.After(P.EMPTY, PullEvents(events))
  {
    if events != [] {
      RunsAsPulls(events[..|events| - 1]);
      var before, e := PullEvents(events[..|events| - 1]), events[|events| - 1];
      if e.OnPulls? { assert (before + [e.step])[..|before|] == before; }
    }
  }

  lemma {:induction false} RunsAsAds(events: seq<Event>)
    ensures After(events).ads == R.After(AdEvents(events))
  {
    if events != [] {
      RunsAsAds(events[..|events| - 1]);
      var before, e := AdEvents(events[..|events| - 1]), AdEvent(After(events[..|events| - 1]).pulls, events[|events| - 1]);
      if e.Some? { assert (before + [e.value])[..|before|] == before; }
    }
  }

  lemma ReachableOk(events: seq<Event>)
    ensures P.Ok(After(events).pulls)
  {
    RunsAsPulls(events);
    P.RunKeepsOk(P.EMPTY, PullEvents(events));
  }

  // -------------------------------------------------------------------------
  // No close loses the End of an admitted pull
  // -------------------------------------------------------------------------

  lemma {:induction false} NothingOwed(pulls: seq<P.Pull>, id: string)
    requires forall i :: 0 <= i < |pulls| ==> !P.Owes(pulls[i].stage)
    ensures P.Owed(pulls, id) == 0
  {
    if pulls != [] {
      NothingOwed(pulls[..|pulls| - 1], id);
      assert !P.Owes(pulls[|pulls| - 1].stage);
    }
  }

  lemma IdleOwesNothing(s: P.State, id: string)
    requires P.Ok(s) && |s.live| == 0
    ensures P.Owed(s.pulls, id) == 0
  {
    forall i | 0 <= i < |s.pulls| ensures !P.Owes(s.pulls[i].stage) {
      assert s.pulls[i].id !in s.live.Keys;
    }
    NothingOwed(s.pulls, id);
  }

  /** The Ends of a request not sent yet. */
  function Unsent(s: P.State, id: string): nat {
    P.Owed(s.pulls, id) + P.OwedRefusal(s.recv, id)
  }

  /** An evaluation that closes the connection leaves an End unsent exactly when the receive
      goroutine is in the middle of refusing a start: no admitted pull's End is ever cut off. */
  lemma ClosesOverARefusalExactlyWhen(events: seq<Event>, now: int, changed: bool, otherWork: bool)
    requires var s := After(events); R.Closes(s.ads, now, changed, Busy(s.pulls, otherWork))
    ensures var s := After(events).pulls;
            && (forall id :: P.Owed(s.pulls, id) == 0)
            && ((exists id :: Unsent(s, id) > 0) <==> s.recv.Refusing?)
  {
    var s := After(events).pulls;
    ReachableOk(events);
    forall id ensures P.Owed(s.pulls, id) == 0 {
      IdleOwesNothing(s, id);
    }
    if s.recv.Refusing? {
      assert Unsent(s, s.recv.id) == 1;
    }
  }

  /** It does happen: a start is refused while the heartbeat goroutine re-advertises, and its End is
      still unsent on the connection that is closed. */
  lemma RefusalCanBeClosedOver(id: string, now: int)
    requires id != ""
    ensures var events := [OnPulls(P.Start(id, "", true, true))];
            var s := After(events);
            && R.Closes(s.ads, now, true, Busy(s.pulls, false))
            && s.pulls.starts[id] == 1 && P.Answered(s.pulls.ends, id) == 0 && Unsent(s.pulls, id) == 1
  {
    var events := [OnPulls(P.Start(id, "", true, true))];
    assert events[..0] == [];
    assert After(events) == Step(State(P.EMPTY, R.FRESH), events[0]);
  }

  lemma IdleMeans(s: P.State)
    requires P.Ok(s)
    ensures |s.live| == 0 <==> forall i :: 0 <= i < |s.pulls| ==> !P.Holds(s.pulls[i].stage)
  {
    if |s.live| > 0 {
      var id :| id in s.live.Keys;
      assert P.Holds(s.pulls[s.live[id]].stage);
    } else {
      forall i | 0 <= i < |s.pulls| ensures !P.Holds(s.pulls[i].stage) {
        assert s.pulls[i].id !in s.live.Keys;
      }
    }
  }

  /** An evaluation closes the connection exactly when the advertisement changed, every pull has let go, no
      other work is in flight, the connection is not closed already, and it is the first close, two minutes
      after the last, or one that a reload or a good pull has asked for since. */
  lemma ReadvertisesExactlyWhen(events: seq<Event>, from: int, now: int, changed: bool, otherWork: bool)
    requires R.Timed(AdEvents(events), from)
    ensures var s, ads := After(events), AdEvents(events);
            |Step(s, Evaluate(now, changed, otherWork)).ads.closes| > |s.ads.closes| <==>
              && changed && !otherWork && (forall i :: 0 <= i < |s.pulls.pulls| ==> !P.Holds(s.pulls.pulls[i].stage))
              && !R.ClosedSinceReconnect(ads)
              && (R.AnyClose(ads) ==> now - R.LastClose(ads) >= 120_000_000_000 || R.AskedSinceClose(ads))
  {
    var s, ads := After(events), AdEvents(events);
    ReachableOk(events);
    IdleMeans(s.pulls);
    RunsAsAds(events);
    var e := R.Evaluate(now, changed, Busy(s.pulls, otherWork));
    R.ClosesExactlyWhen(ads, from, now, changed, Busy(s.pulls, otherWork));
    assert (ads + [e])[..|ads|] == ads;
  }

  // -------------------------------------------------------------------------
  // What the re-advertisements cost
  // -------------------------------------------------------------------------

  function Reloads(events: seq<Event>): nat {
    if events == [] then 0
    else Reloads(events[..|events| - 1]) + if events[|events| - 1].Reload? then 1 else 0
  }

  /** The Ends that reported a pull done. */
  function GoodEnds(ends: seq<P.End>): nat {
    if ends == [] then 0 else GoodEnds(ends[..|ends| - 1]) + if ends[|ends| - 1].ok then 1 else 0
  }

  function HasAsked(p: P.Pull): nat {
    if p.stage.Over? && p.stage.ok then 1 else 0
  }

  function HasReported(p: P.Pull): nat {
    if !P.Owes(p.stage) && p.stage.ok then 1 else 0
  }

  function Asked(pulls: seq<P.Pull>): nat {
    if pulls == [] then 0 else Asked(pulls[..|pulls| - 1]) + HasAsked(pulls[|pulls| - 1])
  }

  function Reported(pulls: seq<P.Pull>): nat {
    if pulls == [] then 0 else Reported(pulls[..|pulls| - 1]) + HasReported(pulls[|pulls| - 1])
  }

  lemma {:induction false} CountsUpdate(pulls: seq<P.Pull>, i: nat, q: P.Pull)
    requires i < |pulls|
    ensures Asked(pulls[i := q]) + HasAsked(pulls[i]) == Asked(pulls) + HasAsked(q)
    ensures Reported(pulls[i := q]) + HasReported(pulls[i]) == Reported(pulls) + HasReported(q)
  {
    var before, after := pulls[..|pulls| - 1], pulls[i := q];
    if i < |pulls| - 1 {
      assert after[..|after| - 1] == before[i := q];
      CountsUpdate(before, i, q);
    } else {
      assert after[..|after| - 1] == before;
    }
  }

  lemma {:induction false} AskedWereReported(pulls: seq<P.Pull>)
    ensures Asked(pulls) <= Reported(pulls)
  {
    if pulls != [] { AskedWereReported(pulls[..|pulls| - 1]); }
  }

  lemma CountsMore(pulls: seq<P.Pull>, p: P.Pull)
    ensures Asked(pulls + [p]) == Asked(pulls) + HasAsked(p)
    ensures Reported(pulls + [p]) == Reported(pulls) + HasReported(p)
  {
    assert (pulls + [p])[..|pulls|] == pulls;
  }

  lemma GoodEndsMore(ends: seq<P.End>, e: P.End)
    ensures GoodEnds(ends + [e]) == GoodEnds(ends) + if e.ok then 1 else 0
  {
    assert (ends + [e])[..|ends|] == ends;
  }

  lemma AdmitCounts(s: P.State, id: string, model: string, supported: bool, allowed: bool)
    requires s.recv.Idle? && Reported(s.pulls) == GoodEnds(s.ends)
    ensures var s' := P.Admit(s, id, model, supported, allowed);
            Reported(s'.pulls) == GoodEnds(s'.ends) && Asked(s'.pulls) == Asked(s.pulls)
  {
    CountsMore(s.pulls, P.Pull(id, P.Pulling, "", false, [], []));
  }

  lemma ReceiveCounts(s: P.State, e: P.Event)
    requires P.Ok(s) && Reported(s.pulls) == GoodEnds(s.ends) && P.OnReceive(e)
    ensures var s' := P.Receive(s, e);
            Reported(s'.pulls) == GoodEnds(s'.ends) && Asked(s'.pulls) == Asked(s.pulls)
  {
    match e
    case Start(id, model, supported, allowed) => if s.recv.Idle? { AdmitCounts(s, id, model, supported, allowed); }
    case SendRefusal => if s.recv.Refusing? { GoodEndsMore(s.ends, P.End(s.recv.id, false, s.recv.text, None)); }
    case Apply => if s.recv.Applying? { CountsUpdate(s.pulls, s.recv.target, P.Aborted(s.pulls[s.recv.target], s.recv.reason)); }
    case _ =>
  }

  lemma OwnStepCounts(p: P.Pull, e: P.Event)
    requires P.Traced(p) && !P.OnReceive(e)
    ensures HasAsked(P.Finish(p, e)) == HasAsked(p) + if e.Ask? && p.stage.Freed? then 1 else 0
    ensures HasReported(P.Finish(p, e)) == HasReported(p) + if e.SendEnd? && p.stage.Ending? && p.stage.ok then 1 else 0
    ensures HasAsked(P.Work(p, e)) == HasAsked(p) && HasReported(P.Work(p, e)) == HasReported(p)
  {
  }

  lemma WorkCounts(s: P.State, e: P.Event)
    requires P.Ok(s) && !P.OnReceive(e) && !P.Finishes(e) && e.i < |s.pulls|
    ensures var s' := P.Advance(s, e);
            s'.ends == s.ends && Reported(s'.pulls) == Reported(s.pulls) && Asked(s'.pulls) == Asked(s.pulls)
  {
    var p := s.pulls[e.i];
    assert P.PullOk(p);
    OwnStepCounts(p, e);
    CountsUpdate(s.pulls, e.i, P.Work(p, e));
  }

  lemma FinishCounts(s: P.State, e: P.Event)
    requires P.Ok(s) && P.Finishes(e) && e.i < |s.pulls|
    ensures var s' := P.Advance(s, e);
            && Asked(s'.pulls) == Asked(s.pulls) + (if Asks(s, e) then 1 else 0)
            && Reported(s'.pulls) - Reported(s.pulls) == GoodEnds(s'.ends) - GoodEnds(s.ends)
  {
    var p := s.pulls[e.i];
    assert P.PullOk(p);
    OwnStepCounts(p, e);
    CountsUpdate(s.pulls, e.i, P.Finish(p, e));
    if e.SendEnd? && p.stage.Ending? { GoodEndsMore(s.ends, P.End(p.id, p.stage.ok, p.stage.text, Some(e.i))); }
  }

  lemma PullStepCounts(s: P.State, e: P.Event)
    requires P.Ok(s) && Reported(s.pulls) == GoodEnds(s.ends)
    ensures var s' := P.Step(s, e);
            Reported(s'.pulls) == GoodEnds(s'.ends) && Asked(s'.pulls) == Asked(s.pulls) + if Asks(s, e) then 1 else 0
  {
    if P.OnReceive(e) {
      ReceiveCounts(s, e);
    } else if e.i < |s.pulls| {
      if P.Finishes(e) { FinishCounts(s, e); } else { WorkCounts(s, e); }
    }
  }

  lemma RequestsMore(events: seq<R.Event>, e: R.Event)
    ensures R.Requests(events + [e]) == R.Requests(events) + if e.Request? then 1 else 0
  {
    assert (events + [e])[..|events|] == events;
  }

  lemma {:induction false} ReportsAreGoodEnds(events: seq<Event>)
    ensures Reported(After(events).pulls.pulls) == GoodEnds(After(events).pulls.ends)
  {
    if events != [] {
      var s, e := After(events[..|events| - 1]).pulls, events[|events| - 1];
      ReportsAreGoodEnds(events[..|events| - 1]);
      ReachableOk(events[..|events| - 1]);
      if e.OnPulls? { PullStepCounts(s, e.step); }
    }
  }

  /** A request is a policy reload's or a pull's that succeeded. */
  lemma {:induction false} WhereRequestsComeFrom(events: seq<Event>)
    ensures R.Requests(AdEvents(events)) == Reloads(events) + Asked(After(events).pulls.pulls)
  {
    if events != [] {
      var before, e := events[..|events| - 1], events[|events| - 1];
      var s, ad := After(before).pulls, AdEvent(After(before).pulls, e);
      WhereRequestsComeFrom(before);
      ReportsAreGoodEnds(before);
      ReachableOk(before);
      if ad.Some? { RequestsMore(AdEvents(before), ad.value); }
      if e.OnPulls? { PullStepCounts(s, e.step); }
      assert Reloads(events) == Reloads(before) + if e.Reload? then 1 else 0;
    }
  }

  /** In T seconds at most 1 + T/120 connections are closed to re-advertise, and one more for every
      policy reload and every pull that reported success. */
  lemma ReconnectsAreEarned(events: seq<Event>, from: int, T: nat)
    requires R.Timed(AdEvents(events), from) && R.Latest(AdEvents(events), from + T * 1_000_000_000)
    ensures var s := After(events);
            |s.ads.closes| <= 1 + T / 120 + Reloads(events) + GoodEnds(s.pulls.ends)
  {
    RunsAsAds(events);
    R.ReadvertiseBound(AdEvents(events), from, T);
    WhereRequestsComeFrom(events);
    ReportsAreGoodEnds(events);
    AskedWereReported(After(events).pulls.pulls);
  }
}
