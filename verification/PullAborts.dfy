/** What a cancel, or a stop of every pull, comes to: the receive goroutine finds the pull, then marks
    it, and the pulls' own steps fall between the two. */
module PullAborts {
  import Basics
  import opened ModelPull

  /** The step the receive goroutine takes next on its aborts. */
  function NextAbort(recv: Recv): Event {
    if recv.Applying? then Apply else LookUp
  }

  /** How many steps are left of the aborts it is in the middle of. */
  function AbortsLeft(recv: Recv): nat {
    match recv
    case Aborting(ids, _) => 2 * |ids| + 1
    case Applying(_, ids, _) => 2 * |ids| + 2
    case _ => 0
  }

  /** Each of its own steps leaves one or two fewer, and no other step leaves more: the aborts are worked
      off, whatever the pulls do meanwhile. */
  lemma AbortsAreWorkedOff(s: State, e: Event)
    requires Ok(s) && (s.recv.Aborting? || s.recv.Applying?)
    ensures e == NextAbort(s.recv) ==> AbortsLeft(Step(s, e).recv) < AbortsLeft(s.recv)
    ensures e != NextAbort(s.recv) ==> Step(s, e).recv == s.recv
  {
  }

  /** The pull's first abort reason, when one more abort reaches it. */
  function FirstReason(p: Pull, reason: string): string {
    if p.aborts == [] then reason else p.aborts[0]
  }

  /** The pull has been let go, or is cancelled with that reason. */
  predicate Reached(p: Pull, reason: string) {
    !Holds(p.stage) || (p.cancelled && p.reason == reason)
  }

  /** The abort of pull i is still ahead: its id is to be looked up, or it has been found. */
  predicate Ahead(s: State, i: nat, was: Pull, reason: string)
    requires i < |s.pulls|
  {
    && s.pulls[i].id == was.id && s.pulls[i].aborts == was.aborts
    && ((s.recv.Aborting? && s.recv.reason == reason && was.id in s.recv.ids)
        || (s.recv.Applying? && s.recv.reason == reason && (s.recv.target == i || was.id in s.recv.ids)))
  }

  /** p and q have had the same aborts, and q is held only where p is. */
  predicate SameAborts(p: Pull, q: Pull) {
    && q.id == p.id && q.aborts == p.aborts && q.reason == p.reason && q.cancelled == p.cancelled
    && (Holds(q.stage) ==> Holds(p.stage))
  }

  lemma OwnWork(p: Pull, e: Event)
    ensures SameAborts(p, Work(p, e)) && SameAborts(p, Finish(p, e))
  {
  }

  /** A step of a pull's own goroutine leaves its aborts and every other pull alone. */
  lemma OwnStep(s: State, e: Event)
    requires !OnReceive(e)
    ensures var s' := Step(s, e);
            && s'.recv == s.recv && |s'.pulls| == |s.pulls|
            && (forall id :: id in s'.live ==> id in s.live && s'.live[id] == s.live[id])
            && (forall j :: 0 <= j < |s.pulls| && j != e.i ==> s'.pulls[j] == s.pulls[j])
            && (e.i < |s.pulls| ==> SameAborts(s.pulls[e.i], s'.pulls[e.i]))
  {
    if e.i < |s.pulls| { OwnWork(s.pulls[e.i], e); }
  }

  lemma ReachedStays(s: State, e: Event, i: nat, reason: string)
    requires i < |s.pulls| && PullOk(s.pulls[i]) && Reached(s.pulls[i], reason) && reason != ""
    ensures i < |Step(s, e).pulls| && Reached(Step(s, e).pulls[i], reason)
  {
    if !OnReceive(e) { OwnStep(s, e); }
  }

  lemma AheadOrReached(s: State, e: Event, i: nat, was: Pull, reason: string)
    requires Ok(s) && i < |s.pulls| && Holds(s.pulls[i].stage) && Ahead(s, i, was, reason)
    ensures i < |Step(s, e).pulls|
    ensures Ahead(Step(s, e), i, was, reason) || Reached(Step(s, e).pulls[i], FirstReason(was, reason))
  {
    assert PullOk(s.pulls[i]);
    assert s.live[s.pulls[i].id] == i;
    if !OnReceive(e) { OwnStep(s, e); }
  }

  /** An abort of an id reaches the pull that holds it: by the time the receive goroutine is through, the
      pull is let go, or cancelled with this reason, or with the one that reached it first. */
  lemma {:induction false} AbortReaches(s: State, ids: seq<string>, reason: string, events: seq<Event>, i: nat)
    requires Ok(s) && s.recv == Aborting(ids, reason)
    requires i < |s.pulls| && Holds(s.pulls[i].stage) && s.pulls[i].id in ids
    ensures var s' := After(s, events);
            && Ok(s') && i < |s'.pulls|
            && (Reached(s'.pulls[i], FirstReason(s.pulls[i], reason)) || Ahead(s', i, s.pulls[i], reason))
  {
    if events != [] {
      var before, e := After(s, events[..|events| - 1]), events[|events| - 1];
      AbortReaches(s, ids, reason, events[..|events| - 1], i);
      StepKeepsOk(before, e);
      if Reached(before.pulls[i], FirstReason(s.pulls[i], reason)) {
        assert PullOk(before.pulls[i]) && PullOk(s.pulls[i]);
        ReachedStays(before, e, i, FirstReason(s.pulls[i], reason));
      } else {
        AheadOrReached(before, e, i, s.pulls[i], reason);
      }
    }
  }

  /** A cancel stops the live pull it names: however the pulls' own steps and later reports fall, once the
      receive goroutine is through with it the pull is let go or cancelled, and it tells the cluster's
      words unless an earlier abort reached it. */
  lemma CancelReaches(s: State, id: string, reason: string, events: seq<Event>)
    requires Ok(s) && s.recv.Idle? && id in s.live
    ensures var s' := After(Step(s, Cancel(id, reason)), events);
            var i, words := s.live[id], Basics.Trim(reason);
            i < |s'.pulls| && (s'.recv.Idle? ==>
              Reached(s'.pulls[i], FirstReason(s.pulls[i],
                "the cluster cancelled this pull: " + if words == "" then "no reason was given" else words)))
  {
    StepKeepsOk(s, Cancel(id, reason));
    AbortReaches(Step(s, Cancel(id, reason)), [id], CancelReason(reason), events, s.live[id]);
  }

  /** A stop reaches every pull that was live. */
  lemma StopReachesAll(s: State, ids: seq<string>, reason: string, events: seq<Event>, i: nat)
    requires Ok(s) && s.recv.Idle? && (set id | id in ids) == s.live.Keys
    requires i < |s.pulls| && Holds(s.pulls[i].stage)
    ensures var s' := After(Step(s, StopAll(ids, reason)), events);
            i < |s'.pulls| && (s'.recv.Idle? ==>
              Reached(s'.pulls[i], FirstReason(s.pulls[i], "this pull was stopped: " + reason)))
  {
    StepKeepsOk(s, StopAll(ids, reason));
    assert s.pulls[i].id in s.live.Keys;
    AbortReaches(Step(s, StopAll(ids, reason)), ids, "this pull was stopped: " + reason, events, i);
  }

  // -------------------------------------------------------------------------
  // A cancel touches no other pull
  // -------------------------------------------------------------------------

  /** Nothing new arrives at the receive goroutine. */
  predicate NoArrivals(events: seq<Event>) {
    forall k :: 0 <= k < |events| ==> !events[k].Start? && !events[k].Cancel? && !events[k].StopAll?
  }

  /** The aborts in hand can only be of pull i. */
  ghost predicate Only(s: State, i: int) {
    && (s.recv.Aborting? || s.recv.Applying? ==> forall id :: id in s.recv.ids && id in s.live ==> s.live[id] == i)
    && (s.recv.Applying? ==> s.recv.target == i)
    && !s.recv.Refusing?
  }

  /** Pull i apart, s and t have the same pulls. */
  predicate SameBut(s: State, t: State, i: int) {
    |s.pulls| == |t.pulls| && forall j :: 0 <= j < |s.pulls| && j != i ==> s.pulls[j] == t.pulls[j]
  }

  lemma StepTouchesNoOther(s: State, t: State, e: Event, i: int)
    requires Only(s, i) && t.recv.Idle? && SameBut(s, t, i) && NoArrivals([e])
    ensures Only(Step(s, e), i) && Step(t, e).recv.Idle? && SameBut(Step(s, e), Step(t, e), i)
    ensures |Step(s, e).pulls| == |s.pulls|
  {
    assert [e][0] == e;
    if !OnReceive(e) {
      OwnStep(s, e);
      OwnStep(t, e);
    }
  }

  lemma {:induction false} AbortTouchesNoOther(s: State, t: State, events: seq<Event>, i: int)
    requires Only(s, i) && t.recv.Idle? && SameBut(s, t, i) && NoArrivals(events)
    ensures Only(After(s, events), i) && After(t, events).recv.Idle? && SameBut(After(s, events), After(t, events), i)
    ensures |After(s, events).pulls| == |s.pulls|
  {
    if events != [] {
      AbortTouchesNoOther(s, t, events[..|events| - 1], i);
      StepTouchesNoOther(After(s, events[..|events| - 1]), After(t, events[..|events| - 1]), events[|events| - 1], i);
    }
  }

  /** Whatever the pulls do meanwhile, a cancel leaves every other pull as it would have been without it,
      and one that names no live pull leaves them all so. */
  lemma CancelTouchesNoOther(s: State, id: string, reason: string, events: seq<Event>, j: nat)
    requires s.recv.Idle? && NoArrivals(events)
    requires j < |s.pulls| && (id in s.live ==> s.live[id] != j)
    ensures var s', t' := After(Step(s, Cancel(id, reason)), events), After(s, events);
            j < |s'.pulls| == |t'.pulls| && s'.pulls[j] == t'.pulls[j]
  {
    AbortTouchesNoOther(Step(s, Cancel(id, reason)), s, events, if id in s.live then s.live[id] else -1);
  }
}
