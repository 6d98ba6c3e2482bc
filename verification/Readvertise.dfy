/** The runner's re-advertisement: a reconnect is spent on a changed advertisement only when the
    worker is idle and no sooner than two minutes after the last one, unless somebody asked. */
module Readvertise {
  const SECOND := 1_000_000_000
  const FLOOR := 120 * SECOND

  /** A connection closed to re-advertise, and whether it took the bypass to do it. */
  datatype Close = Close(conn: nat, at: int, bypass: bool)

  /** lastReadvertise (zero until the first), pendingReadvertise, the connection being served and its
      closing flag, and what has been closed. */
  datatype State = State(last: int, pending: bool, conn: nat, closing: bool, closes: seq<Close>)

  const FRESH := State(0, false, 0, false, [])

  datatype Event =
    | Evaluate(now: int, changed: bool, busy: bool)
    | Request
    | Reconnected

  predicate WithinFloor(s: State, now: int) {
    s.last != 0 && now - s.last < FLOOR
  }

  predicate Closes(s: State, now: int, changed: bool, busy: bool) {
    !s.closing && changed && !busy && (WithinFloor(s, now) ==> s.pending)
  }

  function Step(s: State, e: Event): State {
    match e
    case Evaluate(now, changed, busy) =>
      if Closes(s, now, changed, busy) then
        s.(last := now, pending := false, closing := true,
           closes := s.closes + [Close(s.conn, now, WithinFloor(s, now))])
      else s
    case Request => s.(pending := true)
    case Reconnected => s.(conn := s.conn + 1, closing := false)
  }

  function After(events: seq<Event>): State {
    if events == [] then FRESH else Step(After(events[..|events| - 1]), events[|events| - 1])
  }

  function Requests(events: seq<Event>): nat {
    if events == [] then 0
    else Requests(events[..|events| - 1]) + if events[|events| - 1].Request? then 1 else 0
  }

  function Bypasses(closes: seq<Close>): nat {
    if closes == [] then 0
    else Bypasses(closes[..|closes| - 1]) + if closes[|closes| - 1].bypass then 1 else 0
  }

  /** The evaluations read a clock that starts past zero and does not go back. */
  predicate Timed(events: seq<Event>, from: int) {
    && (forall i :: 0 <= i < |events| && events[i].Evaluate? ==> from <= events[i].now && 0 < events[i].now)
    && (forall i, j :: 0 <= i <= j < |events| && events[i].Evaluate? && events[j].Evaluate? ==> events[i].now <= events[j].now)
  }

  ghost predicate Latest(events: seq<Event>, t: int) {
    forall i :: 0 <= i < |events| && events[i].Evaluate? ==> events[i].now <= t
  }

  // -------------------------------------------------------------------------
  // No connection is closed twice
  // -------------------------------------------------------------------------

  ghost predicate ClosedInOrder(s: State) {
    && (forall k :: 0 <= k < |s.closes| ==> s.closes[k].conn < s.conn || (s.closing && s.closes[k].conn == s.conn))
    && (forall k, m :: 0 <= k < m < |s.closes| ==> s.closes[k].conn < s.closes[m].conn)
  }

  /** Each connection is closed at most once to re-advertise, in the order they were opened. */
  lemma {:induction false} NoConnectionClosedTwice(events: seq<Event>)
    ensures ClosedInOrder(After(events))
  {
    if events != [] { NoConnectionClosedTwice(events[..|events| - 1]); }
  }

  // -------------------------------------------------------------------------
  // How often
  // -------------------------------------------------------------------------

  lemma BypassesMore(closes: seq<Close>, c: Close)
    ensures Bypasses(closes + [c]) == Bypasses(closes) + if c.bypass then 1 else 0
  {
    assert (closes + [c])[..|closes|] == closes;
  }

  /** Every close inside the floor spends a request of its own: one made after the close before it. */
  lemma {:induction false} BypassesArePaidFor(events: seq<Event>)
    ensures var s := After(events);
            Bypasses(s.closes) + (if s.pending then 1 else 0) <= Requests(events)
  {
    if events != [] {
      var s, e := After(events[..|events| - 1]), events[|events| - 1];
      BypassesArePaidFor(events[..|events| - 1]);
      if e.Evaluate? { BypassesMore(s.closes, Close(s.conn, e.now, WithinFloor(s, e.now))); }
    }
  }

  ghost predicate Paced(s: State, from: int) {
    && (s.last == 0 <==> s.closes == [])
    && (s.closes != [] ==> s.last >= from && s.last > 0)
    && (s.closes != [] ==> 120_000_000_000 * (|s.closes| - Bypasses(s.closes) - 1) <= s.last - from)
  }

  lemma EvaluateKeepsPace(s: State, from: int, now: int, changed: bool, busy: bool)
    requires Paced(s, from) && now >= from && now > 0 && now >= s.last
    ensures Paced(Step(s, Evaluate(now, changed, busy)), from)
  {
    BypassesMore(s.closes, Close(s.conn, now, WithinFloor(s, now)));
  }

  lemma {:induction false} RunIsPaced(events: seq<Event>, from: int)
    requires Timed(events, from)
    ensures Paced(After(events), from)
    ensures After(events).closes != [] ==> exists i :: 0 <= i < |events| && events[i].Evaluate? && events[i].now == After(events).last
  {
    if events != [] {
      var before, e := events[..|events| - 1], events[|events| - 1];
      var s := After(before);
      assert Timed(before, from);
      RunIsPaced(before, from);
      if s.closes != [] {
        var i :| 0 <= i < |before| && before[i].Evaluate? && before[i].now == s.last;
        assert events[i] == before[i];
      }
      if e.Evaluate? {
        assert events[|events| - 1].now >= s.last;
        EvaluateKeepsPace(s, from, e.now, e.changed, e.busy);
      }
    }
  }

  /** In T seconds, with Q requests, at most 1 + T/120 + Q connections are closed to re-advertise. */
  lemma ReadvertiseBound(events: seq<Event>, from: int, T: nat)
    requires Timed(events, from) && Latest(events, from + T * 1_000_000_000)
    ensures |After(events).closes| <= 1 + T / 120 + Requests(events)
  {
    RunIsPaced(events, from);
    BypassesArePaidFor(events);
    var s := After(events);
    if s.closes != [] {
      var i :| 0 <= i < |events| && events[i].Evaluate? && events[i].now == s.last;
      assert s.last - from <= T * 1_000_000_000;
    }
  }

  // -------------------------------------------------------------------------
  // A request is not lost
  // -------------------------------------------------------------------------

  /** A request outlives every evaluation that does not close: the first one after it to find a
      change, an idle worker and an open connection closes it, whatever the clock says. */
  lemma {:induction false} RequestSurvives(events: seq<Event>, more: seq<Event>, now: int)
    requires |After(events + [Request] + more).closes| == |After(events).closes|
    ensures var s := After(events + [Request] + more);
            s.pending && (Closes(s, now, true, false) <==> !s.closing)
  {
    var all := events + [Request] + more;
    if more == [] {
      assert all[..|all| - 1] == events;
    } else {
      assert all[..|all| - 1] == events + [Request] + more[..|more| - 1];
      ClosesGrow(events, [Request] + more[..|more| - 1]);
      assert events + ([Request] + more[..|more| - 1]) == all[..|all| - 1];
      RequestSurvives(events, more[..|more| - 1], now);
    }
  }

  lemma {:induction false} ClosesGrow(events: seq<Event>, more: seq<Event>)
    ensures |After(events + more).closes| >= |After(events).closes|
  {
    var all := events + more;
    if more == [] {
      assert all == events;
    } else {
      assert all[..|all| - 1] == events + more[..|more| - 1];
      ClosesGrow(events, more[..|more| - 1]);
    }
  }

  // -------------------------------------------------------------------------
  // When it closes, told from what has happened
  // -------------------------------------------------------------------------

  /** The last thing that happened closed a connection. */
  predicate JustClosed(events: seq<Event>) {
    events != [] && |After(events).closes| > |After(events[..|events| - 1]).closes|
  }

  /** When the last close was, if there was one. */
  function LastClose(events: seq<Event>): int {
    if events == [] then 0
    else if JustClosed(events) && events[|events| - 1].Evaluate? then events[|events| - 1].now
    else LastClose(events[..|events| - 1])
  }

  predicate AnyClose(events: seq<Event>) {
    events != [] && (JustClosed(events) || AnyClose(events[..|events| - 1]))
  }

  /** The connection has been closed, and nothing has reconnected since. */
  predicate ClosedSinceReconnect(events: seq<Event>) {
    events != [] && !events[|events| - 1].Reconnected? && (JustClosed(events) || ClosedSinceReconnect(events[..|events| - 1]))
  }

  /** Somebody has asked since the last close. */
  predicate AskedSinceClose(events: seq<Event>) {
    events != [] && !JustClosed(events) && (events[|events| - 1].Request? || AskedSinceClose(events[..|events| - 1]))
  }

  lemma {:induction false} RemembersHistory(events: seq<Event>, from: int)
    requires Timed(events, from)
    ensures var s := After(events);
            && s.closing == ClosedSinceReconnect(events) && s.pending == AskedSinceClose(events)
            && (s.last != 0 <==> AnyClose(events)) && (AnyClose(events) ==> s.last == LastClose(events))
  {
    if events != [] {
      assert Timed(events[..|events| - 1], from);
      RemembersHistory(events[..|events| - 1], from);
    }
  }

  /** An evaluation closes exactly when the advertisement changed, the worker is idle, the connection is
      not closed already, and it is the first close, two minutes after the last, or asked for since. */
  lemma ClosesExactlyWhen(events: seq<Event>, from: int, now: int, changed: bool, busy: bool)
    requires Timed(events, from)
    ensures JustClosed(events + [Evaluate(now, changed, busy)]) <==>
              && changed && !busy && !ClosedSinceReconnect(events)
              && (AnyClose(events) ==> now - LastClose(events) >= 120_000_000_000 || AskedSinceClose(events))
  {
    RemembersHistory(events, from);
    assert (events + [Evaluate(now, changed, busy)])[..|events|] == events;
  }

  // -------------------------------------------------------------------------
  // The runner's own fields
  // -------------------------------------------------------------------------

  class Advertiser {
    var last: int
    var pending: bool
    var conn: nat
    var closing: bool
    var closes: seq<Close>

    function Now(): State
      reads this
    {
      State(last, pending, conn, closing, closes)
    }

    constructor ()
      ensures Now() == FRESH
    {
      last, pending, conn, closing, closes := 0, false, 0, false, [];
    }

    /** maybeReadvertiseModels, as one step. */
    method MaybeReadvertise(now: int, changed: bool, busy: bool) returns (closed: bool)
      modifies this
      ensures Now() == Step(old(Now()), Evaluate(now, changed, busy))
      ensures closed == Closes(old(Now()), now, changed, busy)
    {
      if closing || !changed || busy {
        return false;
      }
      var bypass := last != 0 && now - last < FLOOR;
      if bypass {
        var armed := pending;
        pending := false;
        if !armed {
          return false;
        }
      } else {
        pending := false;
      }
      last := now;
      closing := true;
      closes := closes + [Close(conn, now, bypass)];
      return true;
    }

    /** RequestImmediateReadvertise. */
    method RequestImmediate()
      modifies this
      ensures Now() == Step(old(Now()), Request)
    {
      pending := true;
    }
  }
}
