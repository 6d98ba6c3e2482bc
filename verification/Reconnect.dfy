/** The runner's reconnect loop: an exponential backoff between attempts, and the slower hold a
    cluster that keeps refusing this machine puts it in. Times are nanoseconds of one clock. */
module Reconnect {

  const SECOND := 1_000_000_000
  const BACKOFF_MIN := SECOND
  const BACKOFF_MAX := 15 * SECOND
  const REFUSAL_STREAK := 3
  const REFUSAL_GRACE := 30 * SECOND
  const HOLD_MIN := 60 * SECOND
  const HOLD_MAX := 15 * 60 * SECOND

  /** What one attempt came to: the cluster refused this machine, was not reached, or accepted it
      and later dropped the stream, which had sent a heartbeat or had not. */
  datatype Outcome = Refused | Unreachable | Dropped(healthy: bool)

  /** An attempt from its dial to the moment the runner decides how long to wait. */
  datatype Attempt = Attempt(started: int, outcome: Outcome, ended: int)

  datatype Standing = Standing(streak: nat, first: int, held: bool, wait: int)

  /** gauge is the refused series on the metrics endpoint. */
  datatype State = State(backoff: int, refused: Standing, gauge: bool)

  const NO_STANDING := Standing(0, 0, false, 0)
  const FIRST_STATE := State(BACKOFF_MIN, NO_STANDING, false)

  function NextBackoff(current: int, max: int): int {
    if current * 2 > max then max else current * 2
  }

  /** The streak after a failed connect. */
  function Counted(r: Standing, refused: bool, now: int): Standing {
    if refused then
      r.(first := if r.streak == 0 then now else r.first, streak := r.streak + 1)
    else if !r.held then r.(streak := 0)
    else r
  }

  predicate StartsHold(r: Standing, refused: bool, now: int) {
    refused && r.streak >= REFUSAL_STREAK && now - r.first >= REFUSAL_GRACE
  }

  /** afterConnectFailure. */
  function Failed(s: State, refused: bool, now: int): State {
    var r := Counted(s.refused, refused, now);
    if r.held then s.(refused := r.(wait := NextBackoff(r.wait, HOLD_MAX)))
    else if StartsHold(r, refused, now) then s.(refused := r.(held := true, wait := HOLD_MIN), gauge := true)
    else s.(refused := r, backoff := NextBackoff(s.backoff, BACKOFF_MAX))
  }

  function FailedWait(s: State, refused: bool, now: int): int {
    var s' := Failed(s, refused, now);
    if s'.refused.held then s'.refused.wait else s.backoff
  }

  /** afterConnect. */
  function Accepted(s: State): State {
    s.(refused := NO_STANDING, gauge := if s.refused.held then false else s.gauge)
  }

  function Reset(backoff: int, healthy: bool): int {
    if healthy then BACKOFF_MIN else backoff
  }

  /** One turn of the loop. */
  function Turn(s: State, a: Attempt): State {
    match a.outcome
    case Dropped(healthy) => Accepted(s).(backoff := NextBackoff(Reset(s.backoff, healthy), BACKOFF_MAX))
    case o => Failed(s, o.Refused?, a.ended)
  }

  function TurnWait(s: State, a: Attempt): int {
    match a.outcome
    case Dropped(healthy) => Reset(s.backoff, healthy)
    case o => FailedWait(s, o.Refused?, a.ended)
  }

  /** The runner after a history of attempts. */
  function After(h: seq<Attempt>): State {
    if h == [] then FIRST_STATE else Turn(After(h[..|h| - 1]), h[|h| - 1])
  }

  /** How long the runner waits after the last attempt of a history. */
  function Wait(h: seq<Attempt>): int
    requires h != []
  {
    TurnWait(After(h[..|h| - 1]), h[|h| - 1])
  }

  // -------------------------------------------------------------------------
  // When the runner is held, read off the history
  // -------------------------------------------------------------------------

  /** Attempts j to k - 1 were all refused, three of them or more, over the grace or longer. */
  predicate RefusedThroughout(h: seq<Attempt>, j: nat, k: nat) {
    && j + 3 <= k <= |h|
    && (forall i :: j <= i < k ==> h[i].outcome.Refused?)
    && h[k - 1].ended - h[j].ended >= 30_000_000_000
  }

  predicate NoneAccepted(h: seq<Attempt>, k: nat) {
    forall i :: k <= i < |h| ==> !h[i].outcome.Dropped?
  }

  ghost predicate Held(h: seq<Attempt>) {
    exists j: nat, k: nat :: RefusedThroughout(h, j, k) && NoneAccepted(h, k)
  }

  /** The clock does not go back. */
  predicate Monotone(h: seq<Attempt>) {
    forall i, j :: 0 <= i <= j < |h| ==> h[i].ended <= h[j].ended
  }

  /** How many refusals in a row end the history. */
  function Trailing(h: seq<Attempt>): (n: nat)
    ensures n <= |h|
    ensures forall i :: |h| - n <= i < |h| ==> h[i].outcome.Refused?
    ensures n < |h| ==> !h[|h| - n - 1].outcome.Refused?
  {
    if h == [] || !h[|h| - 1].outcome.Refused? then 0 else Trailing(h[..|h| - 1]) + 1
  }

  /** While it is not held, the runner's streak is the refusals that end the history. */
  ghost predicate CountsTrailing(h: seq<Attempt>) {
    var r := After(h).refused;
    !r.held ==> r.streak == Trailing(h) && (r.streak > 0 ==> r.first == h[|h| - r.streak].ended)
  }

  lemma {:induction false} StreakIsTrailing(h: seq<Attempt>)
    ensures CountsTrailing(h)
  {
    if h != [] { StreakIsTrailing(h[..|h| - 1]); }
  }

  lemma HeldByPrefix(h: seq<Attempt>)
    requires h != [] && !h[|h| - 1].outcome.Dropped? && Held(h[..|h| - 1])
    ensures Held(h)
  {
    var p := h[..|h| - 1];
    var j: nat, k: nat :| RefusedThroughout(p, j, k) && NoneAccepted(p, k);
    assert RefusedThroughout(h, j, k) && NoneAccepted(h, k);
  }

  /** A hold that the last attempt did not start was there before it. */
  lemma HeldBefore(h: seq<Attempt>, j: nat, k: nat)
    requires h != [] && RefusedThroughout(h, j, k) && NoneAccepted(h, k) && k < |h|
    ensures !h[|h| - 1].outcome.Dropped? && Held(h[..|h| - 1])
  {
    var p := h[..|h| - 1];
    assert RefusedThroughout(p, j, k) && NoneAccepted(p, k);
  }

  /** A failure that starts a hold was a refusal, the third or later in a row, past the grace. */
  lemma HoldStart(s: State, a: Attempt)
    requires !s.refused.held && Turn(s, a).refused.held
    ensures a.outcome.Refused? && s.refused.streak + 1 >= REFUSAL_STREAK
    ensures s.refused.streak > 0 && a.ended - s.refused.first >= REFUSAL_GRACE
  {
  }

  lemma RefusedOnceMore(p: seq<Attempt>, last: Attempt, n: nat)
    requires 0 < n <= |p| && n + 1 >= REFUSAL_STREAK
    requires forall i :: |p| - n <= i < |p| ==> p[i].outcome.Refused?
    requires last.outcome.Refused? && last.ended - p[|p| - n].ended >= REFUSAL_GRACE
    ensures RefusedThroughout(p + [last], |p| - n, |p| + 1)
  {
  }

  lemma HoldStartsRefused(p: seq<Attempt>, last: Attempt)
    requires !After(p).refused.held && Turn(After(p), last).refused.held
    ensures RefusedThroughout(p + [last], |p| - Trailing(p), |p| + 1)
  {
    StreakIsTrailing(p);
    HoldStart(After(p), last);
    RefusedOnceMore(p, last, Trailing(p));
  }

  lemma RefusedStartsHold(h: seq<Attempt>, j: nat)
    requires h != [] && Monotone(h) && RefusedThroughout(h, j, |h|)
    ensures After(h).refused.held
  {
    var p := h[..|h| - 1];
    StreakIsTrailing(p);
    assert forall i :: j <= i < |p| ==> p[i] == h[i];
    TrailingCovers(p, j);
    var r := After(p).refused;
    if !r.held {
      assert r.streak >= |p| - j;
      assert r.first == h[|p| - r.streak].ended <= h[j].ended;
    }
  }

  /** A hold starts only after three refusals in a row, over thirty seconds, with no acceptance and
      no unreachable attempt between them, and only an acceptance ends it. */
  lemma {:induction false} HeldExactlyWhen(h: seq<Attempt>)
    requires Monotone(h)
    ensures After(h).refused.held <==> Held(h)
  {
    if h != [] {
      var p := h[..|h| - 1];
      HeldExactlyWhen(p);
      if After(h).refused.held {
        if Held(p) {
          HeldByPrefix(h);
        } else {
          HoldStartsRefused(p, h[|h| - 1]);
          assert h == p + [h[|h| - 1]] && NoneAccepted(h, |h|);
        }
      } else if Held(h) {
        var j: nat, k: nat :| RefusedThroughout(h, j, k) && NoneAccepted(h, k);
        if k < |h| {
          HeldBefore(h, j, k);
        } else {
          RefusedStartsHold(h, j);
        }
      }
    }
  }

  lemma TrailingCovers(h: seq<Attempt>, j: nat)
    requires j <= |h| && forall i :: j <= i < |h| ==> h[i].outcome.Refused?
    ensures Trailing(h) >= |h| - j
  {
  }

  /** The refused gauge says exactly whether the runner is held. */
  lemma {:induction false} GaugeIsHeld(h: seq<Attempt>)
    ensures After(h).gauge == After(h).refused.held
  {
    if h != [] { GaugeIsHeld(h[..|h| - 1]); }
  }

  // -------------------------------------------------------------------------
  // How long the runner waits, read off the history
  // -------------------------------------------------------------------------

  function Pow2(n: nat): nat {
    if n == 0 then 1 else 2 * Pow2(n - 1)
  }

  function Min(a: int, b: int): int {
    if a < b then a else b
  }

  /** The n-th wait of the ordinary schedule, and the k-th of the hold's. */
  function Ordinary(n: nat): int {
    Min(1_000_000_000 * Pow2(n), 15_000_000_000)
  }

  function Holding(k: nat): int {
    Min(60_000_000_000 * Pow2(k), 900_000_000_000)
  }

  /** How many ordinary waits followed the last healthy stream. */
  ghost function Fresh(h: seq<Attempt>): nat {
    if h == [] then 0
    else
      var before := Fresh(h[..|h| - 1]);
      if Held(h) then before
      else if h[|h| - 1].outcome == Dropped(true) then 1
      else before + 1
  }

  /** How many attempts have failed since the hold started. */
  ghost function HeldFor(h: seq<Attempt>): nat {
    if h == [] || !Held(h) || !Held(h[..|h| - 1]) then 0 else HeldFor(h[..|h| - 1]) + 1
  }

  lemma DroppedNotHeld(h: seq<Attempt>)
    requires h != [] && h[|h| - 1].outcome.Dropped?
    ensures !Held(h)
  {
    forall j: nat, k: nat | RefusedThroughout(h, j, k) ensures !NoneAccepted(h, k) {
      assert !h[|h| - 1].outcome.Refused?;
    }
  }

  lemma NextInSchedule(n: nat)
    ensures NextBackoff(Ordinary(n), BACKOFF_MAX) == Ordinary(n + 1)
    ensures NextBackoff(Holding(n), HOLD_MAX) == Holding(n + 1)
    ensures Ordinary(0) == BACKOFF_MIN && Holding(0) == HOLD_MIN
  {
  }

  lemma TurnFollowsSchedule(s: State, a: Attempt, n: nat)
    requires s.backoff == Ordinary(n)
    ensures Turn(s, a).backoff == if Turn(s, a).refused.held then Ordinary(n)
                                  else if a.outcome == Dropped(true) then Ordinary(1)
                                  else Ordinary(n + 1)
  {
    NextInSchedule(n);
    NextInSchedule(0);
  }

  lemma {:induction false} BackoffIsOrdinary(h: seq<Attempt>)
    requires Monotone(h)
    ensures After(h).backoff == Ordinary(Fresh(h))
  {
    if h != [] {
      var p := h[..|h| - 1];
      BackoffIsOrdinary(p);
      HeldExactlyWhen(h);
      TurnFollowsSchedule(After(p), h[|h| - 1], Fresh(p));
    } else {
      NextInSchedule(0);
    }
  }

  lemma {:induction false} HoldWaitIsHolding(h: seq<Attempt>)
    requires Monotone(h) && Held(h)
    ensures After(h).refused.wait == Holding(HeldFor(h))
  {
    var p := h[..|h| - 1];
    HeldExactlyWhen(h);
    HeldExactlyWhen(p);
    if Held(p) {
      HoldWaitIsHolding(p);
      NextInSchedule(HeldFor(p));
    } else {
      NextInSchedule(0);
    }
  }

  /** Both schedules at once: a held runner's k-th wait is a minute doubled k times up to fifteen,
      whatever its attempts failed with; any other wait is a second doubled once for every ordinary
      wait since the last healthy stream, up to fifteen seconds. */
  lemma WaitExactly(h: seq<Attempt>)
    requires Monotone(h) && h != []
    ensures var p := h[..|h| - 1];
            Wait(h) == if Held(h) then Holding(HeldFor(h))
                       else if h[|h| - 1].outcome == Dropped(true) then Ordinary(0)
                       else Ordinary(Fresh(p))
  {
    BackoffIsOrdinary(h[..|h| - 1]);
    HeldExactlyWhen(h);
    if Held(h) {
      HoldWaitIsHolding(h);
      if h[|h| - 1].outcome.Dropped? { DroppedNotHeld(h); }
    }
  }

  // -------------------------------------------------------------------------
  // How often the runner asks
  // -------------------------------------------------------------------------

  /** The attempts happened in this order: each starts no sooner than its wait after the last one,
      since jitter only adds to a wait. */
  predicate Timely(h: seq<Attempt>) {
    && (forall i :: 0 <= i < |h| ==> 0 <= h[i].started <= h[i].ended)
    && (forall i :: 1 <= i < |h| ==> h[i].started >= h[i - 1].ended + Wait(h[..i]))
  }

  function Healthy(h: seq<Attempt>): nat {
    if h == [] then 0
    else Healthy(h[..|h| - 1]) + if h[|h| - 1].outcome == Dropped(true) then 1 else 0
  }

  /** How far the ordinary waits so far fall short of fifteen seconds each. */
  function Shortfall(backoff: int): int {
    if backoff == SECOND then 0
    else if backoff == 2 * SECOND then 14 * SECOND
    else if backoff == 4 * SECOND then 27 * SECOND
    else if backoff == 8 * SECOND then 38 * SECOND
    else 45 * SECOND
  }

  ghost predicate Sound(s: State) {
    && (s.backoff == SECOND || s.backoff == 2 * SECOND || s.backoff == 4 * SECOND || s.backoff == 8 * SECOND || s.backoff == BACKOFF_MAX)
    && (s.refused.held ==> s.refused.wait >= HOLD_MIN)
  }

  lemma {:induction false} RunIsSound(h: seq<Attempt>)
    ensures Sound(After(h))
  {
    if h != [] { RunIsSound(h[..|h| - 1]); }
  }

  lemma TurnPays(s: State, a: Attempt)
    requires Sound(s)
    ensures TurnWait(s, a) >= BACKOFF_MAX - Shortfall(Turn(s, a).backoff) + Shortfall(s.backoff)
                              - if a.outcome == Dropped(true) then 45 * SECOND else 0
    ensures TurnWait(s, a) > 0
  {
  }

  lemma TimelyPrefix(h: seq<Attempt>, n: nat)
    requires Timely(h) && n <= |h|
    ensures Timely(h[..n])
  {
    forall i | 1 <= i < n ensures h[..n][i].started >= h[..n][i - 1].ended + Wait(h[..n][..i]) {
      assert h[..n][..i] == h[..i];
    }
  }

  /** Fifteen seconds for each attempt, less the restart of the schedule after a healthy stream. */
  function Owed(h: seq<Attempt>): int {
    if h == [] then 0
    else Owed(h[..|h| - 1]) + BACKOFF_MAX - if h[|h| - 1].outcome == Dropped(true) then 45 * SECOND else 0
  }

  lemma {:induction false} OwedAddsUp(h: seq<Attempt>)
    ensures Owed(h) == 15_000_000_000 * |h| - 45_000_000_000 * Healthy(h)
  {
    if h != [] { OwedAddsUp(h[..|h| - 1]); }
  }

  lemma {:induction false} WaitsAddUp(h: seq<Attempt>)
    requires Timely(h) && h != []
    ensures h[|h| - 1].ended + Wait(h) >= Owed(h) - Shortfall(After(h).backoff)
  {
    var p := h[..|h| - 1];
    RunIsSound(p);
    TurnPays(After(p), h[|h| - 1]);
    if p != [] {
      TimelyPrefix(h, |h| - 1);
      WaitsAddUp(p);
      assert h[|h| - 1].started >= h[|h| - 2].ended + Wait(p);
      assert p[|p| - 1] == h[|h| - 2];
    }
  }

  /** In its first T seconds the runner starts at most T/15 + 4 attempts, and three more for every
      healthy stream, whatever mix of refusals, holds, unreachable attempts and short streams they
      come to. */
  lemma AttemptsBounded(h: seq<Attempt>, T: nat)
    requires Timely(h)
    requires h != [] ==> h[|h| - 1].started <= T * 1_000_000_000
    ensures |h| <= T / 15 + 4 + 3 * Healthy(h)
  {
    if |h| > 1 {
      var p := h[..|h| - 1];
      TimelyPrefix(h, |h| - 1);
      RunIsSound(p);
      WaitsAddUp(p);
      OwedAddsUp(p);
      assert p[|p| - 1] == h[|h| - 2];
      assert Healthy(p) <= Healthy(h);
    }
  }

  /** A history in its own time has a clock that does not go back. */
  lemma TimelyIsMonotone(h: seq<Attempt>)
    requires Timely(h)
    ensures Monotone(h)
  {
    forall i, j | 0 <= i <= j < |h| ensures h[i].ended <= h[j].ended {
      EndsInOrder(h, i, j);
    }
  }

  lemma {:induction false} EndsInOrder(h: seq<Attempt>, i: nat, j: nat)
    requires Timely(h) && i <= j < |h|
    ensures h[i].ended <= h[j].ended
    decreases j
  {
    if i < j {
      EndsInOrder(h, i, j - 1);
      RunIsSound(h[..j - 1]);
      assert h[..j][..j - 1] == h[..j - 1];
      TurnPays(After(h[..j - 1]), h[j - 1]);
    }
  }

  // -------------------------------------------------------------------------
  // The runner, which updates its standing in place
  // -------------------------------------------------------------------------

  class Runner {
    var backoff: int
    var streak: nat
    var first: int
    var held: bool
    var wait: int
    var gauge: bool

    function Now(): State
      reads this
    {
      State(backoff, Standing(streak, first, held, wait), gauge)
    }

    constructor ()
      ensures Now() == FIRST_STATE
    {
      backoff, streak, first, held, wait, gauge := BACKOFF_MIN, 0, 0, false, 0, false;
    }

    /** afterConnectFailure: how long to wait after a failed connect. */
    method AfterConnectFailure(refused: bool, now: int) returns (pause: int)
      modifies this
      ensures Now() == Failed(old(Now()), refused, now)
      ensures pause == FailedWait(old(Now()), refused, now)
    {
      if refused {
        if streak == 0 {
          first := now;
        }
        streak := streak + 1;
      } else if !held {
        streak := 0;
      }
      if held {
        wait := NextBackoff(wait, HOLD_MAX);
        return wait;
      }
      if refused && streak >= REFUSAL_STREAK && now - first >= REFUSAL_GRACE {
        held := true;
        wait := HOLD_MIN;
        gauge := true;
        return wait;
      }
      pause := backoff;
      backoff := NextBackoff(backoff, BACKOFF_MAX);
    }

    /** afterConnect: the cluster accepted this machine. */
    method AfterConnect()
      modifies this
      ensures Now() == Accepted(old(Now()))
    {
      if held {
        gauge := false;
      }
      streak, first, held, wait := 0, 0, false, 0;
    }

    /** One turn of Run's loop: the wait it ends with. */
    method TakeTurn(a: Attempt) returns (pause: int)
      modifies this
      ensures Now() == Turn(old(Now()), a) && pause == TurnWait(old(Now()), a)
    {
      if !a.outcome.Dropped? {
        pause := AfterConnectFailure(a.outcome.Refused?, a.ended);
        return;
      }
      AfterConnect();
      if a.outcome.healthy {
        backoff := BACKOFF_MIN;
      }
      pause := backoff;
      backoff := NextBackoff(backoff, BACKOFF_MAX);
    }

    /** Run, over the attempts it makes before it is stopped. */
    method Run(attempts: seq<Attempt>) returns (waits: seq<int>)
      requires Now() == FIRST_STATE
      modifies this
      ensures Now() == After(attempts)
      ensures |waits| == |attempts| && forall i :: 0 <= i < |waits| ==> waits[i] == Wait(attempts[..i + 1])
    {
      waits := [];
      while |waits| < |attempts|
        invariant |waits| <= |attempts|
        invariant Now() == After(attempts[..|waits|])
        invariant forall i :: 0 <= i < |waits| ==> waits[i] == Wait(attempts[..i + 1])
      {
        var n := |waits|;
        assert attempts[..n + 1][..n] == attempts[..n];
        var pause := TakeTurn(attempts[n]);
        waits := waits + [pause];
      }
      assert attempts[..|attempts|] == attempts;
    }
  }
}
