/** A model download's progress display: per-layer counts added up from events that repeat and arrive
    out of order, a percentage that never falls, and a stop when the disk is too small. */
module PullDisplay {
  import opened Basics

  const TWO_64 := 0x1_0000_0000_0000_0000
  const TWO_63 := 0x8000_0000_0000_0000

  /** An unsigned 64-bit result: n modulo two to the sixty-fourth. */
  function Wrap(n: nat): (r: nat)
    ensures r < TWO_64 && (n < TWO_64 ==> r == n)
  {
    if n < TWO_64 then n else Wrap(n - TWO_64)
  }

  lemma {:induction false} WrapAdds(a: nat, b: nat)
    ensures Wrap(Wrap(a) + b) == Wrap(a + b)
  {
    if a >= TWO_64 { WrapAdds(a - TWO_64, b); }
  }

  /** The conversion of an unsigned 64-bit value to a signed one. */
  function Signed(n: nat): int {
    if n < TWO_63 then n else n - TWO_64
  }

  datatype Progress = Progress(status: string, completed: nat, total: nat)

  datatype Layer = Layer(completed: nat, total: nat, first: nat)

  /** What has been printed: a new total, a status, a tenth of the download, a redrawn bar. */
  datatype Print = TotalLine(total: nat) | StatusLine(status: string) | TenthLine(percent: int) | Bar(percent: int)

  /** The counts, and what of them is shown. */
  datatype Counts = Counts(layers: map<string, Layer>, completed: nat, total: nat, percent: int)
  datatype Shown = Shown(announced: nat, status: string, decile: int, log: seq<Print>)
  datatype State = State(counts: Counts, shown: Shown, over: bool, need: nat, stops: nat)

  const START := State(Counts(map[], 0, 0, 0), Shown(0, "", -1, []), false, 0, 0)

  // -------------------------------------------------------------------------
  // Sums over a map, in whatever order it is walked
  // -------------------------------------------------------------------------

  ghost function Sum(m: map<string, nat>): nat
    decreases |m|
  {
    if m == map[] then 0
    else
      var k :| k in m;
      assert m[k := m[k]] == m;
      Fewer(m, k);
      m[k] + Sum(m - {k})
  }

  lemma Fewer(m: map<string, nat>, k: string)
    requires k in m
    ensures |m - {k}| < |m|
  {
    assert (m - {k}).Keys == m.Keys - {k};
    assert |m.Keys - {k}| == |m.Keys| - 1;
  }

  /** Any key can be counted first. */
  lemma {:induction false} SumPicks(m: map<string, nat>, k: string)
    requires k in m
    ensures Sum(m) == m[k] + Sum(m - {k})
    decreases |m|
  {
    var j :| j in m && Sum(m) == m[j] + Sum(m - {j});
    if j != k {
      Fewer(m, j);
      Fewer(m, k);
      SumPicks(m - {j}, k);
      SumPicks(m - {k}, j);
      assert m - {j} - {k} == m - {k} - {j};
    }
  }

  /** One layer more of a sum that is kept in 64 bits. */
  lemma SumSteps(n: nat, rest: map<string, nat>, k: string)
    requires k in rest && n < TWO_64
    ensures Wrap(Wrap(n + rest[k]) + Sum(rest - {k})) == Wrap(n + Sum(rest))
    ensures rest[k] == 0 ==> Wrap(n + Sum(rest - {k})) == Wrap(n + Sum(rest))
  {
    SumPicks(rest, k);
    WrapAdds(n + rest[k], Sum(rest - {k}));
  }

  lemma NothingLeft(n: nat, rest: map<string, nat>)
    requires rest.Keys == {} && n < TWO_64
    ensures Wrap(n + Sum(rest)) == n
  {
    assert rest == map[];
  }

  lemma SumUpdates(m: map<string, nat>, k: string, v: nat)
    ensures Sum(m[k := v]) == Sum(m) + v - if k in m then m[k] else 0
  {
    SumPicks(m[k := v], k);
    if k in m {
      SumPicks(m, k);
      assert m[k := v] - {k} == m - {k};
    } else {
      assert m[k := v] - {k} == m;
    }
  }

  // -------------------------------------------------------------------------
  // handle
  // -------------------------------------------------------------------------

  function LayerOf(layers: map<string, Layer>, e: Progress): Layer {
    if e.status in layers then layers[e.status] else Layer(0, 0, e.completed)
  }

  function Max(a: nat, b: nat): nat {
    if a < b then b else a
  }

  function Plus(sum: nat, more: nat): nat {
    if more == 0 then sum else Wrap(sum + more)
  }

  /** One event added up: a layer's counts only grow, and the sums by what they grew. */
  function Counted(c: Counts, e: Progress): Counts {
    if e.total == 0 && e.completed == 0 then c
    else
      var l := LayerOf(c.layers, e);
      var done, all := Max(l.completed, e.completed), Max(l.total, e.total);
      Counts(c.layers[e.status := Layer(done, all, l.first)],
             Plus(c.completed, done - l.completed), Plus(c.total, all - l.total), c.percent)
  }

  function TruePercent(c: Counts): int {
    if c.total == 0 then 0
    else
      var pct := Signed(Wrap(c.completed * 100) / c.total);
      if pct > 100 then 100 else pct
  }

  function Moved(c: Counts): Counts {
    if TruePercent(c) > c.percent then c.(percent := TruePercent(c)) else c
  }

  function StillNeeded(l: Layer): nat {
    if l.total > l.first then l.total - l.first else 0
  }

  ghost function Needs(layers: map<string, Layer>): map<string, nat> {
    map k | k in layers :: StillNeeded(layers[k])
  }

  ghost function Remaining(layers: map<string, Layer>): nat {
    Wrap(Sum(Needs(layers)))
  }

  predicate IsByteStatus(status: string) {
    "pulling " <= status && status != "pulling manifest"
  }

  function Announced(d: Shown, c: Counts): Shown {
    if c.total == 0 || c.total == d.announced then d
    else d.(announced := c.total, log := d.log + [TotalLine(c.total)])
  }

  function StatusShown(d: Shown, status: string): Shown {
    if status == "" || status == d.status then d
    else if IsByteStatus(status) then d.(status := status)
    else d.(status := status, log := d.log + [StatusLine(status)])
  }

  function TenthShown(d: Shown, c: Counts): Shown {
    if c.total == 0 || c.percent / 10 <= d.decile then d
    else d.(decile := c.percent / 10, log := d.log + [TenthLine(c.percent)])
  }

  function DrawnLog(d: Shown, c: Counts, status: string): Shown {
    TenthShown(StatusShown(Announced(d, c), status), c)
  }

  function DrawnTTY(d: Shown, c: Counts): Shown {
    var d := Announced(d, c);
    d.(log := d.log + [Bar(c.percent)])
  }

  ghost function Handled(free: nat, tty: bool, s: State, e: Progress): State {
    if s.over then s
    else
      var c := Moved(Counted(s.counts, e));
      if free > 0 && Remaining(c.layers) > free then
        s.(counts := c, over := true, need := Remaining(c.layers), stops := s.stops + 1)
      else s.(counts := c, shown := if tty then DrawnTTY(s.shown, c) else DrawnLog(s.shown, c, e.status))
  }

  ghost function After(free: nat, tty: bool, events: seq<Progress>): State {
    if events == [] then START
    else Handled(free, tty, After(free, tty, events[..|events| - 1]), events[|events| - 1])
  }

  // -------------------------------------------------------------------------
  // The sums are the sums of each layer's maxima
  // -------------------------------------------------------------------------

  function MaxCompleted(events: seq<Progress>, k: string): nat {
    if events == [] then 0
    else
      var e := events[|events| - 1];
      Max(MaxCompleted(events[..|events| - 1], k), if e.status == k then e.completed else 0)
  }

  function MaxTotal(events: seq<Progress>, k: string): nat {
    if events == [] then 0
    else
      var e := events[|events| - 1];
      Max(MaxTotal(events[..|events| - 1], k), if e.status == k then e.total else 0)
  }

  predicate HasBytes(e: Progress) {
    e.total > 0 || e.completed > 0
  }

  function Seen(events: seq<Progress>): set<string> {
    if events == [] then {}
    else
      var before, e := Seen(events[..|events| - 1]), events[|events| - 1];
      if HasBytes(e) then before + {e.status} else before
  }

  ghost function Completeds(events: seq<Progress>): map<string, nat> {
    map k | k in Seen(events) :: MaxCompleted(events, k)
  }

  ghost function Totals(events: seq<Progress>): map<string, nat> {
    map k | k in Seen(events) :: MaxTotal(events, k)
  }

  lemma {:induction false} UnseenIsZero(events: seq<Progress>, k: string)
    requires k !in Seen(events)
    ensures MaxCompleted(events, k) == 0 && MaxTotal(events, k) == 0
  {
    if events != [] { UnseenIsZero(events[..|events| - 1], k); }
  }

  ghost predicate LayersAreMaxima(layers: map<string, Layer>, events: seq<Progress>) {
    && layers.Keys == Seen(events)
    && forall k :: k in layers ==> layers[k].completed == MaxCompleted(events, k) && layers[k].total == MaxTotal(events, k)
  }

  lemma SumsGrow(events: seq<Progress>)
    requires events != []
    ensures var p, e := events[..|events| - 1], events[|events| - 1];
            && Sum(Completeds(events)) == Sum(Completeds(p)) + MaxCompleted(events, e.status) - MaxCompleted(p, e.status)
            && Sum(Totals(events)) == Sum(Totals(p)) + MaxTotal(events, e.status) - MaxTotal(p, e.status)
  {
    var p, e := events[..|events| - 1], events[|events| - 1];
    if HasBytes(e) {
      if e.status !in Seen(p) { UnseenIsZero(p, e.status); }
      assert Completeds(events) == Completeds(p)[e.status := MaxCompleted(events, e.status)];
      assert Totals(events) == Totals(p)[e.status := MaxTotal(events, e.status)];
      SumUpdates(Completeds(p), e.status, MaxCompleted(events, e.status));
      SumUpdates(Totals(p), e.status, MaxTotal(events, e.status));
    } else {
      assert Completeds(events) == Completeds(p) && Totals(events) == Totals(p);
    }
  }

  lemma CountedKeepsLayers(c: Counts, events: seq<Progress>)
    requires events != [] && LayersAreMaxima(c.layers, events[..|events| - 1])
    ensures LayersAreMaxima(Counted(c, events[|events| - 1]).layers, events)
  {
    var p, e := events[..|events| - 1], events[|events| - 1];
    if HasBytes(e) && e.status !in Seen(p) { UnseenIsZero(p, e.status); }
  }

  /** What a layer's counts grow by is what its maxima do. */
  lemma LayerGrows(layers: map<string, Layer>, events: seq<Progress>)
    requires events != [] && LayersAreMaxima(layers, events[..|events| - 1])
    ensures var p, e := events[..|events| - 1], events[|events| - 1];
            var l := LayerOf(layers, e);
            && l.completed == MaxCompleted(p, e.status) && l.total == MaxTotal(p, e.status)
            && Max(l.completed, e.completed) == MaxCompleted(events, e.status)
            && Max(l.total, e.total) == MaxTotal(events, e.status)
  {
    var p, e := events[..|events| - 1], events[|events| - 1];
    if e.status !in Seen(p) { UnseenIsZero(p, e.status); }
  }

  lemma PlusWraps(sum: nat, more: nat)
    ensures Plus(Wrap(sum), more) == Wrap(sum + more)
  {
    WrapAdds(sum, more);
  }

  lemma CountedSums(c: Counts, e: Progress, completed: nat, total: nat)
    requires c.completed == Wrap(completed) && c.total == Wrap(total)
    ensures var l := LayerOf(c.layers, e);
            && Counted(c, e).completed == Wrap(if HasBytes(e) then completed + (Max(l.completed, e.completed) - l.completed) else completed)
            && Counted(c, e).total == Wrap(if HasBytes(e) then total + (Max(l.total, e.total) - l.total) else total)
  {
    var l := LayerOf(c.layers, e);
    PlusWraps(completed, Max(l.completed, e.completed) - l.completed);
    PlusWraps(total, Max(l.total, e.total) - l.total);
  }

  lemma HandledCounts(free: nat, tty: bool, s: State, e: Progress)
    requires !s.over
    ensures Handled(free, tty, s, e).counts == Moved(Counted(s.counts, e))
  {
  }

  lemma HandledSums(free: nat, tty: bool, s: State, e: Progress, completed: nat, total: nat, completed': nat, total': nat)
    requires !s.over && s.counts.completed == Wrap(completed) && s.counts.total == Wrap(total)
    requires var l := LayerOf(s.counts.layers, e);
             && completed' == (if HasBytes(e) then completed + (Max(l.completed, e.completed) - l.completed) else completed)
             && total' == (if HasBytes(e) then total + (Max(l.total, e.total) - l.total) else total)
    ensures Handled(free, tty, s, e).counts.completed == Wrap(completed') && Handled(free, tty, s, e).counts.total == Wrap(total')
  {
    CountedSums(s.counts, e, completed, total);
    HandledCounts(free, tty, s, e);
  }

  lemma {:induction false} LayersRun(free: nat, tty: bool, events: seq<Progress>)
    requires !After(free, tty, events).over
    ensures LayersAreMaxima(After(free, tty, events).counts.layers, events)
  {
    if events != [] {
      LayersRun(free, tty, events[..|events| - 1]);
      CountedKeepsLayers(After(free, tty, events[..|events| - 1]).counts, events);
    }
  }

  lemma SumsFollow(free: nat, tty: bool, events: seq<Progress>)
    requires events != [] && !After(free, tty, events).over
    ensures var p, e := events[..|events| - 1], events[|events| - 1];
            var l := LayerOf(After(free, tty, p).counts.layers, e);
            && Sum(Completeds(events)) == (if HasBytes(e) then Sum(Completeds(p)) + (Max(l.completed, e.completed) - l.completed) else Sum(Completeds(p)))
            && Sum(Totals(events)) == (if HasBytes(e) then Sum(Totals(p)) + (Max(l.total, e.total) - l.total) else Sum(Totals(p)))
  {
    LayersRun(free, tty, events[..|events| - 1]);
    LayerGrows(After(free, tty, events[..|events| - 1]).counts.layers, events);
    SumsGrow(events);
  }

  /** Until the pull is stopped for space, the bytes shown are the sums over the layers of the most
      each has reported, in 64 bits. */
  lemma {:induction false} CountsAreMaxima(free: nat, tty: bool, events: seq<Progress>)
    requires !After(free, tty, events).over
    ensures After(free, tty, events).counts.completed == Wrap(Sum(Completeds(events)))
    ensures After(free, tty, events).counts.total == Wrap(Sum(Totals(events)))
  {
    if events == [] {
      assert Completeds(events) == map[] && Totals(events) == map[];
    } else {
      var p, e := events[..|events| - 1], events[|events| - 1];
      CountsAreMaxima(free, tty, p);
      SumsFollow(free, tty, events);
      HandledSums(free, tty, After(free, tty, p), e, Sum(Completeds(p)), Sum(Totals(p)), Sum(Completeds(events)), Sum(Totals(events)));
    }
  }

  // -------------------------------------------------------------------------
  // Neither order nor repetition changes them
  // -------------------------------------------------------------------------

  lemma {:induction false} MaximaCover(events: seq<Progress>, e: Progress)
    requires e in events
    ensures MaxCompleted(events, e.status) >= e.completed && MaxTotal(events, e.status) >= e.total
    ensures HasBytes(e) ==> e.status in Seen(events)
  {
    if e != events[|events| - 1] { MaximaCover(events[..|events| - 1], e); }
  }

  lemma {:induction false} MaximaAreReached(events: seq<Progress>, k: string)
    ensures MaxCompleted(events, k) > 0 ==> exists e :: e in events && e.status == k && e.completed == MaxCompleted(events, k)
    ensures MaxTotal(events, k) > 0 ==> exists e :: e in events && e.status == k && e.total == MaxTotal(events, k)
    ensures k in Seen(events) ==> exists e :: e in events && e.status == k && HasBytes(e)
  {
    if events != [] {
      MaximaAreReached(events[..|events| - 1], k);
      assert events[|events| - 1] in events;
    }
  }

  lemma MaximaOfMore(a: seq<Progress>, b: seq<Progress>, k: string)
    requires forall e :: e in a ==> e in b
    ensures MaxCompleted(a, k) <= MaxCompleted(b, k) && MaxTotal(a, k) <= MaxTotal(b, k)
    ensures k in Seen(a) ==> k in Seen(b)
  {
    MaximaAreReached(a, k);
    if MaxCompleted(a, k) > 0 {
      var e :| e in a && e.status == k && e.completed == MaxCompleted(a, k);
      MaximaCover(b, e);
    }
    if MaxTotal(a, k) > 0 {
      var e :| e in a && e.status == k && e.total == MaxTotal(a, k);
      MaximaCover(b, e);
    }
    if k in Seen(a) {
      var e :| e in a && e.status == k && HasBytes(e);
      MaximaCover(b, e);
    }
  }

  /** Two downloads that saw the same events, in any order and any number of times each, show the
      same bytes, so long as neither was stopped for space. */
  lemma OrderAndRepetitionDoNotMatter(free: nat, tty: bool, a: seq<Progress>, b: seq<Progress>)
    requires forall e :: e in a <==> e in b
    requires !After(free, tty, a).over && !After(free, tty, b).over
    ensures After(free, tty, a).counts.completed == After(free, tty, b).counts.completed
    ensures After(free, tty, a).counts.total == After(free, tty, b).counts.total
  {
    CountsAreMaxima(free, tty, a);
    CountsAreMaxima(free, tty, b);
    forall k: string
      ensures MaxCompleted(a, k) == MaxCompleted(b, k) && MaxTotal(a, k) == MaxTotal(b, k) && (k in Seen(a) <==> k in Seen(b))
    {
      MaximaOfMore(a, b, k);
      MaximaOfMore(b, a, k);
    }
    assert Completeds(a) == Completeds(b) && Totals(a) == Totals(b);
  }

  // -------------------------------------------------------------------------
  // What is shown
  // -------------------------------------------------------------------------

  function Tenths(log: seq<Print>): nat {
    if log == [] then 0 else Tenths(log[..|log| - 1]) + if log[|log| - 1].TenthLine? then 1 else 0
  }

  lemma TenthsMore(log: seq<Print>, p: Print)
    ensures Tenths(log + [p]) == Tenths(log) + if p.TenthLine? then 1 else 0
  {
    assert (log + [p])[..|log|] == log;
  }

  ghost predicate ShownOk(s: State) {
    && 0 <= s.counts.percent <= 100 && TruePercent(s.counts) <= s.counts.percent
    && TenthsOk(s.shown)
    && s.stops == if s.over then 1 else 0
  }

  ghost predicate TenthsOk(d: Shown) {
    -1 <= d.decile <= 10 && Tenths(d.log) <= d.decile + 1
  }

  lemma AnnouncedKeepsTenths(d: Shown, c: Counts)
    ensures Announced(d, c).decile == d.decile && Tenths(Announced(d, c).log) == Tenths(d.log)
  {
    TenthsMore(d.log, TotalLine(c.total));
  }

  lemma StatusKeepsTenths(d: Shown, status: string)
    ensures StatusShown(d, status).decile == d.decile && Tenths(StatusShown(d, status).log) == Tenths(d.log)
  {
    TenthsMore(d.log, StatusLine(status));
  }

  lemma TenthKeepsTenths(d: Shown, c: Counts)
    requires TenthsOk(d) && 0 <= c.percent <= 100
    ensures TenthsOk(TenthShown(d, c))
  {
    TenthsMore(d.log, TenthLine(c.percent));
  }

  lemma DrawnKeepsTenths(d: Shown, c: Counts, status: string)
    requires TenthsOk(d) && 0 <= c.percent <= 100
    ensures TenthsOk(DrawnLog(d, c, status)) && TenthsOk(DrawnTTY(d, c))
  {
    AnnouncedKeepsTenths(d, c);
    StatusKeepsTenths(Announced(d, c), status);
    TenthKeepsTenths(StatusShown(Announced(d, c), status), c);
    TenthsMore(Announced(d, c).log, Bar(c.percent));
  }

  lemma HandledKeepsShown(free: nat, tty: bool, s: State, e: Progress)
    requires ShownOk(s)
    ensures ShownOk(Handled(free, tty, s, e))
    ensures Handled(free, tty, s, e).counts.percent >= s.counts.percent
    ensures s.over ==> Handled(free, tty, s, e) == s
    ensures Handled(free, tty, s, e).over ==> Handled(free, tty, s, e).shown == s.shown
  {
    DrawnKeepsTenths(s.shown, Moved(Counted(s.counts, e)), e.status);
  }

  lemma {:induction false} RunKeepsShown(free: nat, tty: bool, events: seq<Progress>)
    ensures ShownOk(After(free, tty, events))
  {
    if events != [] {
      RunKeepsShown(free, tty, events[..|events| - 1]);
      HandledKeepsShown(free, tty, After(free, tty, events[..|events| - 1]), events[|events| - 1]);
    }
  }

  /** The percentage shown never falls and never passes one hundred, at most eleven lines of a log are
      tenths of the download, and once the pull is being stopped nothing more is drawn. */
  lemma {:induction false} ShownOverARun(free: nat, tty: bool, events: seq<Progress>, n: nat)
    requires n <= |events|
    ensures var was, s := After(free, tty, events[..n]), After(free, tty, events);
            && 0 <= was.counts.percent <= s.counts.percent <= 100
            && Tenths(s.shown.log) <= 11
            && (was.over ==> s == was)
  {
    RunKeepsShown(free, tty, events);
    if n == |events| {
      assert events[..n] == events;
    } else {
      var p := events[..|events| - 1];
      assert p[..n] == events[..n];
      ShownOverARun(free, tty, p, n);
      RunKeepsShown(free, tty, p);
      HandledKeepsShown(free, tty, After(free, tty, p), events[|events| - 1]);
    }
  }

  lemma {:induction false} PercentWasReached(free: nat, tty: bool, events: seq<Progress>) returns (n: nat)
    ensures n <= |events|
    ensures var p := After(free, tty, events).counts.percent; p == 0 || TruePercent(After(free, tty, events[..n]).counts) == p
  {
    n := |events|;
    assert events[..n] == events;
    if events != [] && After(free, tty, events).counts.percent != TruePercent(After(free, tty, events).counts) {
      n := PercentWasReached(free, tty, events[..|events| - 1]);
      assert events[..|events| - 1][..n] == events[..n];
    }
  }

  /** The percentage shown is the furthest the download has been. */
  lemma PercentIsFurthest(free: nat, tty: bool, events: seq<Progress>)
    ensures var p := After(free, tty, events).counts.percent;
            && (forall n :: 0 <= n <= |events| ==> TruePercent(After(free, tty, events[..n]).counts) <= p)
            && (p == 0 || exists n :: 0 <= n <= |events| && TruePercent(After(free, tty, events[..n]).counts) == p)
  {
    forall n | 0 <= n <= |events|
      ensures TruePercent(After(free, tty, events[..n]).counts) <= After(free, tty, events).counts.percent
    {
      ShownOverARun(free, tty, events, n);
      RunKeepsShown(free, tty, events[..n]);
    }
    var n := PercentWasReached(free, tty, events);
  }

  /** Without overflow it is the whole percentage of the bytes, and never more than a hundred. */
  lemma PercentOfBytes(c: Counts)
    requires c.completed * 100 < TWO_63 && c.total > 0
    ensures TruePercent(c) == if c.completed * 100 / c.total > 100 then 100 else c.completed * 100 / c.total
  {
    assert c.completed * 100 / c.total <= c.completed * 100;
  }

  lemma SumOfOne(k: string, v: nat)
    ensures Sum(map[k := v]) == v
  {
    SumPicks(map[k := v], k);
    assert map[k := v] - {k} == map[];
  }

  lemma TwoEvents(free: nat, a: Progress, b: Progress)
    ensures After(free, true, [a, b]) == Handled(free, true, Handled(free, true, START, a), b)
  {
    assert [a, b][..1] == [a] && [a][..0] == [];
    assert After(free, true, [a]) == Handled(free, true, After(free, true, []), a);
  }

  lemma OneLayer(k: string, l: Layer)
    ensures Remaining(map[k := l]) == Wrap(StillNeeded(l))
  {
    assert Needs(map[k := l]) == map[k := StillNeeded(l)];
    SumOfOne(k, StillNeeded(l));
  }

  lemma FirstEvent(free: nat, e: Progress)
    requires HasBytes(e)
    ensures var s := Handled(free, true, START, e);
            && s.counts.layers == map[e.status := Layer(e.completed, e.total, e.completed)]
            && (s.over <==> free > 0 && Remaining(s.counts.layers) > free)
  {
    assert map[][e.status := Layer(e.completed, e.total, e.completed)] == map[e.status := Layer(e.completed, e.total, e.completed)];
  }

  lemma AgainFull(free: nat, k: string, size: nat)
    requires size > 0
    ensures var s := Handled(free, true, START, Progress(k, size, size));
            Handled(free, true, s, Progress(k, 0, size)).counts.layers == map[k := Layer(size, size, size)]
  {
    FirstEvent(free, Progress(k, size, size));
    assert map[k := Layer(size, size, size)][k := Layer(size, size, size)] == map[k := Layer(size, size, size)];
  }

  /** The room still needed does depend on order: what a layer already had is taken from the first
      event that names it, so the same two events stop one download and not the other. */
  lemma FirstReportDecides(k: string, size: nat, free: nat)
    requires 0 < free < size < 1_000_000
    ensures var none, all := Progress(k, 0, size), Progress(k, size, size);
            After(free, true, [none, all]).over && !After(free, true, [all, none]).over
  {
    var none, all := Progress(k, 0, size), Progress(k, size, size);
    TwoEvents(free, none, all);
    TwoEvents(free, all, none);
    FirstEvent(free, none);
    FirstEvent(free, all);
    OneLayer(k, Layer(0, size, 0));
    OneLayer(k, Layer(size, size, size));
    AgainFull(free, k, size);
  }

  // -------------------------------------------------------------------------
  // The display, which keeps its counts in place
  // -------------------------------------------------------------------------

  class Display {
    const free: nat
    const tty: bool
    var layers: map<string, Layer>
    var completed: nat
    var total: nat
    var percent: int
    var shown: Shown
    var over: bool
    var need: nat
    var stops: nat

    function Now(): State
      reads this
    {
      State(Counts(layers, completed, total, percent), shown, over, need, stops)
    }

    constructor (free: nat, tty: bool)
      ensures this.free == free && this.tty == tty && Now() == START
    {
      this.free, this.tty := free, tty;
      layers, completed, total, percent := map[], 0, 0, 0;
      shown, over, need, stops := START.shown, false, 0, 0;
    }

    /** remaining walks the layers in any order. */
    method StillToWrite() returns (n: nat)
      ensures n == Remaining(layers)
    {
      n := Walk(layers, Needs(layers));
    }

    static method Walk(layers: map<string, Layer>, ghost needs: map<string, nat>) returns (n: nat)
      requires needs.Keys == layers.Keys && forall k :: k in layers ==> needs[k] == StillNeeded(layers[k])
      ensures n == Wrap(Sum(needs))
    {
      n := 0;
      var left := layers.Keys;
      ghost var rest, goal := needs, Wrap(Sum(needs));
      while left != {}
        invariant left <= layers.Keys && rest.Keys == left
        invariant forall k :: k in left ==> rest[k] == StillNeeded(layers[k])
        invariant n < TWO_64 && Wrap(n + Sum(rest)) == goal
        decreases |left|
      {
        var k :| k in left;
        var l := layers[k];
        SumSteps(n, rest, k);
        if l.total > l.first {
          n := Wrap(n + (l.total - l.first));
        }
        left, rest := left - {k}, rest - {k};
      }
      NothingLeft(n, rest);
    }

    method Count(e: Progress)
      modifies `layers, `completed, `total, `percent
      ensures Counts(layers, completed, total, percent) == Moved(Counted(old(Now()).counts, e))
    {
      if e.total > 0 || e.completed > 0 {
        var l := if e.status in layers then layers[e.status] else Layer(0, 0, e.completed);
        if e.total > l.total {
          total := Wrap(total + (e.total - l.total));
          l := l.(total := e.total);
        }
        if e.completed > l.completed {
          completed := Wrap(completed + (e.completed - l.completed));
          l := l.(completed := e.completed);
        }
        layers := layers[e.status := l];
      }
      var pct := TruePercent(Counts(layers, completed, total, percent));
      if pct > percent {
        percent := pct;
      }
    }

    method Handle(e: Progress)
      modifies this
      ensures Now() == Handled(free, tty, old(Now()), e)
    {
      if over {
        return;
      }
      Count(e);
      var remaining := StillToWrite();
      if free > 0 && remaining > free {
        over := true;
        need := remaining;
        stops := stops + 1;
        return;
      }
      var c := Counts(layers, completed, total, percent);
      if tty {
        shown := DrawnTTY(shown, c);
      } else {
        shown := DrawnLog(shown, c, e.status);
      }
    }
  }
}
