/** The room a download still needs, and so when it is stopped, read off its events alone. */
module PullRoom {
  import opened PullDisplay

  // -------------------------------------------------------------------------
  // What was on disk when a layer was first named
  // -------------------------------------------------------------------------

  predicate IsOf(e: Progress, k: string) {
    e.status == k && HasBytes(e)
  }

  /** The first event with bytes for a layer, or |events|. */
  function FirstAt(events: seq<Progress>, k: string): (i: nat)
    ensures i <= |events|
    ensures i < |events| ==> IsOf(events[i], k)
    ensures forall j :: 0 <= j < i ==> !IsOf(events[j], k)
  {
    if events == [] then 0
    else
      var i := FirstAt(events[..|events| - 1], k);
      if i < |events| - 1 || IsOf(events[|events| - 1], k) then i else |events|
  }

  function First(events: seq<Progress>, k: string): nat {
    if FirstAt(events, k) < |events| then events[FirstAt(events, k)].completed else 0
  }

  function Above(total: nat, first: nat): nat {
    if total > first then total - first else 0
  }

  /** Each layer's total, less what its first event said was there already. */
  ghost function Rooms(events: seq<Progress>): map<string, nat> {
    map k | k in Seen(events) :: Above(MaxTotal(events, k), First(events, k))
  }

  /** In 64 bits, as the display adds it up. */
  ghost function RoomOf(events: seq<Progress>): nat {
    Wrap(Sum(Rooms(events)))
  }

  lemma FirstIs(events: seq<Progress>, k: string, i: nat)
    requires i < |events| && IsOf(events[i], k) && forall j :: 0 <= j < i ==> !IsOf(events[j], k)
    ensures FirstAt(events, k) == i && First(events, k) == events[i].completed
  {
  }

  lemma {:induction false} SeenHasFirst(events: seq<Progress>, k: string)
    ensures k in Seen(events) <==> FirstAt(events, k) < |events|
  {
    if events != [] { SeenHasFirst(events[..|events| - 1], k); }
  }

  /** One event more changes no layer's first report. */
  lemma FirstStays(events: seq<Progress>, k: string)
    requires events != []
    ensures var p, e := events[..|events| - 1], events[|events| - 1];
            && (k in Seen(p) ==> First(events, k) == First(p, k))
            && (k !in Seen(p) && IsOf(e, k) ==> First(events, k) == e.completed)
  {
    SeenHasFirst(events[..|events| - 1], k);
  }

  // -------------------------------------------------------------------------
  // The display's own sum is that room
  // -------------------------------------------------------------------------

  ghost predicate FirstsKept(layers: map<string, Layer>, events: seq<Progress>) {
    forall k :: k in layers ==> layers[k].first == First(events, k)
  }

  lemma CountedKeepsFirsts(c: Counts, events: seq<Progress>)
    requires events != [] && c.layers.Keys == Seen(events[..|events| - 1]) && FirstsKept(c.layers, events[..|events| - 1])
    ensures FirstsKept(Counted(c, events[|events| - 1]).layers, events)
  {
    var layers := Counted(c, events[|events| - 1]).layers;
    forall k | k in layers ensures layers[k].first == First(events, k) {
      FirstStays(events, k);
    }
  }

  lemma RemainingIsRoom(layers: map<string, Layer>, events: seq<Progress>)
    requires LayersAreMaxima(layers, events) && FirstsKept(layers, events)
    ensures Remaining(layers) == RoomOf(events)
  {
    assert Needs(layers) == Rooms(events);
  }

  lemma {:induction false} FirstsRun(free: nat, tty: bool, events: seq<Progress>)
    requires !After(free, tty, events).over
    ensures FirstsKept(After(free, tty, events).counts.layers, events)
  {
    if events != [] {
      var p := events[..|events| - 1];
      FirstsRun(free, tty, p);
      LayersRun(free, tty, p);
      CountedKeepsFirsts(After(free, tty, p).counts, events);
    }
  }

  /** The next event stops a pull exactly when the room then needed is known to be missing. */
  lemma NextEventStops(free: nat, tty: bool, events: seq<Progress>)
    requires events != [] && !After(free, tty, events[..|events| - 1]).over
    ensures var s := After(free, tty, events);
            && (s.over <==> free > 0 && RoomOf(events) > free)
            && (s.over ==> s.need == RoomOf(events))
  {
    var p, e := events[..|events| - 1], events[|events| - 1];
    var before := After(free, tty, p);
    FirstsRun(free, tty, p);
    LayersRun(free, tty, p);
    CountedKeepsFirsts(before.counts, events);
    CountedKeepsLayers(before.counts, events);
    RemainingIsRoom(Counted(before.counts, e).layers, events);
  }

  ghost predicate RunsOut(free: nat, events: seq<Progress>, n: nat)
    requires n <= |events|
  {
    free > 0 && RoomOf(events[..n]) > free
  }

  lemma {:induction false} GoesOnWhileItFits(free: nat, tty: bool, events: seq<Progress>, n: nat)
    requires !After(free, tty, events).over && n <= |events|
    ensures !RunsOut(free, events, n)
  {
    if n < |events| {
      var p := events[..|events| - 1];
      assert p[..n] == events[..n];
      GoesOnWhileItFits(free, tty, p, n);
    } else if events == [] {
      assert events[..n] == [] && Rooms([]) == map[];
    } else {
      assert events[..n] == events;
      NextEventStops(free, tty, events);
    }
  }

  /** The first moment the room ran out. */
  ghost predicate FirstOut(free: nat, events: seq<Progress>, n: nat)
    requires n <= |events|
  {
    RunsOut(free, events, n) && forall m :: 0 <= m < n ==> !RunsOut(free, events, m)
  }

  lemma {:induction false} StopsWhenItRunsOut(free: nat, tty: bool, events: seq<Progress>) returns (n: nat)
    requires After(free, tty, events).over
    ensures n <= |events| && FirstOut(free, events, n) && After(free, tty, events).need == RoomOf(events[..n])
  {
    var p := events[..|events| - 1];
    if After(free, tty, p).over {
      n := StopsWhenItRunsOut(free, tty, p);
    } else {
      n := |events|;
      assert events[..n] == events;
      NextEventStops(free, tty, events);
    }
    forall m | 0 <= m < n ensures !RunsOut(free, events, m) {
      assert p[..m] == events[..m];
      if n == |events| { GoesOnWhileItFits(free, tty, p, m); } else { assert !RunsOut(free, p, m); }
    }
    assert n < |events| ==> p[..n] == events[..n];
  }

  /** A pull is stopped exactly when the free space is known and, after some of its events, the layers
      still need more room than that; the need it reports is the room at the first such moment. */
  lemma StopsExactlyWhen(free: nat, tty: bool, events: seq<Progress>)
    ensures After(free, tty, events).over <==> exists n :: 0 <= n <= |events| && RunsOut(free, events, n)
    ensures After(free, tty, events).over ==>
              exists n :: 0 <= n <= |events| && FirstOut(free, events, n) && After(free, tty, events).need == RoomOf(events[..n])
  {
    if After(free, tty, events).over {
      var n := StopsWhenItRunsOut(free, tty, events);
    } else {
      forall n | 0 <= n <= |events| ensures !RunsOut(free, events, n) {
        GoesOnWhileItFits(free, tty, events, n);
      }
    }
  }

  // -------------------------------------------------------------------------
  // Without overflow the room only grows
  // -------------------------------------------------------------------------

  lemma {:induction false} SumsOrder(a: map<string, nat>, b: map<string, nat>)
    requires a.Keys <= b.Keys && forall k :: k in a ==> a[k] <= b[k]
    ensures Sum(a) <= Sum(b)
    decreases |b|
  {
    if k :| k in b {
      Fewer(b, k);
      SumPicks(b, k);
      if k in a { SumPicks(a, k); }
      assert k !in a ==> a - {k} == a;
      SumsOrder(a - {k}, b - {k});
    } else {
      assert a == map[];
    }
  }

  lemma RoomWithinTotals(events: seq<Progress>)
    ensures Sum(Rooms(events)) <= Sum(Totals(events))
  {
    SumsOrder(Rooms(events), Totals(events));
  }

  lemma {:induction false} RoomGrows(events: seq<Progress>, n: nat)
    requires n <= |events|
    ensures Sum(Rooms(events[..n])) <= Sum(Rooms(events)) && Sum(Totals(events[..n])) <= Sum(Totals(events))
  {
    if n == |events| {
      assert events[..n] == events;
    } else {
      var p := events[..|events| - 1];
      assert p[..n] == events[..n];
      RoomGrows(p, n);
      forall k | k in Rooms(p) ensures k in Rooms(events) && Rooms(p)[k] <= Rooms(events)[k] {
        FirstStays(events, k);
      }
      SumsOrder(Rooms(p), Rooms(events));
      SumsOrder(Totals(p), Totals(events));
    }
  }

  /** Without overflow a pull is stopped exactly when the room its events leave it needing is more than
      is known to be free. */
  lemma StopsByItsLastRoom(free: nat, tty: bool, events: seq<Progress>)
    requires Sum(Totals(events)) < TWO_64
    ensures After(free, tty, events).over <==> free > 0 && Sum(Rooms(events)) > free
  {
    StopsExactlyWhen(free, tty, events);
    RoomWithinTotals(events);
    assert events[..|events|] == events;
    if After(free, tty, events).over {
      var n :| 0 <= n <= |events| && RunsOut(free, events, n);
      RoomGrows(events, n);
      RoomWithinTotals(events[..n]);
    } else {
      assert !RunsOut(free, events, |events|);
    }
  }

  // -------------------------------------------------------------------------
  // What order decides
  // -------------------------------------------------------------------------

  ghost predicate SameEvents(a: seq<Progress>, b: seq<Progress>) {
    forall e :: e in a <==> e in b
  }

  lemma SameMaxima(a: seq<Progress>, b: seq<Progress>)
    requires SameEvents(a, b)
    ensures Seen(a) == Seen(b) && forall k: string :: MaxTotal(a, k) == MaxTotal(b, k)
    ensures Totals(a) == Totals(b)
  {
    forall k: string ensures MaxTotal(a, k) == MaxTotal(b, k) && (k in Seen(a) <==> k in Seen(b)) {
      MaximaOfMore(a, b, k);
      MaximaOfMore(b, a, k);
    }
  }

  /** Two runs of one set of events whose layers' first reports agree need the same room. */
  lemma RoomFollowsFirsts(a: seq<Progress>, b: seq<Progress>)
    requires SameEvents(a, b) && forall k :: k in Seen(a) ==> First(a, k) == First(b, k)
    ensures RoomOf(a) == RoomOf(b)
  {
    SameMaxima(a, b);
    assert Rooms(a) == Rooms(b);
  }

  /** What a layer would need if this event were the first to name it. */
  function RoomAfter(events: seq<Progress>, e: Progress): nat {
    Above(MaxTotal(events, e.status), e.completed)
  }

  /** All the events of each layer would leave it needing the same. */
  ghost predicate FirstsDoNotMatter(events: seq<Progress>) {
    forall e, f :: e in events && f in events && HasBytes(e) && HasBytes(f) && e.status == f.status ==>
      RoomAfter(events, e) == RoomAfter(events, f)
  }

  lemma AnyOrderNeeds(events: seq<Progress>, order: seq<Progress>, e: Progress)
    requires FirstsDoNotMatter(events) && SameEvents(order, events) && e in events && HasBytes(e)
    ensures e.status in Rooms(order) && Rooms(order)[e.status] == RoomAfter(events, e)
  {
    SameMaxima(order, events);
    MaximaCover(events, e);
    SeenHasFirst(order, e.status);
    assert order[FirstAt(order, e.status)] in order;
  }

  lemma OrdersAgree(events: seq<Progress>, a: seq<Progress>, b: seq<Progress>)
    requires FirstsDoNotMatter(events) && SameEvents(a, events) && SameEvents(b, events)
    ensures RoomOf(a) == RoomOf(b)
  {
    SameMaxima(a, events);
    SameMaxima(b, events);
    forall k | k in Seen(events) ensures Rooms(a)[k] == Rooms(b)[k] {
      SeenHasFirst(events, k);
      var e := events[FirstAt(events, k)];
      AnyOrderNeeds(events, a, e);
      AnyOrderNeeds(events, b, e);
    }
    assert Rooms(a) == Rooms(b);
  }

  /** The events with one of them moved to the front. */
  function Fronted(events: seq<Progress>, i: nat): seq<Progress>
    requires i < |events|
  {
    [events[i]] + (events[..i] + events[i + 1..])
  }

  lemma FrontedIsAnOrder(events: seq<Progress>, i: nat)
    requires i < |events|
    ensures multiset(Fronted(events, i)) == multiset(events) && SameEvents(Fronted(events, i), events)
  {
    assert events == events[..i] + ([events[i]] + events[i + 1..]);
    SameMultiset(Fronted(events, i), events);
  }

  lemma SameMultiset(a: seq<Progress>, b: seq<Progress>)
    requires multiset(a) == multiset(b)
    ensures SameEvents(a, b)
  {
    forall e ensures e in a <==> e in b {
      assert e in a <==> e in multiset(a);
      assert e in b <==> e in multiset(b);
    }
  }

  /** Moving an event to the front makes it its own layer's first, and no other layer's. */
  lemma FrontedFirst(events: seq<Progress>, i: nat, k: string)
    requires i < |events| && HasBytes(events[i])
    ensures First(Fronted(events, i), k) == if k == events[i].status then events[i].completed else First(events, k)
  {
    var a := Fronted(events, i);
    if k == events[i].status {
      FirstIs(a, k, 0);
    } else {
      var j := FirstAt(events, k);
      if j < |events| {
        FirstIs(a, k, if j < i then j + 1 else j);
      } else {
        assert forall m :: 0 <= m < |a| ==> !IsOf(a[m], k);
      }
    }
  }

  lemma FrontedRooms(events: seq<Progress>, i: nat)
    requires i < |events| && HasBytes(events[i])
    ensures Rooms(Fronted(events, i)) == Rooms(events)[events[i].status := RoomAfter(events, events[i])]
  {
    FrontedIsAnOrder(events, i);
    SameMaxima(Fronted(events, i), events);
    MaximaCover(events, events[i]);
    forall k: string ensures First(Fronted(events, i), k) == if k == events[i].status then events[i].completed else First(events, k) {
      FrontedFirst(events, i, k);
    }
  }

  lemma OrdersDisagree(events: seq<Progress>, i: nat, j: nat)
    requires i < |events| && j < |events| && HasBytes(events[i]) && HasBytes(events[j]) && events[i].status == events[j].status
    requires RoomAfter(events, events[i]) != RoomAfter(events, events[j]) && Sum(Totals(events)) < TWO_64
    ensures RoomOf(Fronted(events, i)) != RoomOf(Fronted(events, j))
  {
    FrontedRooms(events, i);
    FrontedRooms(events, j);
    SumUpdates(Rooms(events), events[i].status, RoomAfter(events, events[i]));
    SumUpdates(Rooms(events), events[i].status, RoomAfter(events, events[j]));
    FrontedWithin(events, i);
    FrontedWithin(events, j);
  }

  lemma FrontedWithin(events: seq<Progress>, i: nat)
    requires i < |events| && Sum(Totals(events)) < TWO_64
    ensures RoomOf(Fronted(events, i)) == Sum(Rooms(Fronted(events, i)))
  {
    FrontedIsAnOrder(events, i);
    SameMaxima(Fronted(events, i), events);
    RoomWithinTotals(Fronted(events, i));
  }

  /** Without overflow, every order of a download's events needs the same room exactly when, layer by
      layer, each of its events would leave as much to fetch as any other, were it the first. */
  lemma OrderDecidesNothingExactlyWhen(events: seq<Progress>)
    requires Sum(Totals(events)) < TWO_64
    ensures (forall a, b :: multiset(a) == multiset(events) && multiset(b) == multiset(events) ==> RoomOf(a) == RoomOf(b))
            <==> FirstsDoNotMatter(events)
  {
    if FirstsDoNotMatter(events) {
      forall a, b | multiset(a) == multiset(events) && multiset(b) == multiset(events) ensures RoomOf(a) == RoomOf(b) {
        SameMultiset(a, events);
        SameMultiset(b, events);
        OrdersAgree(events, a, b);
      }
    } else {
      var e, f :| e in events && f in events && HasBytes(e) && HasBytes(f) && e.status == f.status
                  && RoomAfter(events, e) != RoomAfter(events, f);
      var i :| 0 <= i < |events| && events[i] == e;
      var j :| 0 <= j < |events| && events[j] == f;
      OrdersDisagree(events, i, j);
      FrontedIsAnOrder(events, i);
      FrontedIsAnOrder(events, j);
    }
  }
}
