/** The homes of the enrollment registry, and which of them this machine connects.

    Everything here holds for every way of telling clusters apart: a Keying gives each URL its
    cluster's key. The worker's own is ClusterUrl.Key. */
module Homes {
  import opened Basics
  import opened ClusterUrl

  type Keying = string -> ClusterKey

  datatype Home = Home(id: string, url: string, osUrl: string, token: string, enabled: Option<bool>)

  /** An enabled home that does not connect, and the id of the one that does. */
  datatype Duplicate = Duplicate(home: Home, connects: string)

  predicate IsEnabled(h: Home) {
    h.enabled.None? || h.enabled.value
  }

  function EnabledHomes(homes: seq<Home>): (e: seq<Home>)
    ensures |e| <= |homes|
    ensures forall h :: h in e <==> h in homes && IsEnabled(h)
  {
    if homes == [] then []
    else
      var last := homes[|homes| - 1];
      var before := EnabledHomes(homes[..|homes| - 1]);
      if IsEnabled(last) then before + [last] else before
  }

  lemma EnabledOfConcat(a: seq<Home>, b: seq<Home>)
    ensures EnabledHomes(a + b) == EnabledHomes(a) + EnabledHomes(b)
  {
    if b == [] {
      assert a + b == a;
    } else {
      assert (a + b)[..|a + b| - 1] == a + b[..|b| - 1];
      EnabledOfConcat(a, b[..|b| - 1]);
    }
  }

  // -------------------------------------------------------------------------
  // One home per cluster
  // -------------------------------------------------------------------------

  /** The last of the first n homes on url's cluster, or -1. */
  function LastOn(on: Keying, homes: seq<Home>, url: string, n: nat): (i: int)
    requires n <= |homes|
    ensures -1 <= i < n
    ensures 0 <= i ==> on(homes[i].url) == on(url)
    ensures forall j :: i < j < n ==> on(homes[j].url) != on(url)
  {
    if n == 0 then -1
    else if on(homes[n - 1].url) == on(url) then n - 1
    else LastOn(on, homes, url, n - 1)
  }

  /** No later home is on this one's cluster. */
  predicate Wins(on: Keying, homes: seq<Home>, i: nat)
    requires i < |homes|
  {
    LastOn(on, homes, homes[i].url, |homes|) == i
  }

  function RunOf(on: Keying, homes: seq<Home>, n: nat): (run: seq<Home>)
    requires n <= |homes|
  {
    if n == 0 then []
    else if Wins(on, homes, n - 1) then RunOf(on, homes, n - 1) + [homes[n - 1]]
    else RunOf(on, homes, n - 1)
  }

  function SkippedOf(on: Keying, homes: seq<Home>, n: nat): (skipped: seq<Duplicate>)
    requires n <= |homes|
  {
    if n == 0 then []
    else if Wins(on, homes, n - 1) then SkippedOf(on, homes, n - 1)
    else SkippedOf(on, homes, n - 1) +
         [Duplicate(homes[n - 1], homes[LastOn(on, homes, homes[n - 1].url, |homes|)].id)]
  }

  /** EnabledHomes. */
  method CollectEnabled(homes: seq<Home>) returns (enabled: seq<Home>)
    ensures enabled == EnabledHomes(homes)
  {
    enabled := [];
    for i := 0 to |homes|
      invariant enabled == EnabledHomes(homes[..i])
    {
      assert homes[..i + 1][..i] == homes[..i];
      if IsEnabled(homes[i]) {
        enabled := enabled + [homes[i]];
      }
    }
    assert homes[..|homes|] == homes;
  }

  /** runnableHomes: for each enabled home, the last enabled home on its cluster wins. */
  method RunnableHomes(on: Keying, homes: seq<Home>) returns (run: seq<Home>, skipped: seq<Duplicate>)
    ensures run == Runnable(on, homes)
    ensures skipped == SkippedOf(on, EnabledHomes(homes), |EnabledHomes(homes)|)
  {
    var enabled := CollectEnabled(homes);
    run, skipped := [], [];
    for i := 0 to |enabled|
      invariant run == RunOf(on, enabled, i)
      invariant skipped == SkippedOf(on, enabled, i)
    {
      var winner := i;
      var j := |enabled| - 1;
      while i < j
        invariant winner == i <= j < |enabled|
        invariant forall k :: j < k < |enabled| ==> on(enabled[k].url) != on(enabled[i].url)
      {
        if on(enabled[j].url) == on(enabled[i].url) {
          winner := j;
          break;
        }
        j := j - 1;
      }
      WinnerIsLast(on, enabled, i, winner);
      if winner == i {
        run := run + [enabled[i]];
      } else {
        skipped := skipped + [Duplicate(enabled[i], enabled[winner].id)];
      }
    }
  }

  lemma WinnerIsLast(on: Keying, homes: seq<Home>, i: nat, winner: nat)
    requires i <= winner < |homes|
    requires on(homes[winner].url) == on(homes[i].url)
    requires forall k :: winner < k < |homes| ==> on(homes[k].url) != on(homes[i].url)
    ensures LastOn(on, homes, homes[i].url, |homes|) == winner
  {
  }

  /** The homes that connect. */
  function Runnable(on: Keying, homes: seq<Home>): seq<Home> {
    RunOf(on, EnabledHomes(homes), |EnabledHomes(homes)|)
  }

  // -------------------------------------------------------------------------
  // The run list is the quotient of the enabled homes by sameClusterURL
  // -------------------------------------------------------------------------

  /** Positions, in increasing order, that pick `part` out of `whole`. */
  ghost predicate Picks(at: seq<nat>, part: seq<Home>, whole: seq<Home>) {
    && |at| == |part|
    && (forall k :: 0 <= k < |at| ==> at[k] < |whole| && whole[at[k]] == part[k])
    && (forall j, k :: 0 <= j < k < |at| ==> at[j] < at[k])
  }

  /** The winning positions below n. */
  ghost function Winners(on: Keying, homes: seq<Home>, n: nat): (at: seq<nat>)
    requires n <= |homes|
    ensures forall k :: 0 <= k < |at| ==> at[k] < n
    ensures forall i: nat :: i in at <==> i < n && Wins(on, homes, i)
  {
    if n == 0 then []
    else if Wins(on, homes, n - 1) then Winners(on, homes, n - 1) + [n - 1]
    else Winners(on, homes, n - 1)
  }

  lemma {:induction false} RunPicksWinners(on: Keying, homes: seq<Home>, n: nat)
    requires n <= |homes|
    ensures Picks(Winners(on, homes, n), RunOf(on, homes, n), homes)
  {
    if n > 0 { RunPicksWinners(on, homes, n - 1); }
  }

  lemma LastWins(on: Keying, homes: seq<Home>, i: nat)
    requires i < |homes|
    ensures var last := LastOn(on, homes, homes[i].url, |homes|); i <= last < |homes| && Wins(on, homes, last)
  {
    var last := LastOn(on, homes, homes[i].url, |homes|);
    assert i <= last;
    WinnerIsLast(on, homes, last, last);
  }

  /** Different run-list positions are different clusters. */
  lemma WinnersDiffer(on: Keying, homes: seq<Home>, i: nat, j: nat)
    requires i < j < |homes| && Wins(on, homes, i)
    ensures on(homes[i].url) != on(homes[j].url)
  {
  }

  lemma QuotientOf(on: Keying, homes: seq<Home>)
    ensures var at := Winners(on, homes, |homes|);
            && Picks(at, RunOf(on, homes, |homes|), homes)
            && (forall i :: 0 <= i < |homes| ==> LastOn(on, homes, homes[i].url, |homes|) in at)
            && (forall j, k :: 0 <= j < k < |at| ==> on(homes[at[j]].url) != on(homes[at[k]].url))
  {
    var at := Winners(on, homes, |homes|);
    RunPicksWinners(on, homes, |homes|);
    forall i | 0 <= i < |homes| ensures LastOn(on, homes, homes[i].url, |homes|) in at {
      LastWins(on, homes, i);
    }
    forall j, k | 0 <= j < k < |at| ensures on(homes[at[j]].url) != on(homes[at[k]].url) {
      assert at[j] in at;
      WinnersDiffer(on, homes, at[j], at[k]);
    }
  }

  /** The run list is a subsequence of the enabled homes, and holds exactly the last member of
      each cluster: every enabled home has one and only one run-list home on its cluster. */
  lemma RunIsQuotient(on: Keying, homes: seq<Home>)
    ensures var enabled := EnabledHomes(homes);
            var at := Winners(on, enabled, |enabled|);
            && Picks(at, Runnable(on, homes), enabled)
            && (forall i :: 0 <= i < |enabled| ==> LastOn(on, enabled, enabled[i].url, |enabled|) in at)
            && (forall j, k :: 0 <= j < k < |at| ==> on(enabled[at[j]].url) != on(enabled[at[k]].url))
  {
    QuotientOf(on, EnabledHomes(homes));
  }

  function HomesOf(skipped: seq<Duplicate>): (h: seq<Home>)
    ensures |h| == |skipped|
  {
    if skipped == [] then [] else HomesOf(skipped[..|skipped| - 1]) + [skipped[|skipped| - 1].home]
  }

  /** Run and skipped together are all the enabled homes, and each skipped home names the id of
      a run-list home on its own cluster. */
  lemma RunAndSkippedPartition(on: Keying, homes: seq<Home>)
    ensures var enabled := EnabledHomes(homes);
            var skipped := SkippedOf(on, enabled, |enabled|);
            && multiset(Runnable(on, homes)) + multiset(HomesOf(skipped)) == multiset(enabled)
            && (forall d :: d in skipped ==>
                  exists h :: h in Runnable(on, homes) && h.id == d.connects && on(h.url) == on(d.home.url))
  {
    var enabled := EnabledHomes(homes);
    PartitionUpTo(on, enabled, |enabled|);
    assert enabled[..|enabled|] == enabled;
    SkippedNamesWinner(on, enabled, |enabled|);
  }

  lemma HomesOfAppend(skipped: seq<Duplicate>, d: Duplicate)
    ensures HomesOf(skipped + [d]) == HomesOf(skipped) + [d.home]
  {
    assert (skipped + [d])[..|skipped|] == skipped;
  }

  /** The next home joins one list or the other. */
  lemma PartitionStep(run: seq<Home>, skipped: seq<Home>, all: seq<Home>, h: Home)
    requires multiset(run) + multiset(skipped) == multiset(all)
    ensures multiset(run + [h]) + multiset(skipped) == multiset(all + [h])
    ensures multiset(run) + multiset(skipped + [h]) == multiset(all + [h])
  {
  }

  lemma {:induction false} PartitionUpTo(on: Keying, homes: seq<Home>, n: nat)
    requires n <= |homes|
    ensures multiset(RunOf(on, homes, n)) + multiset(HomesOf(SkippedOf(on, homes, n))) == multiset(homes[..n])
  {
    if n > 0 {
      PartitionUpTo(on, homes, n - 1);
      var h := homes[n - 1];
      var skipped := SkippedOf(on, homes, n - 1);
      assert homes[..n] == homes[..n - 1] + [h];
      PartitionStep(RunOf(on, homes, n - 1), HomesOf(skipped), homes[..n - 1], h);
      if !Wins(on, homes, n - 1) {
        HomesOfAppend(skipped, Duplicate(h, homes[LastOn(on, homes, h.url, |homes|)].id));
      }
    }
  }

  lemma {:induction false} SkippedNamesWinner(on: Keying, homes: seq<Home>, n: nat)
    requires n <= |homes|
    ensures forall d :: d in SkippedOf(on, homes, n) ==>
              exists h :: h in RunOf(on, homes, |homes|) && h.id == d.connects && on(h.url) == on(d.home.url)
  {
    if n > 0 {
      SkippedNamesWinner(on, homes, n - 1);
      if !Wins(on, homes, n - 1) {
        var last := LastOn(on, homes, homes[n - 1].url, |homes|);
        LastWins(on, homes, n - 1);
        WinnerRuns(on, homes, last, |homes|);
      }
    }
  }

  lemma {:induction false} WinnerRuns(on: Keying, homes: seq<Home>, i: nat, n: nat)
    requires i < n <= |homes| && Wins(on, homes, i)
    ensures homes[i] in RunOf(on, homes, n)
  {
    if i < n - 1 { WinnerRuns(on, homes, i, n - 1); }
  }

  lemma {:induction false} RunnersAreWinners(on: Keying, homes: seq<Home>, n: nat, h: Home)
    requires n <= |homes| && h in RunOf(on, homes, n)
    ensures exists i :: 0 <= i < n && Wins(on, homes, i) && homes[i] == h
  {
    if !(Wins(on, homes, n - 1) && homes[n - 1] == h) {
      RunnersAreWinners(on, homes, n - 1, h);
    }
  }

  /** A machine connects some home exactly when one is enabled. */
  lemma SomethingRuns(on: Keying, homes: seq<Home>)
    ensures Runnable(on, homes) == [] <==> EnabledHomes(homes) == []
    ensures forall h :: h in Runnable(on, homes) ==> h in EnabledHomes(homes)
  {
    var enabled := EnabledHomes(homes);
    if enabled != [] {
      WinnerIsLast(on, enabled, |enabled| - 1, |enabled| - 1);
      WinnerRuns(on, enabled, |enabled| - 1, |enabled|);
    }
    forall h | h in Runnable(on, homes) ensures h in enabled {
      RunnersAreWinners(on, enabled, |enabled|, h);
    }
  }

  /** The enabled homes around one enabled home. */
  lemma EnabledAround(before: seq<Home>, h: Home, after: seq<Home>)
    requires IsEnabled(h)
    ensures EnabledHomes(before + [h] + after) == EnabledHomes(before) + [h] + EnabledHomes(after)
  {
    EnabledOfConcat(before + [h], after);
    EnabledOfConcat(before, [h]);
    assert [h][..0] == [];
  }

  lemma OnlyLastRuns(on: Keying, homes: seq<Home>, at: nat, g: Home)
    requires at < |homes| && LastOn(on, homes, homes[at].url, |homes|) == at
    requires g in RunOf(on, homes, |homes|) && on(g.url) == on(homes[at].url)
    ensures g == homes[at]
  {
    RunnersAreWinners(on, homes, |homes|, g);
    var i :| 0 <= i < |homes| && Wins(on, homes, i) && homes[i] == g;
    SameLast(on, homes, homes[i].url, homes[at].url, |homes|);
  }

  lemma SameLast(on: Keying, homes: seq<Home>, a: string, b: string, n: nat)
    requires n <= |homes| && on(a) == on(b)
    ensures LastOn(on, homes, a, n) == LastOn(on, homes, b, n)
  {
  }

  lemma LastOfEnabledConnects(on: Keying, homes: seq<Home>, at: nat)
    requires at < |homes|
    requires forall k :: at < k < |homes| ==> on(homes[k].url) != on(homes[at].url)
    ensures homes[at] in RunOf(on, homes, |homes|)
    ensures forall g :: g in RunOf(on, homes, |homes|) && on(g.url) == on(homes[at].url) ==> g == homes[at]
  {
    WinnerIsLast(on, homes, at, at);
    WinnerRuns(on, homes, at, |homes|);
    forall g | g in RunOf(on, homes, |homes|) && on(g.url) == on(homes[at].url) ensures g == homes[at] {
      OnlyLastRuns(on, homes, at, g);
    }
  }

  /** An enabled home with no later home on its cluster is that cluster's one connection. */
  lemma LastHomeConnects(on: Keying, before: seq<Home>, h: Home, after: seq<Home>)
    requires IsEnabled(h)
    requires forall g :: g in after ==> on(g.url) != on(h.url)
    ensures h in Runnable(on, before + [h] + after)
    ensures forall g :: g in Runnable(on, before + [h] + after) && on(g.url) == on(h.url) ==> g == h
  {
    EnabledAround(before, h, after);
    var enabled := EnabledHomes(before) + [h] + EnabledHomes(after);
    var at := |EnabledHomes(before)|;
    forall k | at < k < |enabled| ensures on(enabled[k].url) != on(h.url) {
      assert enabled[k] in EnabledHomes(after);
    }
    LastOfEnabledConnects(on, enabled, at);
  }

  /** An enabled home runs or is skipped. */
  lemma {:induction false} RunsOrIsSkipped(on: Keying, homes: seq<Home>, i: nat, n: nat)
    requires i < n <= |homes|
    ensures homes[i] in RunOf(on, homes, n) || exists d :: d in SkippedOf(on, homes, n) && d.home == homes[i]
  {
    if i < n - 1 {
      RunsOrIsSkipped(on, homes, i, n - 1);
      if homes[i] !in RunOf(on, homes, n - 1) {
        var d :| d in SkippedOf(on, homes, n - 1) && d.home == homes[i];
        assert d in SkippedOf(on, homes, n);
      }
    } else if !Wins(on, homes, i) {
      var d := Duplicate(homes[i], homes[LastOn(on, homes, homes[i].url, |homes|)].id);
      assert d in SkippedOf(on, homes, n);
    }
  }

  /** Two different homes on the run list are on two clusters. */
  lemma RunnersDiffer(on: Keying, homes: seq<Home>, g: Home, h: Home)
    requires g in RunOf(on, homes, |homes|) && h in RunOf(on, homes, |homes|) && g != h
    ensures on(g.url) != on(h.url)
  {
    RunnersAreWinners(on, homes, |homes|, g);
    RunnersAreWinners(on, homes, |homes|, h);
    var i :| 0 <= i < |homes| && Wins(on, homes, i) && homes[i] == g;
    var j :| 0 <= j < |homes| && Wins(on, homes, j) && homes[j] == h;
    if i < j { WinnersDiffer(on, homes, i, j); } else { WinnersDiffer(on, homes, j, i); }
  }
}
