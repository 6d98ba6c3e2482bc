/** What the control key does not see: one cluster behind two keys. Which fleets a run of commands can
    bring to two streams on one cluster, and a registry whose fleet is one. */
module FleetClusters {
  import Basics
  import opened ClusterUrl
  import opened Homes
  import opened Fleet

  /** A run of commands can have the home enabled: it is, or a command for it is not refused. */
  ghost predicate CanRun(host: Hosting, s: State, id: string)
    requires id in s.homes
  {
    !s.homes[id].suppressed && (s.homes[id].enabled || !SharesKey(host, s.homes, id))
  }

  /** Different homes that can run are on different clusters. */
  ghost predicate RunnableClustersDiffer(on: Keying, host: Hosting, s: State) {
    forall a, b :: a in s.homes && b in s.homes && a != b && CanRun(host, s, a) && CanRun(host, s, b) ==>
      on(s.homes[a].url) != on(s.homes[b].url)
  }

  lemma SameKeysShared(host: Hosting, s: State, s': State, id: string)
    requires SameHomes(s, s') && id in s.homes
    ensures SharesKey(host, s'.homes, id) <==> SharesKey(host, s.homes, id)
  {
    if SharesKey(host, s.homes, id) {
      var other :| other in s.homes && other != id && host(s.homes[other].url) == host(s.homes[id].url);
      assert other in s'.homes && host(s'.homes[other].url) == host(s'.homes[id].url);
    }
    if SharesKey(host, s'.homes, id) {
      var other :| other in s'.homes && other != id && host(s'.homes[other].url) == host(s'.homes[id].url);
      assert other in s.homes && host(s.homes[other].url) == host(s.homes[id].url);
    }
  }

  /** A home that is connectable after a run could run before it. */
  lemma {:induction false} ConnectableCouldRun(host: Hosting, s: State, events: seq<Event>, id: string)
    requires id in s.homes
    ensures var s' := After(host, s, events);
            id in s'.homes && (Connectable(s'.homes[id]) ==> CanRun(host, s, id))
  {
    RunKeepsHomes(host, s, events);
    if events != [] {
      var p, e := events[..|events| - 1], events[|events| - 1];
      var before := After(host, s, p);
      RunKeepsHomes(host, s, p);
      ConnectableCouldRun(host, s, p, id);
      if e.Command? {
        SameKeysShared(host, s, before, id);
      } else {
        SupervisionKeepsPolicy(host, before, e);
      }
    }
  }

  /** A resume of a home that can run leaves it enabled, and every enabled home enabled. */
  lemma ResumeEnables(host: Hosting, s: State, id: string)
    requires id in s.homes && (s.homes[id].enabled || !SharesKey(host, s.homes, id))
    ensures var s' := Step(host, s, Command(id, true, true));
            && SameHomes(s, s') && s'.homes[id].enabled
            && forall other :: other in s.homes && s.homes[other].enabled ==> s'.homes[other].enabled
  {
  }

  lemma AfterOne(host: Hosting, s: State, e: Event)
    ensures After(host, s, [e]) == Step(host, s, e)
  {
    assert [e][..0] == [];
    assert After(host, s, [e][..0]) == s;
  }

  lemma BothCanRun(host: Hosting, s: State, a: string, b: string)
    requires a in s.homes && b in s.homes && a != b && CanRun(host, s, a) && CanRun(host, s, b)
    ensures var s' := After(host, s, [Command(a, true, true), Command(b, true, true)]);
            SameHomes(s, s') && Connectable(s'.homes[a]) && Connectable(s'.homes[b])
  {
    var events := [Command(a, true, true), Command(b, true, true)];
    assert events[..1] == [Command(a, true, true)];
    var one := Step(host, s, Command(a, true, true));
    AfterOne(host, s, Command(a, true, true));
    ResumeEnables(host, s, a);
    SameKeysShared(host, s, one, b);
    ResumeEnables(host, one, b);
    assert After(host, s, events) == Step(host, one, Command(b, true, true));
  }

  /** No run of commands and supervisor steps puts two streams on one cluster exactly when, to begin
      with, no two un-suppressed homes on one cluster each run or can be resumed: whatever keys the
      homes share, and whatever state the fleet starts from. */
  lemma ClustersStayDistinctExactlyWhen(on: Keying, host: Hosting, s: State)
    ensures (forall events :: KeysDistinct(on, After(host, s, events))) <==> RunnableClustersDiffer(on, host, s)
  {
    if RunnableClustersDiffer(on, host, s) {
      forall events ensures KeysDistinct(on, After(host, s, events)) {
        DistinctAfter(on, host, s, events);
      }
    } else {
      var a, b :| a in s.homes && b in s.homes && a != b && CanRun(host, s, a) && CanRun(host, s, b)
                  && on(s.homes[a].url) == on(s.homes[b].url);
      BothCanRun(host, s, a, b);
      assert !KeysDistinct(on, After(host, s, [Command(a, true, true), Command(b, true, true)]));
    }
  }

  lemma DistinctAfter(on: Keying, host: Hosting, s: State, events: seq<Event>)
    requires RunnableClustersDiffer(on, host, s)
    ensures KeysDistinct(on, After(host, s, events))
  {
    var s' := After(host, s, events);
    RunKeepsHomes(host, s, events);
    forall a, b | a in s'.homes && b in s'.homes && a != b && Connectable(s'.homes[a]) && Connectable(s'.homes[b])
      ensures on(s'.homes[a].url) != on(s'.homes[b].url)
    {
      ConnectableCouldRun(host, s, events, a);
      ConnectableCouldRun(host, s, events, b);
    }
  }

  /** A registry whose second home is paused starts both homes, neither of them a duplicate. */
  lemma PausedIsNoDuplicate(on: Keying, running: Home, paused: Home)
    requires running.id != paused.id && IsEnabled(running) && !IsEnabled(paused)
    ensures var s := Start(on, [running, paused]);
            && running.id in s.homes && paused.id in s.homes
            && (forall id :: id in s.homes ==> id == running.id || id == paused.id)
            && s.homes[running.id].url == running.url && Connectable(s.homes[running.id])
            && s.homes[paused.id].url == paused.url && !s.homes[paused.id].suppressed && !s.homes[paused.id].enabled
  {
    var homes := [running, paused];
    assert homes[..2] == homes && homes[..1] == [running] && homes[..1][..0] == [];
    assert EnabledHomes([running]) == [running] && EnabledHomes(homes) == [running];
    assert SkippedOf(on, [running], 1) == [] by {
      WinnerIsLast(on, [running], 0, 0);
    }
    assert !IsDuplicate(on, homes, running.id) && !IsDuplicate(on, homes, paused.id);
    assert StartUpTo(on, homes, 0).homes == map[];
    assert StartUpTo(on, homes, 1).homes == map[running.id := Manage(on, homes, running)];
    assert StartUpTo(on, homes, 2).homes ==
      map[running.id := Manage(on, homes, running), paused.id := Manage(on, homes, paused)];
  }

  /** Resuming it puts a second stream on the first home's cluster, when their control keys differ. */
  lemma ResumeDoublesUp(on: Keying, host: Hosting, running: Home, paused: Home)
    requires running.id != paused.id && IsEnabled(running) && !IsEnabled(paused)
    requires on(running.url) == on(paused.url) && host(running.url) != host(paused.url)
    ensures !KeysDistinct(on, After(host, Start(on, [running, paused]), [Command(paused.id, true, true)]))
  {
    var s := Start(on, [running, paused]);
    PausedIsNoDuplicate(on, running, paused);
    assert !SharesKey(host, s.homes, paused.id);
    ResumeEnables(host, s, paused.id);
    AfterOne(host, s, Command(paused.id, true, true));
    var s' := Step(host, s, Command(paused.id, true, true));
    assert Connectable(s'.homes[running.id]) && Connectable(s'.homes[paused.id]);
  }

  lemma PortsKeepTheirText(name: string, port: string, other: string)
    requires ValidOptionalPort(port) && ValidOptionalPort(other) && port != other
    ensures Basics.Lower(name + port) != Basics.Lower(name + other)
  {
    if |port| == |other| {
      var i :| 0 <= i < |port| && port[i] != other[i];
      assert (name + port)[|name| + i] == port[i] && (name + other)[|name| + i] == other[i];
      assert Basics.LowerChar(port[i]) == port[i] && Basics.LowerChar(other[i]) == other[i];
      assert Basics.Lower(name + port)[|name| + i] != Basics.Lower(name + other)[|name| + i];
    } else {
      assert |Basics.Lower(name + port)| != |Basics.Lower(name + other)|;
    }
  }

  /** Such homes exist: any two ports of one host are one cluster to the enrollment rule and two
      keys to the control service, which therefore lets a resume start a second stream to it. */
  lemma TwoPortsAreOneCluster(url: string, other: string, name: string, port: string, otherPort: string)
    requires url == "https://" + (name + port) && other == "https://" + (name + otherPort)
    requires name != "" && (forall i :: 0 <= i < |name| ==> Basics.IsLetter(name[i])) && Basics.Lower(name) != "default"
    requires ValidHost(name + port) && ValidOptionalPort(port) && port != ":443"
    requires ValidHost(name + otherPort) && ValidOptionalPort(otherPort) && otherPort != ":443"
    requires port != otherPort
    ensures Key(url) == Key(other) && HostOf(url) != HostOf(other)
  {
    PortsSplitTheControlKey(url, name, port);
    PortsSplitTheControlKey(other, name, otherPort);
    PortsKeepTheirText(name, port, otherPort);
  }

  /** So it goes on a real registry: one host enrolled behind two ports, the second paused. One resume
      leaves two connectable homes on one cluster. */
  lemma ResumeOpensSecondStream(running: Home, paused: Home, name: string, port: string, otherPort: string)
    requires running.id != paused.id && IsEnabled(running) && !IsEnabled(paused)
    requires running.url == "https://" + (name + port) && paused.url == "https://" + (name + otherPort)
    requires name != "" && (forall i :: 0 <= i < |name| ==> Basics.IsLetter(name[i])) && Basics.Lower(name) != "default"
    requires ValidHost(name + port) && ValidOptionalPort(port) && port != ":443"
    requires ValidHost(name + otherPort) && ValidOptionalPort(otherPort) && otherPort != ":443"
    requires port != otherPort
    ensures !KeysDistinct(Key, After(HostOf, Start(Key, [running, paused]), [Command(paused.id, true, true)]))
  {
    TwoPortsAreOneCluster(running.url, paused.url, name, port, otherPort);
    ResumeDoublesUp(Key, HostOf, running, paused);
  }

  lemma PlainHost(h: string)
    requires |h| == 3 && Basics.IsLetter(h[0]) && h[1] == ':' && Basics.IsDigit(h[2])
    ensures ValidHost(h)
  {
    var colon, bracket := Basics.IndexOf(h, ':'), Basics.IndexOf(h, '[');
    assert h[0] != ':' && h[1] == ':' && h[2] != ':';
    assert colon == 1;
    assert bracket == 3;
    var port := Basics.Suffix(h, 1);
    assert |port| == 2 && port[0] == h[1] && port[1] == h[2];
  }

  /** For one, the host a on its ports 1 and 2. */
  lemma PortsOneAndTwo(running: Home, paused: Home)
    requires running.id != paused.id && IsEnabled(running) && !IsEnabled(paused)
    requires running.url == "https://" + ("a" + ":1") && paused.url == "https://" + ("a" + ":2")
    ensures !KeysDistinct(Key, After(HostOf, Start(Key, [running, paused]), [Command(paused.id, true, true)]))
  {
    assert ValidOptionalPort(":1") && ValidOptionalPort(":2");
    PlainHost("a:1");
    PlainHost("a:2");
    assert "a" + ":1" == "a:1" && "a" + ":2" == "a:2" && Basics.Lower("a")[0] == 'a';
    ResumeOpensSecondStream(running, paused, "a", ":1", ":2");
  }
}
