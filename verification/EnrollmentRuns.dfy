/** What the enrollment files keep over every run of the worker's commands, starts and disk failures
    included: a paired home is the one its cluster connects through, an unpaired cluster stays
    unpaired, and the legacy mirror is in line with the registry after every command that writes both. */
module EnrollmentRuns {
  import opened Basics
  import opened ClusterUrl
  import opened Homes
  import opened Enrollment

  // -------------------------------------------------------------------------
  // Pairing: the enrolled home is the one that connects
  // -------------------------------------------------------------------------

  /** after is before with h in place of one home, or added at the end. */
  ghost predicate OneHomeChanged(before: seq<Home>, after: seq<Home>, h: Home) {
    || after == before + [h]
    || (|after| == |before|
        && exists i :: 0 <= i < |after| && after[i] == h && forall j :: 0 <= j < |after| && j != i ==> after[j] == before[j])
  }

  lemma EnrolledHomeIsLast(on: Keying, homes: seq<Home>, o: Upsert)
    requires Enrolled(on, homes, o).Ok?
    ensures var (after, h) := Enrolled(on, homes, o).value;
            && OneHomeChanged(homes, after, h)
            && h.url == Trim(o.url) && h.token == Trim(o.token) && h.enabled == Some(true)
            && exists p :: 0 <= p < |after| && after[p] == h && forall j :: p < j < |after| ==> on(after[j].url) != on(h.url)
  {
    var (after, h) := Enrolled(on, homes, o).value;
    var byUrl := LastOn(on, homes, Trim(o.url), |homes|);
    var byId := LastId(homes, UpsertId(o), |homes|);
    if 0 <= byUrl {
      assert after[byUrl] == h;
    } else if 0 <= byId {
      assert after[byId] == h;
    } else {
      assert after[|homes|] == h;
    }
  }

  lemma LastAtConnects(on: Keying, homes: seq<Home>, p: nat)
    requires p < |homes| && IsEnabled(homes[p])
    requires forall j :: p < j < |homes| ==> on(homes[j].url) != on(homes[p].url)
    ensures homes[p] in Runnable(on, homes)
    ensures forall g :: g in Runnable(on, homes) && on(g.url) == on(homes[p].url) ==> g == homes[p]
  {
    var before, after := homes[..p], homes[p + 1..];
    assert homes == before + [homes[p]] + after;
    LastHomeConnects(on, before, homes[p], after);
  }

  lemma UpsertStores(on: Keying, m: Machine, files: Files, o: Upsert, disk: Disk)
    requires UpsertHome(on, m, files, o, disk).1.Ok?
    ensures var before, after := Load(m, files, disk).1, UpsertHome(on, m, files, o, disk).0;
            && before.Ok? && Enrolled(on, before.value.homes, o).Ok?
            && after.workers.Content? && Valid(after.workers.value)
            && after.workers.value.homes == Enrolled(on, before.value.homes, o).value.0
  {
  }

  /** h is enabled with the new URL and token, and is the one home that connects for its cluster. */
  ghost predicate IsTheConnection(on: Keying, homes: seq<Home>, o: Upsert, h: Home) {
    && h.url == Trim(o.url) && h.token == Trim(o.token) && h.enabled == Some(true)
    && h in Runnable(on, homes)
    && forall g :: g in Runnable(on, homes) && on(g.url) == on(h.url) ==> g == h
  }

  lemma EnrolledConnects(on: Keying, homes: seq<Home>, o: Upsert)
    requires Enrolled(on, homes, o).Ok?
    ensures var (after, h) := Enrolled(on, homes, o).value;
            IsTheConnection(on, after, o, h) && OneHomeChanged(homes, after, h)
  {
    EnrolledHomeIsLast(on, homes, o);
    var (after, h) := Enrolled(on, homes, o).value;
    var p :| 0 <= p < |after| && after[p] == h && forall j :: p < j < |after| ==> on(after[j].url) != on(h.url);
    LastAtConnects(on, after, p);
  }

  lemma LoadKeepsMirror(m: Machine, files: Files, disk: Disk)
    ensures Load(m, files, disk).0.mirror == files.mirror
  {
  }

  lemma UpsertMirrors(on: Keying, m: Machine, files: Files, o: Upsert, disk: Disk)
    requires UpsertHome(on, m, files, o, disk).1.Ok?
    ensures var after, h := UpsertHome(on, m, files, o, disk).0, Enrolled(on, Load(m, files, disk).1.value.homes, o).value.1;
            if disk.syncWrite then
              after.mirror.Content? && after.mirror.value.url == h.url && after.mirror.value.token == h.token
            else after.mirror == files.mirror
  {
    LoadKeepsMirror(m, files, disk);
    var (loaded, before) := Load(m, files, disk);
    var (homes, home) := Enrolled(on, before.value.homes, o).value;
    var w := WithOptions(m, before.value.(homes := homes), o);
    assert Save(m, loaded, w, disk.save).0.mirror == files.mirror;
  }

  /** After a successful upsert the one home this machine connects for the URL's cluster is
      enabled and holds the new token, every other home is as it was, ids are distinct, and the
      mirror names that home unless its own write failed. */
  lemma UpsertedHomeConnects(on: Keying, m: Machine, files: Files, o: Upsert, disk: Disk)
    ensures var before, (after, r) := Load(m, files, disk).1, UpsertHome(on, m, files, o, disk);
            r.Ok? ==>
              && before.Ok? && after.workers.Content?
              && DistinctIds(after.workers.value.homes)
              && exists h :: IsTheConnection(on, after.workers.value.homes, o, h)
                   && OneHomeChanged(before.value.homes, after.workers.value.homes, h)
                   && (disk.syncWrite ==> after.mirror.Content? && Names(on, after.mirror.value, h))
  {
    if UpsertHome(on, m, files, o, disk).1.Ok? {
      UpsertStores(on, m, files, o, disk);
      ValidMeans(UpsertHome(on, m, files, o, disk).0.workers.value);
      EnrolledConnects(on, Load(m, files, disk).1.value.homes, o);
      UpsertMirrors(on, m, files, o, disk);
    }
  }

  lemma ValidWhenNormal(m: Machine, w: Workers)
    requires Valid(w)
    ensures Normalize(m, w) == w
  {
    if w.name == "" { TrimOfTrimmed(w.name); }
  }

  /** A start finds what pairing left: with both files readable it hands the fleet exactly the paired
      registry. */
  lemma PairedRegistryStarts(on: Keying, m: Machine, files: Files, o: Upsert, disk: Disk, flags: Flags, later: Disk)
    requires !ForcesSingle(flags) && flags.name == "" && later.readWorkers && later.readMirror
    ensures var (after, r) := UpsertHome(on, m, files, o, disk);
            r.Ok? && !after.mirror.Broken? ==>
              after.workers.Content? && Start(on, m, after, flags, later).1 == Fleet(after.workers.value.homes)
  {
    var (after, r) := UpsertHome(on, m, files, o, disk);
    if r.Ok? && !after.mirror.Broken? {
      UpsertStores(on, m, files, o, disk);
      EnrolledHomeIsLast(on, Load(m, files, disk).1.value.homes, o);
      ValidWhenNormal(m, after.workers.value);
      StartsFleet(on, m, after, flags, later);
    }
  }

  lemma StartsFleet(on: Keying, m: Machine, files: Files, flags: Flags, disk: Disk)
    requires !ForcesSingle(flags) && flags.name == "" && disk.readWorkers && disk.readMirror
    requires files.workers.Content? && Normalize(m, files.workers.value) == files.workers.value
    requires ValidRun(files.workers.value) && !files.mirror.Broken?
    ensures Start(on, m, files, flags, disk).1 == Fleet(files.workers.value.homes)
  {
  }

  // -------------------------------------------------------------------------
  // The mirror names an enabled home, or is gone
  // -------------------------------------------------------------------------

  ghost predicate MirrorInLine(on: Keying, mirror: File<Config>, homes: seq<Home>) {
    mirror.Absent? || (mirror.Content? && NamesAny(on, mirror.value, homes))
  }

  lemma RewrittenMirrorNames(on: Keying, w: Workers, h: Home)
    requires h in w.homes && IsEnabled(h)
    ensures NamesAny(on, ConfigForHome(w, h), w.homes)
  {
    assert Names(on, ConfigForHome(w, h), h);
  }

  /** After a successful sync the mirror is absent or names an enabled home with its current
      token; a mirror that existed is deleted exactly when no home is enabled; and the outcome
      says which happened. */
  lemma SyncPutsMirrorInLine(on: Keying, m: Machine, files: Files, w: Workers, disk: Disk)
    requires Sync(on, m, files, w, disk).1.Ok?
    ensures var (after, r) := Sync(on, m, files, w, disk);
            && after.workers == files.workers
            && MirrorInLine(on, after.mirror, w.homes)
            && (files.mirror.Content? ==> (after.mirror.Absent? <==> EnabledHomes(w.homes) == []))
            && (r.value.MirrorDeleted? <==> files.mirror.Content? && after.mirror.Absent?)
            && (r.value.MirrorUntouched? ==> after == files)
  {
    SomethingRuns(on, w.homes);
    var run := Runnable(on, w.homes);
    if run != [] {
      assert run[0] in EnabledHomes(w.homes);
      RewrittenMirrorNames(on, w, run[0]);
    }
    if files.mirror.Content? && NamesAny(on, MirrorConfig(m, files.mirror), w.homes) {
      var h :| h in w.homes && IsEnabled(h) && Names(on, MirrorConfig(m, files.mirror), h);
      assert h in EnabledHomes(w.homes);
      assert Names(on, files.mirror.value, h);
    }
  }

  /** A second sync changes nothing. */
  lemma SyncTwice(on: Keying, m: Machine, files: Files, w: Workers, disk: Disk, again: Disk)
    requires Sync(on, m, files, w, disk).1.Ok?
    ensures var after := Sync(on, m, files, w, disk).0;
            && Sync(on, m, after, w, again).0 == after
            && (again.syncRead ==> Sync(on, m, after, w, again).1.Ok?)
  {
    SyncPutsMirrorInLine(on, m, files, w, disk);
    var after := Sync(on, m, files, w, disk).0;
    if after.mirror.Content? {
      var h :| h in w.homes && IsEnabled(h) && Names(on, after.mirror.value, h);
      assert Names(on, MirrorConfig(m, after.mirror), h);
    }
  }

  lemma RemoveAtLeavesMirrorInLine(on: Keying, m: Machine, files: Files, before: Workers, i: nat, disableOnly: bool, disk: Disk)
    requires i < |before.homes|
    requires var r := RemoveAt(on, m, files, before, i, disableOnly, disk).1; r.Ok? && r.value.mirror.Ok?
    ensures var (after, r) := RemoveAt(on, m, files, before, i, disableOnly, disk);
            && after.workers.Content?
            && after.workers.value.homes == HomesLeft(before.homes, i, disableOnly)
            && r.value.removed == before.homes[i]
            && MirrorInLine(on, after.mirror, after.workers.value.homes)
  {
    var w := before.(homes := HomesLeft(before.homes, i, disableOnly));
    SyncPutsMirrorInLine(on, m, Save(m, files, w, disk.save).0, w, disk);
  }

  /** Unpairing by id takes out, or disables, exactly the first home of that id, and leaves the
      mirror in line with what is left. */
  lemma RemoveHomeLeavesMirrorInLine(on: Keying, m: Machine, files: Files, id: string, disableOnly: bool, disk: Disk)
    ensures var (after, r) := RemoveHome(on, m, files, id, disableOnly, disk);
            r.Ok? && r.value.mirror.Ok? ==>
              && Load(m, files, disk).1.Ok? && after.workers.Content?
              && MirrorInLine(on, after.mirror, after.workers.value.homes)
              && var before := Load(m, files, disk).1.value.homes;
                 exists i :: 0 <= i < |before| && before[i] == r.value.removed
                   && before[i].id == Trim(id) && (forall j :: 0 <= j < i ==> before[j].id != Trim(id))
                   && after.workers.value.homes == if disableOnly then before[i := before[i].(enabled := Some(false))]
                                                   else before[..i] + before[i + 1..]
  {
    var r := RemoveHome(on, m, files, id, disableOnly, disk).1;
    if r.Ok? && r.value.mirror.Ok? {
      var (loaded, before) := Load(m, files, disk);
      var i := FirstId(before.value.homes, Trim(id), 0);
      RemoveAtLeavesMirrorInLine(on, m, loaded, before.value, i, disableOnly, disk);
    }
  }

  // -------------------------------------------------------------------------
  // Single-home mode is never chosen unless the command line forces it
  // -------------------------------------------------------------------------

  lemma LoadedOrBlank(m: Machine, files: Files, disk: Disk)
    requires Load(m, files, disk).1.Ok? && Load(m, files, disk).0.workers.Absent?
    ensures !files.mirror.Broken? && Trim(MirrorConfig(m, files.mirror).url) == ""
  {
  }

  /** Without --cluster or a token, no state of the two files makes `worker run` connect from the
      mirror: the registry exists after loading, or the mirror has nothing to connect. */
  lemma SingleHomeNeedsFlags(on: Keying, m: Machine, files: Files, flags: Flags, disk: Disk)
    requires !ForcesSingle(flags)
    ensures !Start(on, m, files, flags, disk).1.SingleHome?
  {
    var (loaded, registry) := Load(m, files, disk);
    if registry.Ok? && loaded.workers.Absent? {
      LoadedOrBlank(m, files, disk);
    }
  }

  // -------------------------------------------------------------------------
  // An unpaired cluster stays unpaired
  // -------------------------------------------------------------------------

  datatype Command =
    | Run(flags: Flags, disk: Disk)
    | ShowConfig(disk: Disk)
    | Pair(options: Upsert, disk: Disk)
    | Unpair(id: string, disableOnly: bool, disk: Disk)
    | UnpairUrl(url: string, dryRun: bool, regular: bool, disk: Disk)
    | SetEnabled(id: string, enabled: bool, ok: bool)

  /** The control service's edit of the saved registry. */
  function WithEnabled(files: Files, id: string, enabled: bool, ok: bool): Files {
    if ok && files.workers.Content? then
      var w := files.workers.value;
      var i := FirstId(w.homes, id, 0);
      if i == |w.homes| then files
      else files.(workers := Content(w.(homes := w.homes[i := w.homes[i].(enabled := Some(enabled))])))
    else files
  }

  function After(on: Keying, m: Machine, files: Files, c: Command): Files {
    match c
    case Run(flags, disk) => Start(on, m, files, flags, disk).0
    case ShowConfig(disk) => Load(m, files, disk).0
    case Pair(options, disk) => UpsertHome(on, m, files, options, disk).0
    case Unpair(id, disableOnly, disk) => RemoveHome(on, m, files, id, disableOnly, disk).0
    case UnpairUrl(url, dryRun, regular, disk) => RemoveHomesByUrl(on, m, files, url, dryRun, regular, disk).0
    case SetEnabled(id, enabled, ok) => WithEnabled(files, id, enabled, ok)
  }

  function AfterAll(on: Keying, m: Machine, files: Files, commands: seq<Command>): Files {
    if commands == [] then files
    else After(on, m, AfterAll(on, m, files, commands[..|commands| - 1]), commands[|commands| - 1])
  }

  /** The command starts a worker that can connect to url's cluster: now, or when its own control
      service resumes one of the homes it manages. */
  ghost predicate CanConnect(on: Keying, m: Machine, files: Files, c: Command, url: string) {
    && c.Run?
    && match Start(on, m, files, c.flags, c.disk).1
       case Fleet(homes) => exists h :: h in homes && on(h.url) == on(url)
       case SingleHome(connected) => on(connected) == on(url)
       case Refused(_) => false
       case Waiting => false
  }

  /** No command pairs url's cluster, and none is told on the command line what to connect. */
  ghost predicate Leaves(on: Keying, c: Command, url: string) {
    && (c.Pair? ==> on(Trim(c.options.url)) != on(url))
    && (c.Run? ==> !ForcesSingle(c.flags))
  }

  ghost predicate HomesFree(on: Keying, homes: seq<Home>, url: string) {
    forall h :: h in homes ==> on(h.url) != on(url)
  }

  ghost predicate MirrorFree(on: Keying, mirror: File<Config>, url: string) {
    mirror.Content? && Trim(mirror.value.url) != "" ==> on(mirror.value.url) != on(url)
  }

  /** Neither file holds a home of url's cluster. */
  ghost predicate Free(on: Keying, files: Files, url: string) {
    && (files.workers.Content? ==> HomesFree(on, files.workers.value.homes, url))
    && MirrorFree(on, files.mirror, url)
  }

  lemma LoadKeepsFree(on: Keying, m: Machine, files: Files, disk: Disk, url: string)
    requires Free(on, files, url)
    ensures Free(on, Load(m, files, disk).0, url)
    ensures var r := Load(m, files, disk).1; r.Ok? ==> HomesFree(on, r.value.homes, url)
    ensures Load(m, files, disk).0.mirror == files.mirror
  {
  }

  /** Sync leaves no mirror on a cluster none of the homes is on: a mirror it leaves alone is on an
      enabled home's cluster, and sameClusterURL is transitive. */
  lemma SyncKeepsFree(on: Keying, m: Machine, files: Files, w: Workers, disk: Disk, url: string)
    requires HomesFree(on, w.homes, url)
    ensures var (after, r) := Sync(on, m, files, w, disk);
            && after.workers == files.workers
            && (r.Ok? || MirrorFree(on, files.mirror, url) ==> MirrorFree(on, after.mirror, url))
  {
    SomethingRuns(on, w.homes);
    var run := Runnable(on, w.homes);
    if run != [] { assert run[0] in EnabledHomes(w.homes); }
  }

  lemma SaveKeepsFree(on: Keying, m: Machine, files: Files, w: Workers, ok: bool, url: string)
    requires HomesFree(on, w.homes, url)
    ensures var (after, r) := Save(m, files, w, ok);
            && after.mirror == files.mirror
            && (r.Ok? || Free(on, files, url) ==> after.workers.Content? ==> HomesFree(on, after.workers.value.homes, url))
            && (r.Err? ==> after == files)
  {
  }

  /** Where no home is dropped the kept homes are the homes, in their places. */
  lemma {:induction false} KeptAllUpTo(on: Keying, homes: seq<Home>, url: string, n: nat)
    requires n <= |homes|
    ensures |KeptHomes(on, homes, url, n)| == n ==> KeptHomes(on, homes, url, n) == homes[..n]
  {
    if n > 0 {
      KeptAllUpTo(on, homes, url, n - 1);
      assert homes[..n] == homes[..n - 1] + [homes[n - 1]];
    }
  }

  lemma {:induction false} OthersAreKept(on: Keying, homes: seq<Home>, url: string, n: nat, i: nat)
    requires i < n <= |homes| && on(homes[i].url) != on(url)
    ensures homes[i] in KeptHomes(on, homes, url, n)
  {
    if i < n - 1 { OthersAreKept(on, homes, url, n - 1, i); }
  }

  /** A home is kept exactly when it is on another cluster. */
  lemma KeptExactly(on: Keying, homes: seq<Home>, url: string, h: Home)
    ensures h in KeptHomes(on, homes, url, |homes|) <==> h in homes && on(h.url) != on(url)
  {
    if h in homes && on(h.url) != on(url) {
      var i :| 0 <= i < |homes| && homes[i] == h;
      OthersAreKept(on, homes, url, |homes|, i);
    }
  }

  lemma KeptIsFree(on: Keying, homes: seq<Home>, url: string)
    ensures HomesFree(on, KeptHomes(on, homes, url, |homes|), url)
    ensures forall h :: h in KeptHomes(on, homes, url, |homes|) ==> h in homes
    ensures |KeptHomes(on, homes, url, |homes|)| == |homes| ==> KeptHomes(on, homes, url, |homes|) == homes
  {
    KeptAllUpTo(on, homes, url, |homes|);
    assert homes[..|homes|] == homes;
  }

  lemma WriteKeptIsFree(on: Keying, m: Machine, files: Files, left: Workers, removed: nat, disk: Disk, url: string)
    requires HomesFree(on, left.homes, url) && WriteKept(on, m, files, left, removed, disk).1.Ok?
    requires removed == 0 ==> files.workers.Content? ==> files.workers.value.homes == left.homes
    requires removed == 0 ==> files.workers.Absent? ==> MirrorFree(on, files.mirror, url)
    requires files.workers.Broken? ==> removed == 0
    ensures Free(on, WriteKept(on, m, files, left, removed, disk).0, url)
  {
    SaveKeepsFree(on, m, files, left, disk.save, url);
    SyncKeepsFree(on, m, if removed > 0 then Save(m, files, left, disk.save).0 else files, left, disk, url);
  }

  lemma WriteKeptKeepsFree(on: Keying, m: Machine, files: Files, left: Workers, removed: nat, disk: Disk, url: string)
    requires HomesFree(on, left.homes, url) && Free(on, files, url)
    ensures Free(on, WriteKept(on, m, files, left, removed, disk).0, url)
  {
    SaveKeepsFree(on, m, files, left, disk.save, url);
    SyncKeepsFree(on, m, if removed > 0 then Save(m, files, left, disk.save).0 else files, left, disk, url);
  }

  lemma RemovedByUrlIsFree(on: Keying, m: Machine, files: Files, url: string, disk: Disk)
    requires RemoveByUrl(on, m, files, url, false, disk).1.Ok?
    ensures Free(on, RemoveByUrl(on, m, files, url, false, disk).0, url)
  {
    var w := Scoped(m, files, disk).value;
    var kept := KeptHomes(on, w.homes, url, |w.homes|);
    KeptIsFree(on, w.homes, url);
    if |kept| == |w.homes| && files.workers.Absent? {
      NothingRemovedMirror(on, m, files, url, disk);
    }
    WriteKeptIsFree(on, m, files, w.(homes := kept), |w.homes| - |kept|, disk, url);
  }

  lemma NothingRemovedMirror(on: Keying, m: Machine, files: Files, url: string, disk: Disk)
    requires files.workers.Absent? && Scoped(m, files, disk).Ok?
    requires HomesFree(on, Scoped(m, files, disk).value.homes, url)
    ensures MirrorFree(on, files.mirror, url)
  {
    if files.mirror.Content? && Trim(files.mirror.value.url) != "" {
      var homes := Scoped(m, files, disk).value.homes;
      assert homes[0].url == files.mirror.value.url && homes[0] in homes;
    }
  }

  lemma ScopedIsFree(on: Keying, m: Machine, files: Files, disk: Disk, url: string)
    requires Free(on, files, url) && Scoped(m, files, disk).Ok? && Valid(Scoped(m, files, disk).value)
    ensures HomesFree(on, Scoped(m, files, disk).value.homes, url)
  {
    var w := Scoped(m, files, disk).value;
    ValidMeans(w);
  }

  lemma RemoveByUrlKeepsFree(on: Keying, m: Machine, files: Files, other: string, dryRun: bool, disk: Disk, url: string)
    requires Free(on, files, url)
    ensures Free(on, RemoveByUrl(on, m, files, other, dryRun, disk).0, url)
  {
    var scoped := Scoped(m, files, disk);
    if scoped.Ok? && Valid(scoped.value) {
      var w := scoped.value;
      ScopedIsFree(on, m, files, disk, url);
      KeptIsFree(on, w.homes, other);
      var kept := KeptHomes(on, w.homes, other, |w.homes|);
      assert HomesFree(on, kept, url);
      WriteKeptKeepsFree(on, m, files, w.(homes := kept), |w.homes| - |kept|, disk, url);
    }
  }

  lemma StartKeepsFree(on: Keying, m: Machine, files: Files, flags: Flags, disk: Disk, url: string)
    requires Free(on, files, url) && !ForcesSingle(flags)
    ensures Free(on, Start(on, m, files, flags, disk).0, url)
    ensures !CanConnect(on, m, files, Run(flags, disk), url)
  {
    SingleHomeNeedsFlags(on, m, files, flags, disk);
    LoadKeepsFree(on, m, files, disk, url);
    var (loaded, registry) := Load(m, files, disk);
    if registry.Ok? {
      var w := if flags.name != "" then registry.value.(name := flags.name) else registry.value;
      SyncKeepsFree(on, m, loaded, w, disk, url);
    }
  }

  lemma EnrolledIsFree(on: Keying, homes: seq<Home>, o: Upsert, url: string)
    requires Enrolled(on, homes, o).Ok? && HomesFree(on, homes, url) && on(Trim(o.url)) != on(url)
    ensures var (after, h) := Enrolled(on, homes, o).value;
            HomesFree(on, after, url) && on(h.url) != on(url)
  {
    EnrolledHomeIsLast(on, homes, o);
    var (after, h) := Enrolled(on, homes, o).value;
    forall g | g in after ensures on(g.url) != on(url) {
      assert g in homes || g == h;
    }
  }

  lemma PairKeepsFree(on: Keying, m: Machine, files: Files, o: Upsert, disk: Disk, url: string)
    requires Free(on, files, url) && on(Trim(o.url)) != on(url)
    ensures Free(on, UpsertHome(on, m, files, o, disk).0, url)
  {
    LoadKeepsFree(on, m, files, disk, url);
    var (loaded, before) := Load(m, files, disk);
    if UpsertArguments(o) && before.Ok? && Enrolled(on, before.value.homes, o).Ok? {
      EnrolledIsFree(on, before.value.homes, o, url);
      var (homes, h) := Enrolled(on, before.value.homes, o).value;
      SaveKeepsFree(on, m, loaded, WithOptions(m, before.value.(homes := homes), o), disk.save, url);
    }
  }

  lemma LeftIsFree(on: Keying, homes: seq<Home>, i: nat, url: string)
    requires i < |homes| && HomesFree(on, homes, url)
    ensures HomesFree(on, homes[i := homes[i].(enabled := Some(false))], url)
    ensures HomesFree(on, homes[i := homes[i].(enabled := Some(true))], url)
    ensures HomesFree(on, Without(homes, i), url)
  {
    assert homes[i] in homes;
  }

  lemma UnpairKeepsFree(on: Keying, m: Machine, files: Files, id: string, disableOnly: bool, disk: Disk, url: string)
    requires Free(on, files, url)
    ensures Free(on, RemoveHome(on, m, files, id, disableOnly, disk).0, url)
  {
    LoadKeepsFree(on, m, files, disk, url);
    var (loaded, before) := Load(m, files, disk);
    if before.Ok? {
      var homes := before.value.homes;
      var i := FirstId(homes, Trim(id), 0);
      if i < |homes| {
        LeftIsFree(on, homes, i, url);
        var left := HomesLeft(homes, i, disableOnly);
        var w := before.value.(homes := left);
        SaveKeepsFree(on, m, loaded, w, disk.save, url);
        SyncKeepsFree(on, m, Save(m, loaded, w, disk.save).0, w, disk, url);
      }
    }
  }

  lemma CommandKeepsFree(on: Keying, m: Machine, files: Files, c: Command, url: string)
    requires Free(on, files, url) && Leaves(on, c, url)
    ensures Free(on, After(on, m, files, c), url)
    ensures !CanConnect(on, m, files, c, url)
  {
    match c
    case Run(flags, disk) => StartKeepsFree(on, m, files, flags, disk, url);
    case ShowConfig(disk) => LoadKeepsFree(on, m, files, disk, url);
    case Pair(options, disk) => PairKeepsFree(on, m, files, options, disk, url);
    case Unpair(id, disableOnly, disk) => UnpairKeepsFree(on, m, files, id, disableOnly, disk, url);
    case UnpairUrl(other, dryRun, regular, disk) => RemoveByUrlKeepsFree(on, m, files, other, dryRun, disk, url);
    case SetEnabled(id, enabled, ok) =>
      if files.workers.Content? {
        var homes := files.workers.value.homes;
        var i := FirstId(homes, id, 0);
        if i < |homes| { LeftIsFree(on, homes, i, url); }
      }
  }

  lemma {:induction false} RunKeepsFree(on: Keying, m: Machine, files: Files, commands: seq<Command>, url: string)
    requires Free(on, files, url)
    requires forall c :: c in commands ==> Leaves(on, c, url)
    ensures Free(on, AfterAll(on, m, files, commands), url)
  {
    if commands != [] {
      var before := commands[..|commands| - 1];
      RunKeepsFree(on, m, files, before, url);
      CommandKeepsFree(on, m, AfterAll(on, m, files, before), commands[|commands| - 1], url);
    }
  }

  /** Once unpairing a cluster by URL succeeds, no later start connects to it, whatever commands
      run in between and whichever disk operations fail, until that cluster is paired again. */
  lemma UnpairedStaysUnpaired(on: Keying, m: Machine, files: Files, url: string, regular: bool, disk: Disk,
                              later: seq<Command>, start: Command)
    requires forall c :: c in later ==> Leaves(on, c, url)
    requires Leaves(on, start, url)
    ensures var (unpaired, r) := RemoveHomesByUrl(on, m, files, url, false, regular, disk);
            r.Ok? ==> !CanConnect(on, m, AfterAll(on, m, unpaired, later), start, url)
  {
    var (unpaired, r) := RemoveHomesByUrl(on, m, files, url, false, regular, disk);
    if r.Ok? {
      RemovedByUrlIsFree(on, m, files, url, disk);
      RunKeepsFree(on, m, unpaired, later, url);
      CommandKeepsFree(on, m, AfterAll(on, m, unpaired, later), start, url);
    }
  }

  /** The same for the worker's own rule, sameClusterURL, in the source's terms: no home that a
      later start hands the fleet matches the unpaired URL. */
  lemma UnpairedStaysUnpairedByRule(m: Machine, files: Files, url: string, regular: bool, disk: Disk,
                                    later: seq<Command>, flags: Flags, last: Disk)
    requires forall c :: c in later && c.Pair? ==> !SameByRule(c.options.url, url)
    requires forall c :: c in later && c.Run? ==> !ForcesSingle(c.flags)
    requires !ForcesSingle(flags)
    ensures var (unpaired, r) := RemoveHomesByUrl(Key, m, files, url, false, regular, disk);
            var started := Start(Key, m, AfterAll(Key, m, unpaired, later), flags, last).1;
            && !started.SingleHome?
            && (r.Ok? && started.Fleet? ==> forall h :: h in started.homes ==> !SameByRule(h.url, url))
  {
    forall c | c in later ensures Leaves(Key, c, url) {
      if c.Pair? {
        RuleIsKeyEquality(c.options.url, url);
        KeyOfTrimmed(c.options.url);
      }
    }
    UnpairedStaysUnpaired(Key, m, files, url, regular, disk, later, Run(flags, last));
    var (unpaired, r) := RemoveHomesByUrl(Key, m, files, url, false, regular, disk);
    var before := AfterAll(Key, m, unpaired, later);
    SingleHomeNeedsFlags(Key, m, before, flags, last);
    var started := Start(Key, m, before, flags, last).1;
    if r.Ok? && started.Fleet? {
      forall h | h in started.homes ensures !SameByRule(h.url, url) {
        RuleIsKeyEquality(h.url, url);
      }
    }
  }

  // -------------------------------------------------------------------------
  // Unpairing by URL takes exactly one cluster, once
  // -------------------------------------------------------------------------

  lemma WriteKeptStores(on: Keying, m: Machine, files: Files, left: Workers, removed: nat, disk: Disk)
    requires WriteKept(on, m, files, left, removed, disk).1.Ok?
    ensures var (after, r) := WriteKept(on, m, files, left, removed, disk);
            && r.value.removed == removed && r.value.remaining == |left.homes|
            && (removed > 0 ==> after.workers == Content(Normalize(m, left)))
            && (removed == 0 ==> after.workers == files.workers)
            && (after.workers.Content? ==> MirrorInLine(on, after.mirror, left.homes))
            && (!r.value.changed ==> after == files)
  {
    var saved := if removed > 0 then Save(m, files, left, disk.save).0 else files;
    if Sync(on, m, saved, left, disk).1.Ok? {
      SyncPutsMirrorInLine(on, m, saved, left, disk);
    }
  }

  /** A preview writes nothing. A removal keeps exactly the homes of other clusters, in order,
      counts what it took, and leaves the mirror in line; it reports a change when it removed a
      home or touched the mirror, and reports none only when both files are as they were. */
  lemma RemoveByUrlTakesTheCluster(on: Keying, m: Machine, files: Files, url: string, dryRun: bool, disk: Disk)
    ensures var (after, r) := RemoveByUrl(on, m, files, url, dryRun, disk);
            r.Ok? ==>
              && Scoped(m, files, disk).Ok?
              && (!r.value.changed ==> after == files)
              && (dryRun ==> !r.value.changed)
              && var homes := Scoped(m, files, disk).value.homes;
                 var kept := KeptHomes(on, homes, url, |homes|);
                 && r.value.removed + r.value.remaining == |homes| && r.value.remaining == |kept|
                 && (!dryRun && after.workers.Content? ==>
                       after.workers.value.homes == kept && MirrorInLine(on, after.mirror, kept))
  {
    if RemoveByUrl(on, m, files, url, dryRun, disk).1.Ok? {
      var w := Scoped(m, files, disk).value;
      var kept := KeptHomes(on, w.homes, url, |w.homes|);
      KeptIsFree(on, w.homes, url);
      if !dryRun {
        WriteKeptStores(on, m, files, w.(homes := kept), |w.homes| - |kept|, disk);
      }
    }
  }

  lemma {:induction false} KeptTwice(on: Keying, homes: seq<Home>, url: string, n: nat)
    requires n <= |homes| && forall h :: h in homes[..n] ==> on(h.url) != on(url)
    ensures KeptHomes(on, homes, url, n) == homes[..n]
  {
    if n > 0 {
      assert homes[..n] == homes[..n - 1] + [homes[n - 1]];
      assert homes[n - 1] in homes[..n];
      KeptTwice(on, homes, url, n - 1);
    }
  }

  lemma WriteKeptInLine(on: Keying, m: Machine, files: Files, left: Workers, disk: Disk)
    requires files.workers.Content? && MirrorInLine(on, files.mirror, left.homes)
    requires WriteKept(on, m, files, left, 0, disk).1.Ok?
    ensures WriteKept(on, m, files, left, 0, disk) == (files, Ok(UnpairResult(0, |left.homes|, false)))
  {
    if files.mirror.Content? {
      var h :| h in left.homes && IsEnabled(h) && Names(on, files.mirror.value, h);
      assert Names(on, MirrorConfig(m, files.mirror), h);
    }
  }

  /** A second removal of the same cluster finds nothing and changes nothing. */
  lemma RemoveByUrlTwice(on: Keying, m: Machine, files: Files, url: string, disk: Disk, again: Disk)
    ensures var (after, r) := RemoveByUrl(on, m, files, url, false, disk);
            var (twice, r') := RemoveByUrl(on, m, after, url, false, again);
            r.Ok? && after.workers.Content? && r'.Ok? ==>
              twice == after && r'.value == UnpairResult(0, r.value.remaining, false)
  {
    var (after, r) := RemoveByUrl(on, m, files, url, false, disk);
    if r.Ok? && after.workers.Content? && RemoveByUrl(on, m, after, url, false, again).1.Ok? {
      RemoveByUrlTakesTheCluster(on, m, files, url, false, disk);
      RemovedByUrlIsFree(on, m, files, url, disk);
      var homes := after.workers.value.homes;
      assert homes[..|homes|] == homes;
      KeptTwice(on, homes, url, |homes|);
      WriteKeptInLine(on, m, after, Normalize(m, after.workers.value).(homes := homes), again);
    }
  }
}
