/** What each enrollment command answers and leaves in both files, told from what was in them: when it
    succeeds, which error it gives when it does not, and that a command that fails early has changed
    nothing. */
module EnrollmentOutcomes {
  import opened Basics
  import opened ClusterUrl
  import opened Homes
  import opened Enrollment
  import opened EnrollmentRuns
  import opened EnrollmentForce

  // -------------------------------------------------------------------------
  // Filling in, saving and loading
  // -------------------------------------------------------------------------

  /** A registry that can be saved: the blanks filled in, it names the worker and has the HEADLESS
      capability, and each home has an id of its own, a URL and a worker token. */
  ghost predicate Good(m: Machine, w: Workers) {
    && w.version in {0, 1}
    && (Trim(w.name) != "" || (w.name == "" && Trim(m.hostname) != ""))
    && (w.capabilities == [] || "HEADLESS" in w.capabilities)
    && (forall h :: h in w.homes ==> Trim(h.id) != "" && Trim(h.url) != "" && "mql_wkr_" <= Trim(h.token))
    && forall i, j :: 0 <= i < j < |w.homes| ==> Trim(w.homes[i].id) != Trim(w.homes[j].id)
  }

  /** filled is w with what it leaves blank taken from the machine. */
  predicate Filled(m: Machine, w: Workers, filled: Workers) {
    && filled.homes == w.homes
    && filled.version == (if w.version == 0 then 1 else w.version)
    && filled.name == (if w.name == "" then m.hostname else w.name)
    && filled.capabilities == if w.capabilities == [] then ["HEADLESS"] else w.capabilities
  }

  /** A save stores the registry with its blanks filled, exactly when that is good and the write
      succeeds; otherwise it changes nothing and says which. */
  lemma SavesExactlyWhen(m: Machine, files: Files, w: Workers, ok: bool)
    ensures var (after, r) := Save(m, files, w, ok);
            && (r.Ok? <==> Good(m, w) && ok)
            && (r == Err(Invalid) <==> !Good(m, w))
            && (r.Ok? ==> after.workers.Content? && Filled(m, w, after.workers.value) && after.mirror == files.mirror)
            && (r.Err? ==> after == files && r.error in {Invalid, Unwritable})
  {
    ValidMeans(Normalize(m, w));
    if w.name == "" { TrimOfTrimmed(w.name); }
    assert Filled(m, w, Normalize(m, w));
  }

  /** The mirror enrols nothing. */
  predicate Blank(mirror: File<Config>) {
    mirror.Absent? || (mirror.Content? && Trim(mirror.value.url) == "" && Trim(mirror.value.token) == "")
  }

  /** The registry a mirror is migrated into: one enabled home, under the id of its URL. */
  function Migrated(m: Machine, c: Config): Workers {
    Workers(1, if c.name == "" then m.hostname else c.name,
            if c.capabilities == [] then ["HEADLESS"] else c.capabilities,
            [Home(HomeId(c.url), c.url, "", c.token, Some(true))])
  }

  /** A registry that is there is read as it is, its blanks filled, and nothing is written. */
  lemma LoadsRegistry(m: Machine, files: Files, disk: Disk)
    requires !files.workers.Absent?
    ensures var (after, r) := Load(m, files, disk);
            && after == files
            && (r.Ok? <==> files.workers.Content? && disk.readWorkers)
            && (r.Ok? ==> Filled(m, files.workers.value, r.value))
            && (r.Err? ==> r.error.Unreadable?)
  {
  }

  /** Without one, the mirror is migrated: exactly when it can be read, and enrols nothing or enrols a
      home that can be saved and is. A mirror that enrols nothing is an empty registry, and is not
      written. */
  lemma MigratesExactlyWhen(m: Machine, files: Files, disk: Disk)
    requires files.workers.Absent?
    ensures var (after, r) := Load(m, files, disk);
            var readable, blank := disk.readMirror && !files.mirror.Broken?, Blank(files.mirror);
            && (r.Ok? <==> readable && (blank || (Good(m, Migrated(m, files.mirror.value)) && disk.migrate)))
            && (r == Err(Unreadable) <==> !readable)
            && (r == Err(Invalid) <==> readable && !blank && !Good(m, Migrated(m, files.mirror.value)))
            && (r.Ok? && blank ==> after == files && r.value == Workers(1, m.hostname, ["HEADLESS"], []))
            && (r.Ok? && !blank ==>
                  r.value == Migrated(m, files.mirror.value) && after == files.(workers := Content(r.value)))
            && (r.Err? ==> after == files && r.error in {Unreadable, Invalid, Unwritable})
  {
    if disk.readMirror && !files.mirror.Broken? {
      if files.mirror.Absent? {
        TrimOfTrimmed("");
      } else {
        var c := files.mirror.value;
        assert FromMirror(m, MirrorConfig(m, files.mirror)) == Migrated(m, c);
        assert Normalize(m, Migrated(m, c)) == Migrated(m, c);
        SavesExactlyWhen(m, files, Migrated(m, c), disk.migrate);
      }
    }
  }

  lemma LoadErrors(m: Machine, files: Files, disk: Disk)
    ensures var r := Load(m, files, disk).1; r.Err? ==> r.error in {Unreadable, Invalid, Unwritable}
  {
    if files.workers.Absent? { MigratesExactlyWhen(m, files, disk); } else { LoadsRegistry(m, files, disk); }
  }

  // -------------------------------------------------------------------------
  // The mirror
  // -------------------------------------------------------------------------

  /** The mirror names an enabled home, with its token. */
  ghost predicate InStep(on: Keying, mirror: File<Config>, homes: seq<Home>) {
    && mirror.Content?
    && exists h :: h in homes && h.enabled != Some(false)
         && Trim(h.token) == Trim(mirror.value.token) && on(h.url) == on(mirror.value.url)
  }

  /** The mirror is not there, or can be read and needs no write or gets it. */
  ghost predicate CanSync(on: Keying, mirror: File<Config>, homes: seq<Home>, disk: Disk) {
    mirror.Absent? || (mirror.Content? && disk.syncRead && (InStep(on, mirror, homes) || disk.syncWrite))
  }

  lemma InStepMeans(on: Keying, m: Machine, mirror: File<Config>, homes: seq<Home>)
    requires mirror.Content?
    ensures NamesAny(on, MirrorConfig(m, mirror), homes) <==> InStep(on, mirror, homes)
  {
    var c := MirrorConfig(m, mirror);
    assert forall h :: h in homes && IsEnabled(h) && Names(on, c, h) <==>
        h in homes && h.enabled != Some(false) && Trim(h.token) == Trim(mirror.value.token) && on(h.url) == on(mirror.value.url);
  }

  /** A sync fails exactly when it cannot read the mirror or cannot write what it has to, and then it has
      changed nothing; it leaves a mirror that names an enabled home, or is not there. */
  lemma SyncsExactlyWhen(on: Keying, m: Machine, files: Files, w: Workers, disk: Disk)
    ensures var (after, r) := Sync(on, m, files, w, disk);
            && (r.Ok? <==> CanSync(on, files.mirror, w.homes, disk))
            && (r.Err? ==> after == files && r.error in {Unreadable, Unwritable})
            && (r == Ok(MirrorAbsent) <==> files.mirror.Absent?)
            && (r == Ok(MirrorUntouched) <==> disk.syncRead && InStep(on, files.mirror, w.homes))
            && (r == Ok(MirrorAbsent) || r == Ok(MirrorUntouched) ==> after == files)
            && after.workers == files.workers
  {
    if files.mirror.Content? { InStepMeans(on, m, files.mirror, w.homes); }
  }

  /** Any other mirror it writes with the first home that connects, or takes away when none is enabled. */
  lemma SyncRewrites(on: Keying, m: Machine, files: Files, w: Workers, disk: Disk)
    requires var r := Sync(on, m, files, w, disk).1; r.Ok? && !r.value.MirrorAbsent? && !r.value.MirrorUntouched?
    ensures var (after, r) := Sync(on, m, files, w, disk);
            var run := Runnable(on, w.homes);
            if forall h :: h in w.homes ==> h.enabled == Some(false) then
              r.value.MirrorDeleted? && after == files.(mirror := Absent)
            else
              && run != [] && r.value == MirrorRewritten(run[0].id)
              && after == files.(mirror := Content(Config(run[0].url, run[0].token, w.name, w.capabilities)))
  {
    SomethingRuns(on, w.homes);
    if EnabledHomes(w.homes) != [] {
      assert EnabledHomes(w.homes)[0] in w.homes;
    } else {
      forall h | h in w.homes ensures h.enabled == Some(false) {
        assert h !in EnabledHomes(w.homes);
      }
    }
  }

  // -------------------------------------------------------------------------
  // Pairing
  // -------------------------------------------------------------------------

  /** w is before as the pairing changes it. */
  ghost predicate PairedRegistry(on: Keying, m: Machine, before: Workers, o: Upsert, w: Workers) {
    && w.version == before.version
    && w.name == (if Trim(o.name) != "" then Trim(o.name) else before.name)
    && w.capabilities == (if o.capabilities != [] then o.capabilities
                          else if before.capabilities != [] then before.capabilities else m.buildCapabilities)
    && exists p: nat :: Paired(on, before.homes, o, w.homes, p)
  }

  lemma PairedIsUnique(on: Keying, before: seq<Home>, o: Upsert, a: seq<Home>, b: seq<Home>)
    requires exists p: nat :: Paired(on, before, o, a, p)
    requires exists p: nat :: Paired(on, before, o, b, p)
    ensures a == b
  {
    var p: nat :| Paired(on, before, o, a, p);
    var q: nat :| Paired(on, before, o, b, q);
    assert p == q;
    assert a[p] == b[p];
  }

  /** The registry a pairing saves. */
  function Upserted(on: Keying, m: Machine, before: Workers, o: Upsert): Workers
    requires Enrolled(on, before.homes, o).Ok?
  {
    WithOptions(m, before.(homes := Enrolled(on, before.homes, o).value.0), o)
  }

  lemma UpsertedIsPaired(on: Keying, m: Machine, before: Workers, o: Upsert)
    requires Enrolled(on, before.homes, o).Ok?
    ensures PairedRegistry(on, m, before, o, Upserted(on, m, before, o))
  {
    EnrolledInPlace(on, before.homes, o);
  }

  lemma UpsertSaves(on: Keying, m: Machine, files: Files, o: Upsert, disk: Disk)
    requires UpsertArguments(o) && Load(m, files, disk).1.Ok?
    requires Enrolled(on, Load(m, files, disk).1.value.homes, o).Ok?
    ensures var (loaded, before) := Load(m, files, disk);
            var w := Upserted(on, m, before.value, o);
            var (saved, outcome) := Save(m, loaded, w, disk.save);
            var (after, r) := UpsertHome(on, m, files, o, disk);
            && (outcome.Err? ==> r == Err(outcome.error) && after == saved)
            && (outcome.Ok? ==> r == Ok(w) && after.workers == saved.workers)
            && (outcome.Ok? ==> after.mirror == if disk.syncWrite then Content(Config(Trim(o.url), Trim(o.token), w.name, w.capabilities))
                                                else saved.mirror)
  {
    EnrolledInPlace(on, Load(m, files, disk).1.value.homes, o);
  }

  /** A pairing that is asked properly, and needs no --force or has it, succeeds exactly when the registry
      it makes is good and is written. It answers with that registry, which is then in the file, and the
      mirror names the paired home unless its own write failed; a pairing that fails leaves what the load
      left. */
  lemma PairsExactlyWhen(on: Keying, m: Machine, files: Files, o: Upsert, disk: Disk, w: Workers)
    requires Trim(o.url) != "" && "mql_wkr_" <= Trim(o.token)
    requires Load(m, files, disk).1.Ok? && (Remaps(on, Load(m, files, disk).1.value.homes, o) ==> o.force)
    requires PairedRegistry(on, m, Load(m, files, disk).1.value, o, w)
    ensures var (after, r) := UpsertHome(on, m, files, o, disk);
            && (r.Ok? <==> Good(m, w) && disk.save)
            && (r == Err(Invalid) <==> !Good(m, w))
            && (r.Err? ==> after == Load(m, files, disk).0)
            && (r.Ok? ==> r.value == w && after.workers.Content? && Filled(m, w, after.workers.value))
            && (r.Ok? ==> after.mirror == if disk.syncWrite then Content(Config(Trim(o.url), Trim(o.token), w.name, w.capabilities))
                                          else files.mirror)
  {
    var before := Load(m, files, disk).1.value;
    EnrolledNeedsForce(on, before.homes, o);
    UpsertedIsPaired(on, m, before, o);
    PairedIsUnique(on, before.homes, o, w.homes, Upserted(on, m, before, o).homes);
    assert Upserted(on, m, before, o) == w;
    UpsertSaves(on, m, files, o, disk);
    SavesExactlyWhen(m, Load(m, files, disk).0, w, disk.save);
    LoadKeepsMirror(m, files, disk);
  }

  /** It is refused for its arguments exactly when it has no URL or no worker token, and then, or when the
      load fails, it has done no more than the load. */
  lemma PairRefuses(on: Keying, m: Machine, files: Files, o: Upsert, disk: Disk)
    ensures var (after, r) := UpsertHome(on, m, files, o, disk);
            && (r == Err(BadArgument) <==> Trim(o.url) == "" || !("mql_wkr_" <= Trim(o.token)))
            && (r == Err(BadArgument) ==> after == files)
            && (r != Err(BadArgument) && Load(m, files, disk).1.Err? ==> (after, r) == Load(m, files, disk))
  {
    var before := Load(m, files, disk).1;
    if UpsertArguments(o) && before.Ok? {
      EnrolledNeedsForce(on, before.value.homes, o);
    }
  }

  // -------------------------------------------------------------------------
  // Unpairing by id
  // -------------------------------------------------------------------------

  ghost predicate IsFirstOf(homes: seq<Home>, id: string, i: nat) {
    i < |homes| && homes[i].id == id && forall j :: 0 <= j < i ==> homes[j].id != id
  }

  /** What taking out, or disabling, home i leaves. */
  function LeftWithout(w: Workers, i: nat, disableOnly: bool): Workers
    requires i < |w.homes|
  {
    w.(homes := if disableOnly then w.homes[i := w.homes[i].(enabled := Some(false))] else w.homes[..i] + w.homes[i + 1..])
  }

  /** Unpairing by id succeeds exactly when some home has it and the registry without it is good and is
      written; then it answers with that registry and the home it took, and the mirror is synced. */
  lemma UnpairsExactlyWhen(on: Keying, m: Machine, files: Files, id: string, disableOnly: bool, disk: Disk, i: nat)
    requires Trim(id) != "" && Load(m, files, disk).1.Ok?
    requires IsFirstOf(Load(m, files, disk).1.value.homes, Trim(id), i)
    ensures var (loaded, before) := Load(m, files, disk);
            var (after, r) := RemoveHome(on, m, files, id, disableOnly, disk);
            var left := LeftWithout(before.value, i, disableOnly);
            && (r.Ok? <==> Good(m, left) && disk.save)
            && (r == Err(Invalid) <==> !Good(m, left))
            && (r.Err? ==> after == loaded)
            && (r.Ok? ==> r.value.workers == left && r.value.removed == before.value.homes[i])
            && (r.Ok? ==> (after, r.value.mirror) == Sync(on, m, Save(m, loaded, left, true).0, left, disk))
  {
    var (loaded, before) := Load(m, files, disk);
    assert FirstId(before.value.homes, Trim(id), 0) == i;
    SavesExactlyWhen(m, loaded, LeftWithout(before.value, i, disableOnly), disk.save);
  }

  lemma RemoveAtErrors(on: Keying, m: Machine, files: Files, before: Workers, i: nat, disableOnly: bool, disk: Disk)
    requires i < |before.homes|
    ensures var r := RemoveAt(on, m, files, before, i, disableOnly, disk).1; r.Err? ==> r.error in {Invalid, Unwritable}
  {
  }

  /** Its other answers. */
  lemma UnpairRefuses(on: Keying, m: Machine, files: Files, id: string, disableOnly: bool, disk: Disk)
    ensures var (loaded, before) := Load(m, files, disk);
            var (after, r) := RemoveHome(on, m, files, id, disableOnly, disk);
            && (r == Err(BadArgument) <==> Trim(id) == "")
            && (r == Err(NotFound) <==> Trim(id) != "" && before.Ok? && forall h :: h in before.value.homes ==> h.id != Trim(id))
            && (r == Err(BadArgument) ==> after == files)
            && (r == Err(NotFound) ==> after == loaded)
            && (Trim(id) != "" && before.Err? ==> after == loaded && r == Err(before.error))
  {
    var (loaded, before) := Load(m, files, disk);
    if Trim(id) != "" && before.Ok? {
      var homes := before.value.homes;
      var i := FirstId(homes, Trim(id), 0);
      if i < |homes| {
        assert homes[i] in homes;
        RemoveAtErrors(on, m, loaded, before.value, i, disableOnly, disk);
      }
    } else if before.Err? {
      LoadErrors(m, files, disk);
    }
  }

  // -------------------------------------------------------------------------
  // Unpairing by URL
  // -------------------------------------------------------------------------

  /** It takes an HTTP or HTTPS URL that names a host, with no user, query or fragment. */
  lemma UnpairTakesPlainUrls(url: string)
    ensures UnpairArgument(url) <==>
              exists u :: Parse(Trim(url)) == Some(u) && u.scheme in {"https", "http"} && Hostname(u.host) != ""
                && !u.hasUser && u.query == "" && u.fragment == ""
  {
  }

  /** Its registry is what a load would give, except that a mirror is not migrated for it. */
  lemma ScopedExactly(m: Machine, files: Files, disk: Disk)
    ensures !files.workers.Absent? ==> Scoped(m, files, disk) == Load(m, files, disk).1
    ensures files.workers.Absent? ==>
              Scoped(m, files, disk) == if files.mirror.Broken? || !disk.readMirror then Err(Unreadable)
                                        else if Blank(files.mirror) then Ok(Workers(1, m.hostname, ["HEADLESS"], []))
                                        else Ok(Migrated(m, files.mirror.value))
  {
    if files.workers.Absent? && files.mirror.Absent? { TrimOfTrimmed(""); }
    if files.workers.Absent? && files.mirror.Content? && !Blank(files.mirror) {
      assert FromMirror(m, MirrorConfig(m, files.mirror)) == Migrated(m, files.mirror.value);
    }
  }

  lemma {:induction false} KeptIsEarlier(on: Keying, homes: seq<Home>, url: string, n: nat, k: nat) returns (i: nat)
    requires n <= |homes| && k < |KeptHomes(on, homes, url, n)|
    ensures i < n && homes[i] == KeptHomes(on, homes, url, n)[k]
  {
    if on(homes[n - 1].url) == on(url) || k < |KeptHomes(on, homes, url, n)| - 1 {
      i := KeptIsEarlier(on, homes, url, n - 1, k);
    } else {
      i := n - 1;
    }
  }

  /** Homes that were apart, in any sense, still are. */
  lemma {:induction false} KeptStayApart(on: Keying, homes: seq<Home>, url: string, n: nat, apart: (Home, Home) -> bool)
    requires n <= |homes| && forall i, j :: 0 <= i < j < n ==> apart(homes[i], homes[j])
    ensures var kept := KeptHomes(on, homes, url, n); forall i, j :: 0 <= i < j < |kept| ==> apart(kept[i], kept[j])
  {
    if n > 0 {
      var before, kept := KeptHomes(on, homes, url, n - 1), KeptHomes(on, homes, url, n);
      KeptStayApart(on, homes, url, n - 1, apart);
      forall i, j | 0 <= i < j < |kept| ensures apart(kept[i], kept[j]) {
        if j == |before| {
          var k := KeptIsEarlier(on, homes, url, n - 1, i);
          assert kept[i] == homes[k] && kept[j] == homes[n - 1];
        } else {
          assert kept[i] == before[i] && kept[j] == before[j];
        }
      }
    }
  }

  lemma KeptStaysGood(on: Keying, m: Machine, w: Workers, url: string)
    requires Valid(w)
    ensures Good(m, w.(homes := KeptHomes(on, w.homes, url, |w.homes|)))
  {
    ValidMeans(w);
    KeptStayApart(on, w.homes, url, |w.homes|, (a: Home, b: Home) => Trim(a.id) != Trim(b.id));
    if w.name == "" { TrimOfTrimmed(w.name); }
    var kept := w.(homes := KeptHomes(on, w.homes, url, |w.homes|));
    assert forall h :: h in kept.homes ==> h in w.homes;
  }

  /** The files the mirror is synced in, once the registry is written. */
  function Written(m: Machine, files: Files, left: Workers, gone: nat, disk: Disk): Files {
    if gone > 0 then Save(m, files, left, disk.save).0 else files
  }

  lemma WriteKeptExactly(on: Keying, m: Machine, files: Files, left: Workers, gone: nat, disk: Disk)
    requires Good(m, left)
    ensures var (after, r) := WriteKept(on, m, files, left, gone, disk);
            && (r.Ok? <==> CanRemove(on, files, left.homes, gone, disk))
            && (r.Err? ==> after.mirror == files.mirror && r.error in {Unreadable, Unwritable})
            && (r.Err? && after != files ==> gone > 0 && after.workers.Content? && Filled(m, left, after.workers.value))
  {
    SavesExactlyWhen(m, files, left, disk.save);
    var saved := Written(m, files, left, gone, disk);
    SyncsExactlyWhen(on, m, saved, left, disk);
    if gone > 0 && !disk.save {
      assert WriteKept(on, m, files, left, gone, disk) == (files, Err(Unwritable));
    } else if gone == 0 && files.workers.Absent? {
      assert WriteKept(on, m, files, left, gone, disk).1.Ok?;
    } else {
      assert saved.mirror == files.mirror;
      assert WriteKept(on, m, files, left, gone, disk).1.Ok? == Sync(on, m, saved, left, disk).1.Ok?;
    }
  }

  lemma WriteKeptChanges(on: Keying, m: Machine, files: Files, left: Workers, gone: nat, disk: Disk)
    requires Good(m, left) && WriteKept(on, m, files, left, gone, disk).1.Ok?
    ensures WriteKept(on, m, files, left, gone, disk).1.value.changed <==>
              gone > 0 || (!files.workers.Absent? && files.mirror.Content? && !InStep(on, files.mirror, left.homes))
  {
    if gone == 0 && !files.workers.Absent? { SyncsExactlyWhen(on, m, files, left, disk); }
  }

  /** What a removal that gets so far writes. */
  lemma RemovalWrites(on: Keying, m: Machine, files: Files, w: Workers, url: string, disk: Disk)
    requires Valid(w) && !files.mirror.Broken? && disk.readMirror
    ensures var left := w.(homes := KeptHomes(on, w.homes, url, |w.homes|));
            && RemoveFrom(on, m, files, w, url, false, disk) == WriteKept(on, m, files, left, |w.homes| - |left.homes|, disk)
            && RemoveFrom(on, m, files, w, url, true, disk) == (files, Ok(UnpairResult(|w.homes| - |left.homes|, |left.homes|, false)))
  {
  }

  /** What a removal of w's homes on url's cluster needs to have written. */
  ghost predicate CanRemove(on: Keying, files: Files, kept: seq<Home>, gone: nat, disk: Disk) {
    && (gone == 0 || disk.save)
    && ((gone == 0 && files.workers.Absent?) || CanSync(on, files.mirror, kept, disk))
  }

  lemma RemovalFails(on: Keying, m: Machine, files: Files, w: Workers, url: string, dryRun: bool, disk: Disk)
    requires !Valid(w) || files.mirror.Broken? || !disk.readMirror
    ensures RemoveFrom(on, m, files, w, url, dryRun, disk) == (files, Err(if Valid(w) then Unreadable else Invalid))
  {
  }

  lemma RemovalWritesExactly(on: Keying, m: Machine, files: Files, w: Workers, url: string, disk: Disk)
    requires Valid(w) && !files.mirror.Broken? && disk.readMirror
    ensures var (after, r) := RemoveFrom(on, m, files, w, url, false, disk);
            var kept := KeptHomes(on, w.homes, url, |w.homes|);
            && (r.Ok? <==> CanRemove(on, files, kept, |w.homes| - |kept|, disk))
            && (r.Err? ==> after.mirror == files.mirror && r.error in {Unreadable, Unwritable})
            && (r.Err? && after != files ==> |kept| < |w.homes| && after.workers.Content? && Filled(m, w.(homes := kept), after.workers.value))
  {
    var left := w.(homes := KeptHomes(on, w.homes, url, |w.homes|));
    RemovalWrites(on, m, files, w, url, disk);
    KeptStaysGood(on, m, w, url);
    WriteKeptExactly(on, m, files, left, |w.homes| - |left.homes|, disk);
  }

  /** A removal succeeds exactly when the registry is good as it stands, the mirror can be read, and what
      it has to write is written: the registry when a home goes, and the mirror when one goes or a registry
      is there. Taking homes away never makes a good registry bad. One that fails has left both files as they
      were, or has taken the homes out and not put the mirror right. */
  lemma RemovesExactlyWhen(on: Keying, m: Machine, files: Files, url: string, dryRun: bool, disk: Disk, w: Workers)
    requires Scoped(m, files, disk) == Ok(w)
    ensures var (after, r) := RemoveByUrl(on, m, files, url, dryRun, disk);
            var kept := KeptHomes(on, w.homes, url, |w.homes|);
            && (r.Ok? <==>
                  && Valid(w) && !files.mirror.Broken? && disk.readMirror
                  && (dryRun || CanRemove(on, files, kept, |w.homes| - |kept|, disk)))
            && (r == Err(Invalid) <==> !Valid(w))
            && (r.Err? ==> after.mirror == files.mirror && r.error in {Invalid, Unreadable, Unwritable})
            && (r.Err? && after != files ==> |kept| < |w.homes| && after.workers.Content? && Filled(m, w.(homes := kept), after.workers.value))
  {
    assert RemoveByUrl(on, m, files, url, dryRun, disk) == RemoveFrom(on, m, files, w, url, dryRun, disk);
    if !Valid(w) || files.mirror.Broken? || !disk.readMirror {
      RemovalFails(on, m, files, w, url, dryRun, disk);
    } else if dryRun {
      RemovalWrites(on, m, files, w, url, disk);
    } else {
      RemovalWritesExactly(on, m, files, w, url, disk);
    }
  }

  /** It reports a change exactly when it took a home, or a registry is there and the mirror named none of
      the homes left. */
  lemma ReportsAChangeExactlyWhen(on: Keying, m: Machine, files: Files, url: string, disk: Disk)
    requires RemoveByUrl(on, m, files, url, false, disk).1.Ok?
    ensures Scoped(m, files, disk).Ok?
    ensures var homes := Scoped(m, files, disk).value.homes;
            var kept := KeptHomes(on, homes, url, |homes|);
            RemoveByUrl(on, m, files, url, false, disk).1.value.changed <==>
              |kept| < |homes| || (!files.workers.Absent? && files.mirror.Content? && !InStep(on, files.mirror, kept))
  {
    var w := Scoped(m, files, disk).value;
    var left := w.(homes := KeptHomes(on, w.homes, url, |w.homes|));
    RemovalWrites(on, m, files, w, url, disk);
    KeptStaysGood(on, m, w, url);
    WriteKeptChanges(on, m, files, left, |w.homes| - |left.homes|, disk);
  }

  /** And refuses anything but regular files and an argument it takes, before it reads them. */
  lemma RemovalRefuses(on: Keying, m: Machine, files: Files, url: string, dryRun: bool, regular: bool, disk: Disk)
    ensures var (after, r) := RemoveHomesByUrl(on, m, files, url, dryRun, regular, disk);
            && (r == Err(BadArgument) <==> !regular || !UnpairArgument(url))
            && (r == Err(BadArgument) ==> after == files)
            && (r != Err(BadArgument) && Scoped(m, files, disk).Err? ==> after == files && r == Err(Unreadable))
  {
    ScopedExactly(m, files, disk);
    if Scoped(m, files, disk).Ok? {
      RemovesExactlyWhen(on, m, files, url, dryRun, disk, Scoped(m, files, disk).value);
    } else if !files.workers.Absent? {
      LoadsRegistry(m, files, disk);
    }
  }
}
