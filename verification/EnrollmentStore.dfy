/** The two enrollment files as the worker's commands rewrite them, step by step. Each method is
    held to the function of the same name in Enrollment, which the run theorems are about. */
module EnrollmentStore {
  import opened Basics
  import opened ClusterUrl
  import opened Homes
  import opened Enrollment

  class Store {
    const on: Keying
    const machine: Machine
    var workers: File<Workers>
    var mirror: File<Config>

    constructor (on: Keying, machine: Machine, files: Files)
      ensures this.on == on && this.machine == machine && Now() == files
    {
      this.on, this.machine := on, machine;
      workers, mirror := files.workers, files.mirror;
    }

    function Now(): Files
      reads this
    {
      Files(workers, mirror)
    }

    /** The homes' part of Validate, with its set of ids seen so far. */
    static method ValidateHomes(homes: seq<Home>) returns (ok: bool)
      ensures ok == ValidHomes(homes, |homes|)
    {
      var seen: set<string> := {};
      for i := 0 to |homes|
        invariant forall id :: id in seen <==> HasId(homes, id, i)
        invariant ValidHomes(homes, i)
      {
        var id := Trim(homes[i].id);
        if !ValidHome(homes[i]) || id in seen {
          InvalidStays(homes, i + 1, |homes|);
          return false;
        }
        seen := seen + {id};
      }
      return true;
    }

    static lemma InvalidStays(homes: seq<Home>, i: nat, n: nat)
      requires i <= n <= |homes| && !ValidHomes(homes, i)
      ensures !ValidHomes(homes, n)
    {
      if i < n { InvalidStays(homes, i, n - 1); }
    }

    /** WorkersFile.Validate. */
    static method Validate(w: Workers) returns (ok: bool)
      ensures ok == Valid(w)
    {
      if w.version != 1 || Trim(w.name) == "" || HEADLESS !in w.capabilities {
        return false;
      }
      ok := ValidateHomes(w.homes);
    }

    /** SaveWorkers. */
    method SaveWorkers(w: Workers, ok: bool) returns (r: Result<()>)
      modifies this
      ensures (Now(), r) == Save(machine, old(Now()), w, ok)
    {
      var n := Normalize(machine, w);
      var valid := Validate(n);
      if !valid {
        return Err(Invalid);
      }
      if !ok {
        return Err(Unwritable);
      }
      workers := Content(n);
      return Ok(());
    }

    /** LoadWorkers. */
    method LoadWorkers(disk: Disk) returns (r: Result<Workers>)
      modifies this
      ensures (Now(), r) == Load(machine, old(Now()), disk)
    {
      if workers.Broken? || (workers.Content? && !disk.readWorkers) {
        return Err(Unreadable);
      }
      if workers.Content? {
        return Ok(Normalize(machine, workers.value));
      }
      if mirror.Broken? || !disk.readMirror {
        return Err(Unreadable);
      }
      var legacy := MirrorConfig(machine, mirror);
      if BlankConfig(legacy) {
        return Ok(NoWorkers(machine));
      }
      var migrated := FromMirror(machine, legacy);
      var saved := SaveWorkers(migrated, disk.migrate);
      if saved.Err? {
        return Err(saved.error);
      }
      return Ok(migrated);
    }

    /** syncLegacyMirror. */
    method SyncLegacyMirror(w: Workers, disk: Disk) returns (r: Result<Outcome>)
      modifies this
      ensures (Now(), r) == Sync(on, machine, old(Now()), w, disk)
    {
      if mirror.Absent? {
        return Ok(MirrorAbsent);
      }
      if mirror.Broken? || !disk.syncRead {
        return Err(Unreadable);
      }
      var config := MirrorConfig(machine, mirror);
      for i := 0 to |w.homes|
        invariant Now() == old(Now())
        invariant forall j :: 0 <= j < i && IsEnabled(w.homes[j]) ==> !Names(on, config, w.homes[j])
      {
        if IsEnabled(w.homes[i]) && Names(on, config, w.homes[i]) {
          assert w.homes[i] in w.homes;
          return Ok(MirrorUntouched);
        }
      }
      assert !NamesAny(on, config, w.homes);
      if !disk.syncWrite {
        return Err(Unwritable);
      }
      var run, _ := RunnableHomes(on, w.homes);
      if run != [] {
        mirror := Content(ConfigForHome(w, run[0]));
        return Ok(MirrorRewritten(run[0].id));
      }
      mirror := Absent;
      return Ok(MirrorDeleted);
    }

    /** The search of UpsertHome: the last home of the id, and the last on the URL's cluster. */
    static method FindHome(on: Keying, homes: seq<Home>, id: string, url: string) returns (byId: int, byUrl: int)
      ensures byId == LastId(homes, id, |homes|)
      ensures byUrl == LastOn(on, homes, url, |homes|)
    {
      byId, byUrl := -1, -1;
      for i := 0 to |homes|
        invariant byId == LastId(homes, id, i)
        invariant byUrl == LastOn(on, homes, url, i)
      {
        if homes[i].id == id {
          byId := i;
        }
        if on(homes[i].url) == on(url) {
          byUrl := i;
        }
      }
    }

    /** UpsertHome. */
    method Upsert(o: Upsert, disk: Disk) returns (r: Result<Workers>)
      modifies this
      ensures (Now(), r) == UpsertHome(on, machine, old(Now()), o, disk)
    {
      if !UpsertArguments(o) {
        return Err(BadArgument);
      }
      r := LoadWorkers(disk);
      if r.Err? {
        return;
      }
      var w := r.value;
      var entry := Home(UpsertId(o), Trim(o.url), "", Trim(o.token), Some(true));
      var byId, byUrl := FindHome(on, w.homes, entry.id, entry.url);
      if 0 <= byUrl {
        if !(o.force && Trim(o.id) != "") {
          entry := entry.(id := w.homes[byUrl].id);
        }
        w := w.(homes := w.homes[byUrl := entry]);
      } else if 0 <= byId {
        if !o.force {
          return Err(NeedsForce);
        }
        w := w.(homes := w.homes[byId := entry]);
      } else {
        w := w.(homes := w.homes + [entry]);
      }
      w := WithOptions(machine, w, o);
      var saved := SaveWorkers(w, disk.save);
      if saved.Err? {
        return Err(saved.error);
      }
      if disk.syncWrite {
        mirror := Content(ConfigForHome(w, entry));
      }
      return Ok(w);
    }

    static method FindId(homes: seq<Home>, id: string) returns (i: nat)
      ensures i == FirstId(homes, id, 0)
    {
      i := 0;
      while i < |homes| && homes[i].id != id
        invariant i <= |homes|
        invariant FirstId(homes, id, 0) == FirstId(homes, id, i)
      {
        i := i + 1;
      }
    }

    /** RemoveHome. */
    method Remove(id: string, disableOnly: bool, disk: Disk) returns (r: Result<Removal>)
      modifies this
      ensures (Now(), r) == RemoveHome(on, machine, old(Now()), id, disableOnly, disk)
    {
      if Trim(id) == "" {
        return Err(BadArgument);
      }
      var loaded := LoadWorkers(disk);
      if loaded.Err? {
        return Err(loaded.error);
      }
      var w := loaded.value;
      var i := FindId(w.homes, Trim(id));
      if i == |w.homes| {
        return Err(NotFound);
      }
      r := RemoveFound(w, i, disableOnly, disk);
    }

    method RemoveFound(before: Workers, i: nat, disableOnly: bool, disk: Disk) returns (r: Result<Removal>)
      requires i < |before.homes|
      modifies this
      ensures (Now(), r) == RemoveAt(on, machine, old(Now()), before, i, disableOnly, disk)
    {
      var w := before;
      if disableOnly {
        w := w.(homes := w.homes[i := w.homes[i].(enabled := Some(false))]);
      } else {
        w := w.(homes := w.homes[..i] + w.homes[i + 1..]);
      }
      var saved := SaveWorkers(w, disk.save);
      if saved.Err? {
        return Err(saved.error);
      }
      var outcome := SyncLegacyMirror(w, disk);
      return Ok(Removal(w, before.homes[i], outcome));
    }

    /** The split of RemoveHomesByURL: what it keeps, and how many it takes. */
    static method SplitHomes(on: Keying, homes: seq<Home>, url: string) returns (kept: seq<Home>, removed: nat)
      ensures kept == KeptHomes(on, homes, url, |homes|)
      ensures removed == |homes| - |kept|
    {
      kept, removed := [], 0;
      for i := 0 to |homes|
        invariant kept == KeptHomes(on, homes, url, i)
        invariant removed == i - |kept|
      {
        if on(homes[i].url) == on(url) {
          removed := removed + 1;
        } else {
          kept := kept + [homes[i]];
        }
      }
    }

    /** RemoveHomesByURL. */
    method RemoveByCluster(url: string, dryRun: bool, regular: bool, disk: Disk) returns (r: Result<UnpairResult>)
      modifies this
      ensures (Now(), r) == RemoveHomesByUrl(on, machine, old(Now()), url, dryRun, regular, disk)
    {
      if !UnpairArgument(url) || !regular {
        return Err(BadArgument);
      }
      r := RemoveScoped(url, dryRun, disk);
    }

    method RemoveScoped(url: string, dryRun: bool, disk: Disk) returns (r: Result<UnpairResult>)
      modifies this
      ensures (Now(), r) == RemoveByUrl(on, machine, old(Now()), url, dryRun, disk)
    {
      var scoped := Scoped(machine, Now(), disk);
      if scoped.Err? {
        return Err(scoped.error);
      }
      r := RemoveFromHomes(scoped.value, url, dryRun, disk);
    }

    method RemoveFromHomes(w: Workers, url: string, dryRun: bool, disk: Disk) returns (r: Result<UnpairResult>)
      modifies this
      ensures (Now(), r) == RemoveFrom(on, machine, old(Now()), w, url, dryRun, disk)
    {
      var valid := Validate(w);
      if !valid {
        return Err(Invalid);
      }
      var kept, removed := SplitHomes(on, w.homes, url);
      if mirror.Broken? || !disk.readMirror {
        return Err(Unreadable);
      }
      if dryRun {
        return Ok(UnpairResult(removed, |kept|, false));
      }
      r := WriteBoth(w.(homes := kept), removed, disk);
    }

    method WriteBoth(left: Workers, removed: nat, disk: Disk) returns (r: Result<UnpairResult>)
      modifies this
      ensures (Now(), r) == WriteKept(on, machine, old(Now()), left, removed, disk)
    {
      var registryPresent := !workers.Absent?;
      var changed := false;
      if removed > 0 {
        var saved := SaveWorkers(left, disk.save);
        if saved.Err? {
          return Err(saved.error);
        }
        changed := true;
      }
      if removed > 0 || registryPresent {
        var outcome := SyncLegacyMirror(left, disk);
        if outcome.Err? {
          return Err(outcome.error);
        }
        changed := changed || outcome.value.MirrorDeleted? || outcome.value.MirrorRewritten?;
      }
      return Ok(UnpairResult(removed, |left.homes|, changed));
    }
  }
}
