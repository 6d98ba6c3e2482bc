/** The enrollment registry (workers.yaml) and its legacy mirror (worker.yaml): what each
    command reads and leaves behind. */
module Enrollment {
  import opened Basics
  import opened ClusterUrl
  import opened Homes

  // -------------------------------------------------------------------------
  // Decoded file contents
  // -------------------------------------------------------------------------

  datatype Workers = Workers(version: int, name: string, capabilities: seq<string>, homes: seq<Home>)

  datatype Config = Config(url: string, token: string, name: string, capabilities: seq<string>)

  /** Broken is a file that exists and does not decode. */
  datatype File<+T> = Absent | Broken | Content(value: T)

  datatype Files = Files(workers: File<Workers>, mirror: File<Config>)

  /** The facts a command takes from the machine rather than from the files. */
  datatype Machine = Machine(hostname: string, buildCapabilities: seq<string>)

  /** Which disk operations of one command succeed. A write that fails changes nothing. */
  datatype Disk = Disk(readWorkers: bool, readMirror: bool, migrate: bool, save: bool,
                       syncRead: bool, syncWrite: bool)

  datatype Error = Unreadable | Unwritable | Invalid | BadArgument | NotFound | NeedsForce

  datatype Result<+T> = Ok(value: T) | Err(error: Error)

  const HEADLESS := "HEADLESS"

  function Defaults(m: Machine): Config {
    Config("", "", m.hostname, [HEADLESS])
  }

  /** LoadFile on an absent or decoded file. */
  function MirrorConfig(m: Machine, mirror: File<Config>): Config
    requires !mirror.Broken?
  {
    match mirror
    case Absent => Defaults(m)
    case Content(c) =>
      c.(name := if c.name == "" then m.hostname else c.name,
         capabilities := if c.capabilities == [] then [HEADLESS] else c.capabilities)
  }

  function Normalize(m: Machine, w: Workers): Workers {
    w.(version := if w.version == 0 then 1 else w.version,
       name := if w.name == "" then m.hostname else w.name,
       capabilities := if w.capabilities == [] then [HEADLESS] else w.capabilities)
  }

  function NoWorkers(m: Machine): Workers {
    Workers(1, m.hostname, [HEADLESS], [])
  }

  predicate IsWorkerToken(token: string) {
    "mql_wkr_" <= Trim(token)
  }

  predicate ValidHome(h: Home) {
    Trim(h.id) != "" && Trim(h.url) != "" && IsWorkerToken(h.token)
  }

  /** The first n homes are valid and their trimmed ids differ. */
  predicate ValidHomes(homes: seq<Home>, n: nat)
    requires n <= |homes|
  {
    n == 0 || (ValidHomes(homes, n - 1) && ValidHome(homes[n - 1]) && !HasId(homes, Trim(homes[n - 1].id), n - 1))
  }

  predicate HasId(homes: seq<Home>, id: string, n: nat)
    requires n <= |homes|
  {
    n != 0 && (Trim(homes[n - 1].id) == id || HasId(homes, id, n - 1))
  }

  /** WorkersFile.Validate. */
  predicate Valid(w: Workers) {
    && w.version == 1
    && Trim(w.name) != ""
    && HEADLESS in w.capabilities
    && ValidHomes(w.homes, |w.homes|)
  }

  lemma {:induction false} HasIdAt(homes: seq<Home>, id: string, n: nat)
    requires n <= |homes|
    ensures HasId(homes, id, n) <==> exists i :: 0 <= i < n && Trim(homes[i].id) == id
  {
    if n != 0 { HasIdAt(homes, id, n - 1); }
  }

  predicate DistinctIds(homes: seq<Home>) {
    forall i, j :: 0 <= i < j < |homes| ==> Trim(homes[i].id) != Trim(homes[j].id)
  }

  lemma {:induction false} ValidAt(homes: seq<Home>, n: nat, j: nat)
    requires j < n <= |homes| && ValidHomes(homes, n)
    ensures ValidHome(homes[j])
    ensures forall i :: 0 <= i < j ==> Trim(homes[i].id) != Trim(homes[j].id)
  {
    if j < n - 1 {
      ValidAt(homes, n - 1, j);
    } else {
      HasIdAt(homes, Trim(homes[j].id), j);
    }
  }

  lemma {:induction false} ValidUpTo(homes: seq<Home>, n: nat)
    requires n <= |homes| && DistinctIds(homes) && forall h :: h in homes ==> ValidHome(h)
    ensures ValidHomes(homes, n)
  {
    if n > 0 {
      ValidUpTo(homes, n - 1);
      HasIdAt(homes, Trim(homes[n - 1].id), n - 1);
      assert homes[n - 1] in homes;
    }
  }

  lemma ValidHomesMeans(homes: seq<Home>)
    ensures ValidHomes(homes, |homes|) <==> DistinctIds(homes) && forall h :: h in homes ==> ValidHome(h)
  {
    if ValidHomes(homes, |homes|) {
      forall j | 0 <= j < |homes|
        ensures ValidHome(homes[j])
        ensures forall i :: 0 <= i < j ==> Trim(homes[i].id) != Trim(homes[j].id)
      {
        ValidAt(homes, |homes|, j);
      }
    } else if DistinctIds(homes) && forall h :: h in homes ==> ValidHome(h) {
      ValidUpTo(homes, |homes|);
    }
  }

  /** A registry validates exactly when it is of version 1, names the worker, has the HEADLESS capability,
      and each of its homes has an id of its own, a URL and a worker token. */
  lemma ValidMeans(w: Workers)
    ensures Valid(w) <==>
              && w.version == 1 && Trim(w.name) != "" && "HEADLESS" in w.capabilities
              && (forall h :: h in w.homes ==> Trim(h.id) != "" && Trim(h.url) != "" && "mql_wkr_" <= Trim(h.token))
              && forall i, j :: 0 <= i < j < |w.homes| ==> Trim(w.homes[i].id) != Trim(w.homes[j].id)
    ensures Valid(w) ==> DistinctIds(w.homes) && forall h :: h in w.homes ==> ValidHome(h)
  {
    ValidHomesMeans(w.homes);
    assert forall h :: ValidHome(h) <==> Trim(h.id) != "" && Trim(h.url) != "" && "mql_wkr_" <= Trim(h.token);
    assert DistinctIds(w.homes) <==> forall i, j :: 0 <= i < j < |w.homes| ==> Trim(w.homes[i].id) != Trim(w.homes[j].id);
  }

  predicate ValidRun(w: Workers) {
    Valid(w) && w.homes != []
  }

  /** Config.Validate. */
  predicate ValidConfig(c: Config) {
    Trim(c.url) != "" && IsWorkerToken(c.token) && Trim(c.name) != "" && HEADLESS in c.capabilities
  }

  // -------------------------------------------------------------------------
  // Saving and loading
  // -------------------------------------------------------------------------

  /** SaveWorkers. */
  function Save(m: Machine, files: Files, w: Workers, ok: bool): (r: (Files, Result<()>)) {
    if !Valid(Normalize(m, w)) then (files, Err(Invalid))
    else if !ok then (files, Err(Unwritable))
    else (files.(workers := Content(Normalize(m, w))), Ok(()))
  }

  function FromMirror(m: Machine, c: Config): Workers {
    Normalize(m, Workers(1, c.name, c.capabilities,
                         [Home(HomeId(c.url), c.url, "", c.token, Some(true))]))
  }

  predicate BlankConfig(c: Config) {
    Trim(c.url) == "" && Trim(c.token) == ""
  }

  /** LoadWorkers: the registry, or the mirror migrated into one. */
  function Load(m: Machine, files: Files, disk: Disk): (r: (Files, Result<Workers>)) {
    match files.workers
    case Broken => (files, Err(Unreadable))
    case Content(w) => (files, if disk.readWorkers then Ok(Normalize(m, w)) else Err(Unreadable))
    case Absent =>
      if files.mirror.Broken? || !disk.readMirror then (files, Err(Unreadable))
      else
        var c := MirrorConfig(m, files.mirror);
        if BlankConfig(c) then (files, Ok(NoWorkers(m)))
        else
          var w := FromMirror(m, c);
          var (files', saved) := Save(m, files, w, disk.migrate);
          if saved.Ok? then (files', Ok(w)) else (files, Err(saved.error))
  }

  // -------------------------------------------------------------------------
  // The mirror
  // -------------------------------------------------------------------------

  datatype Outcome = MirrorAbsent | MirrorUntouched | MirrorRewritten(home: string) | MirrorDeleted

  function ConfigForHome(w: Workers, h: Home): Config {
    Config(h.url, h.token, w.name, w.capabilities)
  }

  /** The mirror names this home, with the token it holds now. */
  predicate Names(on: Keying, c: Config, h: Home) {
    Trim(c.token) == Trim(h.token) && on(c.url) == on(h.url)
  }

  predicate NamesAny(on: Keying, c: Config, homes: seq<Home>) {
    exists h :: h in homes && IsEnabled(h) && Names(on, c, h)
  }

  /** syncLegacyMirror. */
  function Sync(on: Keying, m: Machine, files: Files, w: Workers, disk: Disk): (r: (Files, Result<Outcome>)) {
    match files.mirror
    case Absent => (files, Ok(MirrorAbsent))
    case Broken => (files, Err(Unreadable))
    case Content(raw) =>
      if !disk.syncRead then (files, Err(Unreadable))
      else if NamesAny(on, MirrorConfig(m, files.mirror), w.homes) then (files, Ok(MirrorUntouched))
      else if !disk.syncWrite then (files, Err(Unwritable))
      else
        var run := Runnable(on, w.homes);
        if run != [] then
          (files.(mirror := Content(ConfigForHome(w, run[0]))), Ok(MirrorRewritten(run[0].id)))
        else (files.(mirror := Absent), Ok(MirrorDeleted))
  }

  // -------------------------------------------------------------------------
  // worker pair
  // -------------------------------------------------------------------------

  /** suggested is the id SuggestHomeID derives when the caller names none. */
  datatype Upsert = Upsert(id: string, suggested: string, url: string, token: string, name: string,
                           force: bool, capabilities: seq<string>)

  function LastId(homes: seq<Home>, id: string, n: nat): (i: int)
    requires n <= |homes|
    ensures -1 <= i < n
    ensures 0 <= i ==> homes[i].id == id
    ensures forall j :: i < j < n ==> homes[j].id != id
  {
    if n == 0 then -1
    else if homes[n - 1].id == id then n - 1
    else LastId(homes, id, n - 1)
  }

  function UpsertId(o: Upsert): string {
    if Trim(o.id) == "" then o.suggested else Trim(o.id)
  }

  /** The homes after the upsert, and the home it enrolled. */
  function Enrolled(on: Keying, homes: seq<Home>, o: Upsert): Result<(seq<Home>, Home)> {
    var entry := Home(UpsertId(o), Trim(o.url), "", Trim(o.token), Some(true));
    var byUrl := LastOn(on, homes, entry.url, |homes|);
    var byId := LastId(homes, entry.id, |homes|);
    if 0 <= byUrl then
      var kept := if o.force && Trim(o.id) != "" then entry else entry.(id := homes[byUrl].id);
      Ok((homes[byUrl := kept], kept))
    else if 0 <= byId then
      if o.force then Ok((homes[byId := entry], entry)) else Err(NeedsForce)
    else Ok((homes + [entry], entry))
  }

  function WithOptions(m: Machine, w: Workers, o: Upsert): Workers {
    w.(name := if Trim(o.name) == "" then w.name else Trim(o.name),
       capabilities := if o.capabilities != [] then o.capabilities
                       else if w.capabilities == [] then m.buildCapabilities
                       else w.capabilities)
  }

  predicate UpsertArguments(o: Upsert) {
    Trim(o.url) != "" && IsWorkerToken(o.token)
  }

  /** UpsertHome. */
  function UpsertHome(on: Keying, m: Machine, files: Files, o: Upsert, disk: Disk): (r: (Files, Result<Workers>)) {
    if !UpsertArguments(o) then (files, Err(BadArgument)) else
    var (loaded, before) := Load(m, files, disk);
    if before.Err? then (loaded, before) else
    match Enrolled(on, before.value.homes, o)
    case Err(e) => (loaded, Err(e))
    case Ok((homes, home)) =>
      var w := WithOptions(m, before.value.(homes := homes), o);
      var (saved, outcome) := Save(m, loaded, w, disk.save);
      if outcome.Err? then (saved, Err(outcome.error))
      else if disk.syncWrite then (saved.(mirror := Content(ConfigForHome(w, home))), Ok(w))
      else (saved, Ok(w))
  }

  // -------------------------------------------------------------------------
  // worker unpair
  // -------------------------------------------------------------------------

  function FirstId(homes: seq<Home>, id: string, from: nat): (i: nat)
    requires from <= |homes|
    ensures from <= i <= |homes|
    ensures i < |homes| ==> homes[i].id == id
    ensures forall j :: from <= j < i ==> homes[j].id != id
    decreases |homes| - from
  {
    if from == |homes| || homes[from].id == id then from else FirstId(homes, id, from + 1)
  }

  function Without(homes: seq<Home>, i: nat): seq<Home>
    requires i < |homes|
  {
    homes[..i] + homes[i + 1..]
  }

  datatype Removal = Removal(workers: Workers, removed: Home, mirror: Result<Outcome>)

  /** RemoveHome. Ok with an Err mirror is the error that still returns a result: the registry is
      saved and the mirror is not put right. */
  function RemoveHome(on: Keying, m: Machine, files: Files, id: string, disableOnly: bool, disk: Disk)
    : (r: (Files, Result<Removal>))
  {
    if Trim(id) == "" then (files, Err(BadArgument)) else
    var (loaded, before) := Load(m, files, disk);
    if before.Err? then (loaded, Err(before.error)) else
    var homes := before.value.homes;
    var i := FirstId(homes, Trim(id), 0);
    if i == |homes| then (loaded, Err(NotFound)) else
    RemoveAt(on, m, loaded, before.value, i, disableOnly, disk)
  }

  function HomesLeft(homes: seq<Home>, i: nat, disableOnly: bool): seq<Home>
    requires i < |homes|
  {
    if disableOnly then homes[i := homes[i].(enabled := Some(false))] else Without(homes, i)
  }

  function RemoveAt(on: Keying, m: Machine, files: Files, before: Workers, i: nat, disableOnly: bool, disk: Disk)
    : (r: (Files, Result<Removal>))
    requires i < |before.homes|
  {
    var w := before.(homes := HomesLeft(before.homes, i, disableOnly));
    var (saved, outcome) := Save(m, files, w, disk.save);
    if outcome.Err? then (saved, Err(outcome.error)) else
    var (synced, mirror) := Sync(on, m, saved, w, disk);
    (synced, Ok(Removal(w, before.homes[i], mirror)))
  }

  /** The homes not on url's cluster, in order. */
  function KeptHomes(on: Keying, homes: seq<Home>, url: string, n: nat): (kept: seq<Home>)
    requires n <= |homes|
    ensures |kept| <= n
    ensures forall h :: h in kept ==> h in homes && on(h.url) != on(url)
  {
    if n == 0 then []
    else if on(homes[n - 1].url) == on(url) then KeptHomes(on, homes, url, n - 1)
    else KeptHomes(on, homes, url, n - 1) + [homes[n - 1]]
  }

  datatype UnpairResult = UnpairResult(removed: nat, remaining: nat, changed: bool)

  /** What RemoveHomesByURL accepts: an HTTP(S) URL with a host and nothing else in it. */
  predicate UnpairArgument(url: string) {
    match Parse(Trim(url))
    case None => false
    case Some(u) =>
      Hostname(u.host) != "" && (u.scheme == "https" || u.scheme == "http") && !u.hasUser && u.query == "" && u.fragment == ""
  }

  /** The registry RemoveHomesByURL works on: read, or the mirror's, without migrating. */
  function Scoped(m: Machine, files: Files, disk: Disk): Result<Workers> {
    match files.workers
    case Broken => Err(Unreadable)
    case Content(w) => if disk.readWorkers then Ok(Normalize(m, w)) else Err(Unreadable)
    case Absent =>
      if files.mirror.Broken? || !disk.readMirror then Err(Unreadable)
      else
        var c := MirrorConfig(m, files.mirror);
        if BlankConfig(c) then Ok(NoWorkers(m)) else Ok(FromMirror(m, c))
  }

  /** Both files after the homes of a cluster are gone from `left`. A registry nothing was removed
      from is not written, and a mirror with no registry beside it is then left alone. */
  function WriteKept(on: Keying, m: Machine, files: Files, left: Workers, removed: nat, disk: Disk)
    : (r: (Files, Result<UnpairResult>))
  {
    var (saved, outcome) := if removed > 0 then Save(m, files, left, disk.save) else (files, Ok(()));
    if outcome.Err? then (files, Err(outcome.error)) else
    if removed == 0 && files.workers.Absent? then (saved, Ok(UnpairResult(0, |left.homes|, false))) else
    var (synced, mirror) := Sync(on, m, saved, left, disk);
    if mirror.Err? then (synced, Err(mirror.error)) else
    var changed := removed > 0 || mirror.value.MirrorDeleted? || mirror.value.MirrorRewritten?;
    (synced, Ok(UnpairResult(removed, |left.homes|, changed)))
  }

  /** RemoveHomesByURL, for an argument it accepts and regular files. */
  function RemoveByUrl(on: Keying, m: Machine, files: Files, url: string, dryRun: bool, disk: Disk)
    : (r: (Files, Result<UnpairResult>))
  {
    var scoped := Scoped(m, files, disk);
    if scoped.Err? then (files, Err(scoped.error))
    else RemoveFrom(on, m, files, scoped.value, url, dryRun, disk)
  }

  function RemoveFrom(on: Keying, m: Machine, files: Files, w: Workers, url: string, dryRun: bool, disk: Disk)
    : (r: (Files, Result<UnpairResult>))
  {
    if !Valid(w) then (files, Err(Invalid)) else
    var kept := KeptHomes(on, w.homes, url, |w.homes|);
    var removed := |w.homes| - |kept|;
    if files.mirror.Broken? || !disk.readMirror then (files, Err(Unreadable))
    else if dryRun then (files, Ok(UnpairResult(removed, |kept|, false)))
    else WriteKept(on, m, files, w.(homes := kept), removed, disk)
  }

  /** RemoveHomesByURL. */
  function RemoveHomesByUrl(on: Keying, m: Machine, files: Files, url: string, dryRun: bool, regular: bool, disk: Disk)
    : (r: (Files, Result<UnpairResult>))
  {
    if !UnpairArgument(url) || !regular then (files, Err(BadArgument))
    else RemoveByUrl(on, m, files, url, dryRun, disk)
  }

  // -------------------------------------------------------------------------
  // worker run
  // -------------------------------------------------------------------------

  datatype RunMode = RunFleet | RunSingleHome | RunNoHomes

  /** decideRunMode. */
  function DecideRunMode(forceSingle: bool, workersExist: bool, w: Workers, legacy: Config): Result<RunMode> {
    if forceSingle then
      if ValidConfig(legacy) then Ok(RunSingleHome) else Err(Invalid)
    else if ValidRun(w) then Ok(RunFleet)
    else if !workersExist && ValidConfig(legacy) then Ok(RunSingleHome)
    else if Valid(w) then Ok(RunNoHomes)
    else Err(Invalid)
  }

  /** The command line: a cluster or token given there forces one stream. */
  datatype Flags = Flags(cluster: string, token: string, name: string, configIsMirror: bool)

  datatype Started = Refused(error: Error) | Fleet(homes: seq<Home>) | SingleHome(url: string) | Waiting

  predicate ForcesSingle(flags: Flags) {
    flags.cluster != "" || flags.token != ""
  }

  function Override(c: Config, flags: Flags): Config {
    c.(url := if flags.cluster != "" then flags.cluster else c.url,
       token := if flags.token != "" then flags.token else c.token,
       name := if flags.name != "" then flags.name else c.name)
  }

  /** handleRun, up to the first connection: the homes it hands the fleet, or the one it connects. */
  function Start(on: Keying, m: Machine, files: Files, flags: Flags, disk: Disk): (r: (Files, Started)) {
    if files.mirror.Broken? || !disk.readMirror then (files, Refused(Unreadable)) else
    var legacy := Override(MirrorConfig(m, files.mirror), flags);
    if ForcesSingle(flags) then
      if ValidConfig(legacy) then (files, SingleHome(legacy.url)) else (files, Refused(Invalid))
    else
      var (loaded, registry) := Load(m, files, disk);
      if registry.Err? then (loaded, Refused(registry.error)) else
      var w := if flags.name != "" then registry.value.(name := flags.name) else registry.value;
      var mode := DecideRunMode(false, !loaded.workers.Absent?, w, legacy);
      if mode.Err? then (loaded, Refused(mode.error))
      else if mode.value.RunSingleHome? then (loaded, SingleHome(legacy.url))
      else
        var synced := if flags.configIsMirror then Sync(on, m, loaded, w, disk).0 else loaded;
        (synced, if mode.value.RunFleet? then Fleet(w.homes) else Waiting)
  }
}
