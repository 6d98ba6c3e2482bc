/** What `worker run` does with the two files and its flags: what it connects, or why it will not start. */
module EnrollmentStart {
  import opened Basics
  import opened ClusterUrl
  import opened Homes
  import opened Enrollment
  import EnrollmentRuns
  import opened EnrollmentOutcomes

  /** The one connection the command line and the mirror describe between them. */
  ghost predicate Describes(m: Machine, mirror: File<Config>, flags: Flags, url: string) {
    var token := if flags.token != "" then flags.token else if mirror.Content? then mirror.value.token else "";
    var name := if flags.name != "" then flags.name
                else if mirror.Content? && mirror.value.name != "" then mirror.value.name else m.hostname;
    && url == (if flags.cluster != "" then flags.cluster else if mirror.Content? then mirror.value.url else "")
    && Trim(url) != "" && "mql_wkr_" <= Trim(token) && Trim(name) != ""
    && (mirror.Content? && mirror.value.capabilities != [] ==> "HEADLESS" in mirror.value.capabilities)
  }

  /** A cluster or a token on the command line connects one home, the one the flags and the mirror
      describe, or refuses; and touches neither file. */
  lemma ForcedStartExactly(on: Keying, m: Machine, files: Files, flags: Flags, disk: Disk)
    requires flags.cluster != "" || flags.token != ""
    ensures var (after, started) := Start(on, m, files, flags, disk);
            && after == files
            && (forall url :: started == SingleHome(url) <==>
                  disk.readMirror && !files.mirror.Broken? && Describes(m, files.mirror, flags, url))
            && (!started.SingleHome? ==> started in {Refused(Unreadable), Refused(Invalid)})
  {
    if disk.readMirror && !files.mirror.Broken? {
      var legacy := Override(MirrorConfig(m, files.mirror), flags);
      TrimOfTrimmed("");
      assert ValidConfig(legacy) <==> Describes(m, files.mirror, flags, legacy.url);
    }
  }

  /** The registry a start runs by: what it loaded, under the name on the command line. */
  function Named(w: Workers, flags: Flags): Workers {
    if flags.name != "" then w.(name := flags.name) else w
  }

  /** Without either, a start whose files can be read runs every home of the registry, waits when it has
      none, and refuses one that does not validate; it writes what the load wrote, and syncs the mirror only
      when it starts and the config file is the mirror. */
  lemma PlainStartExactly(on: Keying, m: Machine, files: Files, flags: Flags, disk: Disk)
    requires flags.cluster == "" && flags.token == ""
    ensures var (loaded, registry) := Load(m, files, disk);
            var (after, started) := Start(on, m, files, flags, disk);
            var readable := disk.readMirror && !files.mirror.Broken?;
            && (!readable ==> started == Refused(Unreadable) && after == files)
            && (readable && registry.Err? ==> started == Refused(registry.error) && after == loaded)
            && (readable && registry.Ok? ==>
                  var w := Named(registry.value, flags);
                  && (started.Refused? <==> !Valid(w))
                  && (Valid(w) ==> started == if w.homes != [] then Fleet(registry.value.homes) else Waiting)
                  && after == if Valid(w) && flags.configIsMirror then Sync(on, m, loaded, w, disk).0 else loaded)
  {
    EnrollmentRuns.SingleHomeNeedsFlags(on, m, files, flags, disk);
  }
}
