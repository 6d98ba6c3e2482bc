/** What a pairing may change, and what it needs --force for. */
module EnrollmentForce {
  import opened Basics
  import opened ClusterUrl
  import opened Homes
  import opened Enrollment
  import opened EnrollmentRuns

  ghost predicate OnCluster(on: Keying, homes: seq<Home>, url: string) {
    exists h :: h in homes && on(h.url) == on(url)
  }

  ghost predicate IdTaken(homes: seq<Home>, id: string) {
    exists h :: h in homes && h.id == id
  }

  /** The id the pairing asks for: the caller's, or the suggested one. */
  function AskedId(o: Upsert): string {
    if Trim(o.id) != "" then Trim(o.id) else o.suggested
  }

  /** Which place of the registry a pairing is for: the last home on the URL's cluster, or with none
      there the last of the id, or with neither the end. */
  ghost predicate IsPlace(on: Keying, homes: seq<Home>, o: Upsert, p: nat) {
    if OnCluster(on, homes, Trim(o.url)) then
      && p < |homes| && on(homes[p].url) == on(Trim(o.url))
      && forall j :: p < j < |homes| ==> on(homes[j].url) != on(Trim(o.url))
    else if IdTaken(homes, AskedId(o)) then
      p < |homes| && homes[p].id == AskedId(o) && forall j :: p < j < |homes| ==> homes[j].id != AskedId(o)
    else p == |homes|
  }

  /** The pairing takes a home away from another cluster, which only --force may do. */
  ghost predicate Remaps(on: Keying, homes: seq<Home>, o: Upsert) {
    !OnCluster(on, homes, Trim(o.url)) && IdTaken(homes, AskedId(o))
  }

  lemma PlaceOf(on: Keying, homes: seq<Home>, o: Upsert) returns (p: nat)
    ensures IsPlace(on, homes, o, p)
    ensures OnCluster(on, homes, Trim(o.url)) ==> p == LastOn(on, homes, Trim(o.url), |homes|)
    ensures Remaps(on, homes, o) ==> p == LastId(homes, AskedId(o), |homes|) && LastOn(on, homes, Trim(o.url), |homes|) < 0
    ensures p == |homes| ==> LastOn(on, homes, Trim(o.url), |homes|) < 0 && LastId(homes, AskedId(o), |homes|) < 0
  {
    var byUrl := LastOn(on, homes, Trim(o.url), |homes|);
    var byId := LastId(homes, AskedId(o), |homes|);
    if 0 <= byUrl {
      assert homes[byUrl] in homes;
      p := byUrl;
    } else if 0 <= byId {
      assert homes[byId] in homes;
      p := byId;
    } else {
      p := |homes|;
    }
  }

  /** A pairing is refused for want of --force exactly when it would take an id from a home of another
      cluster and no home is on the URL's own. */
  lemma EnrolledNeedsForce(on: Keying, homes: seq<Home>, o: Upsert)
    ensures Enrolled(on, homes, o).Err? <==> Remaps(on, homes, o) && !o.force
    ensures Enrolled(on, homes, o).Err? ==> Enrolled(on, homes, o).error.NeedsForce?
  {
    var p := PlaceOf(on, homes, o);
  }

  /** after is before with the home the pairing enrolled in place p. */
  ghost predicate Paired(on: Keying, before: seq<Home>, o: Upsert, after: seq<Home>, p: nat) {
    && IsPlace(on, before, o, p) && p < |after|
    && after == (if p < |before| then before[p := after[p]] else before + [after[p]])
    && after[p] == Home(if p < |before| && !(o.force && Trim(o.id) != "") then before[p].id else AskedId(o),
                        Trim(o.url), "", Trim(o.token), Some(true))
  }

  /** It writes one home, in its place: enrolled under the id the place had, unless it is a new place or
      --force came with an id. */
  lemma EnrolledInPlace(on: Keying, homes: seq<Home>, o: Upsert)
    requires Enrolled(on, homes, o).Ok?
    ensures exists p: nat :: Paired(on, homes, o, Enrolled(on, homes, o).value.0, p)
  {
    var p := PlaceOf(on, homes, o);
    var after := Enrolled(on, homes, o).value.0;
    if p < |homes| { assert after == homes[p := after[p]]; }
    assert Paired(on, homes, o, after, p);
  }

  /** Every home of another cluster is as it was, and every home has its id. */
  ghost predicate OthersKept(on: Keying, before: seq<Home>, after: seq<Home>, url: string) {
    && |before| <= |after|
    && forall i :: 0 <= i < |before| ==>
         after[i].id == before[i].id && (on(before[i].url) != on(url) ==> after[i] == before[i])
  }

  lemma PairedKeepsOthers(on: Keying, before: seq<Home>, o: Upsert, after: seq<Home>, p: nat)
    requires Paired(on, before, o, after, p) && !o.force && !Remaps(on, before, o)
    ensures OthersKept(on, before, after, Trim(o.url))
  {
  }

  /** A successful pairing writes exactly one home of the registry it loaded, and without --force that is
      a home of the URL's own cluster, which keeps its id, or a new one. */
  lemma PairingKeepsOthers(on: Keying, m: Machine, files: Files, o: Upsert, disk: Disk)
    requires UpsertHome(on, m, files, o, disk).1.Ok?
    ensures var before, after := Load(m, files, disk).1, UpsertHome(on, m, files, o, disk).0.workers;
            && before.Ok? && after.Content?
            && (exists p: nat :: Paired(on, before.value.homes, o, after.value.homes, p))
            && (!o.force ==> OthersKept(on, before.value.homes, after.value.homes, Trim(o.url)))
  {
    UpsertStores(on, m, files, o, disk);
    var before := Load(m, files, disk).1.value.homes;
    EnrolledInPlace(on, before, o);
    EnrolledNeedsForce(on, before, o);
    var after := Enrolled(on, before, o).value.0;
    var p: nat :| Paired(on, before, o, after, p);
    if !o.force { PairedKeepsOthers(on, before, o, after, p); }
  }

  /** The registry asks for --force exactly when an accepted pairing would move an id to another cluster,
      and then nothing after the load has changed. */
  lemma NeedsForceExactlyWhen(on: Keying, m: Machine, files: Files, o: Upsert, disk: Disk)
    ensures var (after, r) := UpsertHome(on, m, files, o, disk);
            && (r == Err(NeedsForce) <==>
                  && Trim(o.url) != "" && "mql_wkr_" <= Trim(o.token) && !o.force
                  && Load(m, files, disk).1.Ok?
                  && Remaps(on, Load(m, files, disk).1.value.homes, o))
            && (r == Err(NeedsForce) ==> after == Load(m, files, disk).0)
  {
    var before := Load(m, files, disk).1;
    if before.Ok? { EnrolledNeedsForce(on, before.value.homes, o); }
  }
}
