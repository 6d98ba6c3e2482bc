# Verified model of the memql worker

This project models the parts of the memql cockpit's worker that keep state and branch heavily, and
proves what they keep over every run. The worker enrols a machine with clusters, supervises one stream
to each, pulls models when a cluster asks, reports an install's progress, and scans its own repository's
history in CI.

| file | what it models |
|---|---|
| `Basics.dfy`, `Utf8Text.dfy` | text operations: trimming, folding, searching, UTF-8 lengths and cuts |
| `ClusterUrl.dfy` | when two cluster URLs name one cluster, over Go's URL grammar |
| `Homes.dfy` | the duplicate-enrollment rule: which enabled homes connect |
| `Enrollment.dfy`, `EnrollmentRuns.dfy`, `EnrollmentForce.dfy`, `EnrollmentOutcomes.dfy`, `EnrollmentStart.dfy`, `EnrollmentStore.dfy` | the registry `workers.yaml` and its mirror `worker.yaml`: each command as a function of both files, runs of commands, when each command succeeds and what it leaves, and the commands as they update a store |
| `Fleet.dfy`, `FleetClusters.dfy`, `FleetProgress.dfy`, `FleetShutdown.dfy`, `FleetRestart.dfy`, `FleetSupervisor.dfy` | the supervisor and the local pause and resume, as interleaved atomic steps, which fleets can double a cluster's stream, what every home comes to, how a run and the fleet end, what a restart keeps, and the critical sections as they change the fleet |
| `ControlFile.dfy` | the edit of one flag in the parsed workers file |
| `Reconnect.dfy` | backoff between attempts and the refusal hold |
| `ModelPull.dfy`, `PullAborts.dfy`, `PullProgress.dfy`, `Readvertise.dfy`, `PullWorker.dfy` | cluster-driven pulls, what cancels and stops come to, the re-advertisement limiter, and pulls and limiter together |
| `SetupTracker.dfy`, `SetupReports.dfy`, `SetupRuns.dfy`, `SetupReporter.dfy`, `SetupOrder.dfy` | the setup report, what each kind of report does to it, its file across restarts, the keepalive of its sender, and the order its sends arrive in |
| `BatchScan.dfy` | the bounded batch scheduler and its coverage receipt |
| `WrapText.dfy`, `PullDisplay.dfy`, `PullRoom.dfy`, `DesktopExec.dfy` | greedy word wrap, download accounting and the stop for space, desktop-entry escaping |

Each state machine is a datatype with a step function, lemmas about every run of steps, and a class (or a
method with the source's loop) whose methods are proved equal to the step function. Disk operations that
can fail are parameters; a failed write leaves the old value. Clocks, the cluster's answers, runtimes,
inventories and the order in which processes finish are inputs.

## What the model found

- The control service's key keeps a URL's port and the enrollment rule drops it. With well-formed URLs no
  two connectable homes ever share a control key (`Fleet.OneHomePerControlKey`), but two ports of one host
  are one cluster and two keys. Started with one of them paused, one resume puts a second stream on the
  cluster (`FleetClusters.ResumeOpensSecondStream`). `FleetClusters.ClustersStayDistinctExactlyWhen` says,
  for every state, exactly when no run of commands can.
- The busy guard of the re-advertisement is documented (`internal/worker/loop.go:858-860`) as keeping an
  End from being lost. It does for every admitted pull; the End of a refused start is not covered
  (`PullWorker.ClosesOverARefusalExactlyWhen`, `PullWorker.RefusalCanBeClosedOver`).
- An answer beside a running setup stage belongs to that run of it exactly when no restart brings back an
  answered stage the worker did not hold (`SetupRuns.AnswersBelongExactlyWhen`), which is so whenever every
  save succeeds. A lost save can do it (`SetupRuns.AnswerOutlivesItsRun`).
- A flush sends after it lets go of the reporter's lock. A keepalive overtaken by the stage's end is the
  last thing the worker hears of it (`SetupOrder.KeepaliveIsLast`), and the installer's end then reports a
  stage that was done as failed (`SetupOrder.DoneIsToldAsFailed`). `SetupOrder.LastWordExactlyWhen` says
  exactly when the worker's last word is right.
- The room a download still needs, and so whether it is stopped, depends on the order of its events,
  although the bytes shown do not (`PullDisplay.FirstReportDecides`). `PullRoom.StopsExactlyWhen` reads the
  stop off the events, and `PullRoom.OrderDecidesNothingExactlyWhen` says exactly when order is nothing to it.

## Model

| member | source | states |
|---|---|---|
| ClusterUrl.SameTextSameHost | internal/worker/homes.go:68-87 | URLs of equal trimmed, folded text with trailing slashes dropped give one home id: the fact every transitivity argument rests on |
| ClusterUrl.RuleIsKeyEquality | internal/worker/homes.go:722-725 | the rule as written, equal folded text or equal non-default derived id, holds exactly when both URLs have one key |
| ClusterUrl.RuleIsEquivalence | internal/worker/homes.go:722-725 | sameClusterURL is reflexive, symmetric and transitive on all URLs |
| ClusterUrl.KeyOfTrimmed | internal/worker/homes.go:722-725 | trimming a URL never moves it to another cluster |
| ClusterUrl.DefaultPortIsNotTheName | internal/worker/backup_wiring.go:143-156 | dropping `:443` from a valid host leaves its host name as it was |
| ClusterUrl.SameHostSameCluster | internal/worker/backup_wiring.go:143-156 | for well-formed URLs and bare hosts an equal control key means an equal cluster |
| ClusterUrl.BareHostIsWellFormed | internal/worker/homes.go:73-81 | a valid bare host without a colon is well formed, and its control key is the host it spells |
| ClusterUrl.HttpsNamesItsHost | internal/worker/homes.go:68-87 | a plain https URL parses to exactly the host it spells |
| ClusterUrl.PortsSplitTheControlKey | internal/worker/backup_wiring.go:143-156 | the control key keeps a port other than 443 while the cluster key is the bare name |
| Homes.CollectEnabled | internal/worker/homes.go:365-373 | the loop collects exactly the enabled homes, in order |
| Homes.RunnableHomes | internal/worker/homes.go:325-344 | the nested loops compute the run list and the skipped list of the specification |
| Homes.RunIsQuotient | internal/worker/homes.go:325-344 | the run list is a subsequence of the enabled homes holding exactly the last member of each cluster class, one and only one for every enabled home |
| Homes.RunAndSkippedPartition | internal/worker/homes.go:325-344 | run and skipped together are all the enabled homes, and each skipped home's `Connects` names a run-list home of its own class |
| Homes.WinnersDiffer | internal/worker/homes.go:325-344 | different run-list positions are different clusters |
| Homes.SomethingRuns | internal/worker/homes.go:325-373 | some home connects exactly when some home is enabled |
| Homes.LastHomeConnects | internal/worker/homes.go:325-344 | an enabled home with no later one on its cluster is that cluster's only connection |
| Enrollment.ValidMeans | internal/worker/homes.go:265-304 | a registry validates if and only if it is of version 1, names the worker, has HEADLESS, and each home has an id of its own, a URL and a token with the worker prefix |
| EnrollmentOutcomes.SavesExactlyWhen | internal/worker/homes.go:233-263 | a save stores the registry, its blanks filled from the machine, if and only if that is good and the write succeeds, and otherwise says which and changes nothing |
| EnrollmentOutcomes.LoadsRegistry | internal/worker/homes.go:189-231 | a registry that is there is read as it is, its blanks filled, and nothing is written |
| EnrollmentOutcomes.MigratesExactlyWhen | internal/worker/homes.go:139-187 | without a registry the mirror becomes one enabled home under the id of its URL, exactly when it can be read, is good and is written; a blank or absent mirror is an empty registry and is not written |
| EnrollmentRuns.UpsertedHomeConnects | internal/worker/homes.go:460-570 | after any successful pairing, through every match case, the one home connected for the URL's cluster is enabled and holds the new token, every other home is unchanged, and ids are distinct, and the mirror names that home unless its own write failed |
| EnrollmentRuns.PairedRegistryStarts | internal/worker/cli.go:199-324 | with both files readable a start after pairing hands the fleet exactly the paired registry |
| EnrollmentRuns.EnrolledHomeIsLast | internal/worker/homes.go:500-540 | match by URL, by id with force, append and forced rename each change one home, which ends up last on its cluster |
| EnrollmentForce.PairingKeepsOthers | internal/worker/homes.go:510-540 | a successful pairing writes exactly one home, in the place the match order gives it and under the id it may have; without force every home of another cluster is as it was and every home keeps its id |
| EnrollmentForce.NeedsForceExactlyWhen | internal/worker/homes.go:531-537 | the answer is that force is needed if and only if an accepted pairing without it would move an id to another cluster while no home is on the URL's own, and then nothing after the load has changed |
| EnrollmentOutcomes.PairsExactlyWhen | internal/worker/homes.go:542-570 | a pairing that may go ahead succeeds if and only if the registry it makes is good and is written; then the file holds it with its name and capabilities, and the mirror the paired home unless that write failed; otherwise nothing after the load has changed |
| EnrollmentOutcomes.PairRefuses | internal/worker/homes.go:469-489 | a pairing is refused for its arguments exactly when it has no URL or no worker token, and has then read nothing |
| EnrollmentRuns.SyncPutsMirrorInLine | internal/worker/homes.go:676-702 | after a successful sync the mirror is absent or names an enabled home with its current token, and an existing mirror is deleted exactly when no home is enabled |
| EnrollmentRuns.SyncTwice | internal/worker/homes.go:676-702 | a second sync changes nothing |
| EnrollmentOutcomes.SyncsExactlyWhen | internal/worker/homes.go:676-702 | a sync fails if and only if it cannot read the mirror or write what it has to, and then changes nothing; a mirror that names an enabled home with its token is left alone |
| EnrollmentOutcomes.SyncRewrites | internal/worker/homes.go:691-701 | any other mirror is written with the first home that connects, or taken away exactly when every home is disabled |
| EnrollmentRuns.RemoveHomeLeavesMirrorInLine | internal/worker/homes.go:607-650 | unpairing by id takes out exactly the first home of the id, or sets its enabled flag to false and nothing else, and leaves the mirror in line |
| EnrollmentOutcomes.UnpairsExactlyWhen | internal/worker/homes.go:630-650 | it succeeds if and only if the registry it leaves is good and is written, answers with that registry and the home it took, and then syncs the mirror; otherwise nothing after the load has changed |
| EnrollmentOutcomes.UnpairRefuses | internal/worker/homes.go:614-634 | it refuses a blank id, and answers not found exactly when no home of the registry has the id |
| EnrollmentRuns.SingleHomeNeedsFlags | internal/worker/cli.go:910-925 | without `--cluster` or a token no state of the two files makes a start connect from the mirror |
| EnrollmentStart.ForcedStartExactly | internal/worker/cli.go:225-287 | a cluster or a token on the command line connects the one home the flags and the mirror describe, each flag over the file, if that is complete, or refuses; neither file is touched |
| EnrollmentStart.PlainStartExactly | internal/worker/cli.go:267-320 | without them a start runs every home of the registry, waits when it has none, and refuses exactly when a file cannot be read or the registry does not validate; it syncs the mirror only when it starts and the config file is the mirror |
| EnrollmentRuns.LoadKeepsFree | internal/worker/homes.go:125-187 | loading, and migrating the mirror, brings no home of a cluster neither file names |
| EnrollmentRuns.SyncKeepsFree | internal/worker/homes.go:676-702 | a sync leaves no mirror on a cluster none of the homes is on |
| EnrollmentRuns.RemovedByUrlIsFree | internal/worker/unpair_url.go:54-87 | after a successful removal neither file holds a home of the cluster |
| EnrollmentRuns.CommandKeepsFree | internal/worker/cli.go:199-324 | no start, load, pairing of another cluster, unpair, disable or resume, whichever of its disk steps fail, brings an unpaired cluster back or connects to it |
| EnrollmentRuns.UnpairedStaysUnpaired | internal/worker/unpair_url.go:54-87 | once unpairing a cluster by URL succeeds, no later start connects to it after any run of commands, until it is paired again |
| EnrollmentRuns.UnpairedStaysUnpairedByRule | internal/worker/unpair_url.go:22-87 | the same in the worker's own terms: no home a later start hands the fleet is sameClusterURL to the unpaired URL, and single-home mode is not chosen |
| EnrollmentRuns.KeptExactly | internal/worker/unpair_url.go:54-62 | a home is kept if and only if it is enrolled and on another cluster |
| EnrollmentRuns.RemoveByUrlTakesTheCluster | internal/worker/unpair_url.go:22-87 | a removal keeps exactly the other clusters' homes in order, its counts add up, a preview writes nothing, and no change is reported only when both files are as they were |
| EnrollmentOutcomes.RemovesExactlyWhen | internal/worker/unpair_url.go:50-87 | a removal succeeds if and only if the registry is good, the mirror can be read, and what has to be written is; taking homes away never makes a good registry bad, and a failure leaves both files as they were or the homes gone and the mirror not put right |
| EnrollmentOutcomes.ReportsAChangeExactlyWhen | internal/worker/unpair_url.go:72-86 | it reports a change if and only if it took a home, or a registry is there and the mirror named none of the homes left |
| EnrollmentOutcomes.RemovalRefuses | internal/worker/unpair_url.go:24-49 | it refuses anything but regular files and an argument it takes, before it reads them |
| EnrollmentOutcomes.UnpairTakesPlainUrls | internal/worker/unpair_url.go:24-27 | the argument is taken if and only if it parses as an HTTP or HTTPS URL with a host and no user, query or fragment |
| EnrollmentOutcomes.ScopedExactly | internal/worker/unpair_url.go:38-49 | the registry it works on is the one a load would give, except that a mirror is not migrated for it |
| EnrollmentRuns.RemoveByUrlTwice | internal/worker/unpair_url.go:22-87 | a second removal of the cluster finds nothing and changes nothing |
| EnrollmentStore.Store.ValidateHomes | internal/worker/homes.go:282-303 | the loop with its set of seen ids accepts exactly the valid home lists |
| EnrollmentStore.Store.SaveWorkers | internal/worker/homes.go:233-263 | a save normalises, refuses an invalid registry, and leaves the file when the write fails |
| EnrollmentStore.Store.LoadWorkers | internal/worker/homes.go:125-150 | reading the registry, or migrating the mirror into one, changes the store as specified |
| EnrollmentStore.Store.SyncLegacyMirror | internal/worker/homes.go:676-702 | the sync changes the mirror as specified |
| EnrollmentStore.Store.Upsert | internal/worker/homes.go:460-570 | pairing changes both files as specified |
| EnrollmentStore.Store.Remove | internal/worker/homes.go:607-650 | unpairing by id changes both files as specified |
| EnrollmentStore.Store.RemoveByCluster | internal/worker/unpair_url.go:22-87 | unpairing by URL changes both files as specified |
| EnrollmentStore.Store.SplitHomes | internal/worker/unpair_url.go:54-62 | the loop splits the homes into the kept list and a count |
| Fleet.StepKeepsOk | internal/worker/fleet.go:214-292 | every atomic step of every supervisor, command and shutdown keeps the fleet's invariant |
| Fleet.PausedMeansCancelled | internal/worker/fleet.go:214-257 | over every interleaving: an uncancelled home context exists only while its home is enabled, a registered runner has its cancel, a parked supervisor of an enabled home has a token waiting, and the saved flag is the one in memory |
| Fleet.PauseCancelsOneHome | internal/worker/control.go:119-152 | a pause cancels that home's context in the same step and changes no other home |
| FleetProgress.EnabledHomeReachesItsStream | internal/worker/fleet.go:214-257 | over every interleaving that neither pauses it nor shuts the fleet down, an enabled home reaches a live stream within eight moves of its supervisor from wherever it is, and until then its next step is always open |
| FleetProgress.PausedHomeSettles | internal/worker/fleet.go:214-257 | over every interleaving that neither resumes it nor shuts the fleet down, a paused home has no live context, its supervisor makes at most twelve moves, and until it is parked with no token left its next step is open |
| Fleet.StartKeysDistinct | internal/worker/fleet.go:168-202 | as the fleet starts no two connectable homes are on one cluster |
| Fleet.OneHomePerControlKey | internal/worker/control.go:126-133 | with well-formed URLs no sequence of commands and steps leaves two connectable homes on one control key |
| FleetClusters.ClustersStayDistinctExactlyWhen | internal/worker/control.go:119-152 | from every state, no run of commands and steps puts two streams on one cluster if and only if no two different un-suppressed homes on one cluster each are enabled or share their control key with no other |
| FleetClusters.TwoPortsAreOneCluster | internal/worker/control.go:126-133 | any two ports of one host are one cluster to the enrollment rule and two keys to the control service |
| FleetClusters.ResumeOpensSecondStream | internal/worker/control.go:119-152 | the fleet started from a registry of two ports of one host, the second paused, has two connectable homes on one cluster after one resume |
| FleetClusters.PortsOneAndTwo | internal/worker/control.go:119-152 | one such registry: https://a:1 enabled and https://a:2 paused |
| FleetProgress.NeverStuck | internal/worker/fleet.go:214-257 | the next step of an enabled home's supervisor moves it from every place it can be in |
| FleetShutdown.ShutdownIsTheEnd | internal/worker/fleet.go:206-212 | the end of the fleet's context cancels every home's and keeps the invariant |
| FleetShutdown.FleetShutsDown | internal/worker/fleet.go:206-257 | once it is done no home has a live context, every supervisor is at most eight moves from its exit over every interleaving, and its next step is open to it until then |
| FleetShutdown.RunWindsUp | internal/worker/fleet.go:235-256 | over every interleaving without a command for it, three moves after its run returned a cancelled home is at the top of its loop and one whose stream ended by itself is waiting out the retry second and says so |
| FleetShutdown.RetryingIsBetweenRuns | internal/worker/fleet.go:226-241 | over every interleaving a home that says it is retrying is between two runs |
| FleetShutdown.FailedBuildReturns | internal/worker/fleet.go:259-268 | a build that fails is a run that returned, with no runner registered |
| FleetShutdown.TokenWakes | internal/worker/fleet.go:219-254 | a token ends a pause or a retry's wait, and is spent |
| FleetShutdown.WaitsItOut | internal/worker/fleet.go:219-254 | while the fleet runs nothing but a token moves a parked home, and nothing but a token or the end of its second moves one that waits to retry |
| FleetRestart.RestartKeepsPolicy | internal/worker/control.go:137-142 | after any run of commands, a restart from the saved flags gives every home the policy it had |
| FleetRestart.AnswerTellsTheOutcome | internal/worker/control.go:119-152 | a command is done if and only if the home is managed, shares its key with none, and has the flag already or had it saved; then flag and file have it, and after any other answer, or a save that failed, nothing has changed |
| FleetRestart.FlagNeedsASavedCommand | internal/worker/control.go:137-142 | over every run a home's saved flag is the one it began with or that of a command for it whose save succeeded |
| FleetSupervisor.Supervisor.SetHomeEnabled | internal/worker/control.go:119-152 | the command refuses an ambiguous key, saves first, then changes the flag, cancels and leaves one token |
| FleetSupervisor.Supervisor.Pass | internal/worker/fleet.go:216-229 | the critical section at the head of the loop parks a paused home or makes its context |
| FleetSupervisor.Supervisor.LeaveRun | internal/worker/fleet.go:235-256 | the critical section at its end forgets the context and runner and retries unless cancelled |
| FleetSupervisor.Supervisor.AddRunner | internal/worker/fleet.go:269-272 | a runner joins the fleet's list when its home starts streaming |
| FleetSupervisor.Supervisor.DropRunner | internal/worker/fleet.go:273-282 | and leaves it when the stream ends |
| ControlFile.SaveChangesOneFlag | internal/worker/control.go:178-221 | a successful edit changed the flag of the only home with the id and left every other node as it was |
| ControlFile.SavesExactlyWhen | internal/worker/control.go:178-221 | the edit is made if and only if the file is a mapping, every homes list is a sequence of mappings and exactly one home has the id; a well-shaped file is otherwise refused for having none, or more than one |
| ControlFile.FlaggedReads | internal/worker/control.go:209-216 | the edited home reads the flag as a boolean, true or false as the command said, and every other key of it reads as before |
| ControlFile.FlaggedWritesOneValue | internal/worker/control.go:209-216 | the edit writes one value: the last flag, which keeps whatever else its node has, or with none a new pair at the end |
| ControlFile.IsHomeMeans | internal/worker/control.go:194-202 | a home is the one the command is for if and only if it is a mapping with that id |
| ControlFile.LastFlagStands | internal/worker/control.go:209-216 | of two edits of one home the last one stands |
| ControlFile.SaveHomeEnabled | internal/worker/control.go:178-221 | the outer loop over pairs, with the early errors, computes the specified edit |
| ControlFile.EditHomes | internal/worker/control.go:190-217 | the loop over one list computes the specified walk |
| ControlFile.Scan | internal/worker/control.go:194-202 | the innermost loop finds whether the home has the id and where its last flag is |
| Reconnect.HeldExactlyWhen | internal/worker/refusal.go:160-216 | the runner is held if and only if some three or more refusals in a row spanned thirty seconds and nothing was accepted since |
| Reconnect.GaugeIsHeld | internal/worker/refusal.go:160-233 | the refused gauge equals held after every history |
| Reconnect.WaitExactly | internal/worker/refusal.go:176-216 | a held runner's k-th wait is a minute doubled k times up to fifteen, whatever it failed with; any other is a second doubled once per ordinary wait since the last healthy stream, up to fifteen seconds |
| Reconnect.BackoffIsOrdinary | internal/worker/loop.go:344-399 | the stored backoff is one second times two to the ordinary waits since the last healthy stream, capped, and only a healthy stream resets it |
| Reconnect.HoldWaitIsHolding | internal/worker/refusal.go:176-191 | the stored hold wait is one minute times two to the attempts since the hold began, capped |
| Reconnect.AttemptsBounded | internal/worker/loop.go:344-399 | in T seconds the runner starts at most T/15 + 4 attempts, and three more for every healthy stream, for any mix of outcomes |
| Reconnect.TimelyIsMonotone | internal/worker/loop.go:344-399 | a history whose waits were waited has a clock that does not go back |
| Reconnect.Runner.AfterConnectFailure | internal/worker/refusal.go:160-216 | the method changes the standing and returns the wait as specified |
| Reconnect.Runner.AfterConnect | internal/worker/refusal.go:219-233 | an accepted handshake clears the standing and the gauge |
| Reconnect.Runner.TakeTurn | internal/worker/loop.go:346-399 | one turn of the loop, failed or streamed, changes the runner and returns the wait as specified |
| Reconnect.Runner.Run | internal/worker/loop.go:319-401 | the loop's waits are the specified wait of every prefix of its attempts |
| ModelPull.AdmittedExactlyWhen | internal/worker/modelpull.go:192-235 | a start that names a request is admitted if and only if the build pulls, a model is named, the policy allows it and the request is not live; any other is about to be refused |
| ModelPull.EveryStartHasOneEnd | internal/worker/modelpull.go:192-396 | over every interleaving, starts naming a request are the Ends sent for it plus those still owed: none dropped, none answered twice |
| ModelPull.EndsTellTheTruth | internal/worker/modelpull.go:246-320 | ok=true is said by exactly the pulls that pulled, allowed and reloaded in that order; a pull that failed reports the first abort that reached it before the failure was read, and one whose policy edit or reload failed says so |
| ModelPull.LiveUntilTheEnd | internal/worker/modelpull.go:225-320 | a pull is live exactly from admission to release, which is after its End, and asks for the re-advertisement last of all and only after a good End |
| ModelPull.StepKeepsOk | internal/worker/modelpull.go:192-396 | every atomic step keeps the pulls' invariant |
| ModelPull.AbortKeepsPullOk | internal/worker/modelpull.go:359-378 | an abort keeps the first reason |
| PullAborts.CancelReaches | internal/worker/modelpull.go:327-372 | whatever the pulls do meanwhile, once a cancel of a live request is worked off its pull is let go, or cancelled and telling the cluster's words unless an earlier abort reached it |
| PullAborts.StopReachesAll | internal/worker/modelpull.go:344-372 | once a stop of every pull is worked off, each pull that was live is let go, or cancelled with that reason or an earlier one |
| PullAborts.CancelTouchesNoOther | internal/worker/modelpull.go:359-372 | a cancel leaves every other pull as it would have been without it, and one that names no live pull leaves them all so |
| PullAborts.AbortsAreWorkedOff | internal/worker/modelpull.go:344-372 | each of the receive goroutine's own steps brings it nearer to the end of its aborts, and no step of a pull sets it back |
| PullProgress.EveryPullRunsOut | internal/worker/modelpull.go:246-320 | over every interleaving an admitted pull makes at most six moves, and until it is over its next step is open to it |
| PullProgress.ReturnsAreTold | internal/worker/modelpull.go:246-307 | an error of the runtime, the policy edit or the reload stops the pull there and is what its trace says; nothing else does |
| ModelPull.Puller.StartPull | internal/worker/modelpull.go:192-243 | admission, with its refusals in order and its duplicate check, changes the live map as specified |
| ModelPull.Puller.Abort | internal/worker/modelpull.go:359-372 | an abort records its reason only if it is the first |
| ModelPull.Puller.StopEvery | internal/worker/modelpull.go:344-357 | left to itself the loop aborts every live pull once and touches no other |
| ModelPull.Puller.SendPullEnd | internal/worker/modelpull.go:391-401 | an End is sent for the decided outcome |
| ModelPull.Puller.ReleasePull | internal/worker/modelpull.go:380-384 | a release takes the pull's id out of the live map |
| ModelPull.Puller.DoWork | internal/worker/modelpull.go:246-307 | the work stops at the first step that fails, and an abort's reason wins over the runtime's text |
| ModelPull.Puller.Run | internal/worker/modelpull.go:246-320 | left to itself a pull sends one End, lets go whatever fails, and asks for the re-advertisement exactly when nothing did |
| Readvertise.NoConnectionClosedTwice | internal/worker/loop.go:726-783 | each connection is closed at most once to re-advertise |
| Readvertise.BypassesArePaidFor | internal/worker/loop.go:755-767 | closes inside the floor, and the armed bypass, never outnumber the requests |
| Readvertise.ReadvertiseBound | internal/worker/loop.go:726-783 | in T seconds with Q requests at most 1 + T/120 + Q connections are closed to re-advertise |
| Readvertise.RequestSurvives | internal/worker/loop.go:817-833 | a request outlives every evaluation that does not close; the first to find a change, an idle worker and an open connection closes it whatever the clock says |
| Readvertise.ClosesExactlyWhen | internal/worker/loop.go:726-783 | told from what has happened: an evaluation closes if and only if the advertisement changed, the worker is idle, nothing was closed since the last reconnect, and it is the first close, two minutes after the last, or asked for since |
| Readvertise.Advertiser.MaybeReadvertise | internal/worker/loop.go:726-783 | the evaluation, with its swap of the armed bypass, changes the runner and answers as specified |
| Readvertise.Advertiser.RequestImmediate | internal/worker/loop.go:817-833 | a request arms the bypass |
| PullWorker.ClosesOverARefusalExactlyWhen | internal/worker/loop.go:845-863 | an evaluation that closes leaves an End unsent if and only if a start is in the middle of being refused; no admitted pull's End is cut off |
| PullWorker.RefusalCanBeClosedOver | internal/worker/modelpull.go:204-217 | a concrete run in which a refusal's End is still unsent on the connection that is closed |
| PullWorker.WhereRequestsComeFrom | internal/worker/modelpull.go:313-320 | the requests are the policy reloads and the pulls that asked |
| PullWorker.ReadvertisesExactlyWhen | internal/worker/loop.go:726-783 | an evaluation closes if and only if the advertisement changed, every pull has let go and no other work is in flight, the connection is not closed already, and it is the first close, two minutes after the last, or asked for since by a reload or a good pull |
| PullWorker.ReconnectsAreEarned | internal/worker/loop.go:726-783 | in T seconds at most 1 + T/120 connections are closed, and one more for every policy reload and every good End |
| Utf8Text.Cut | internal/worker/setupprogress.go:506-515 | stepping back over continuation bytes leaves whole characters, and all of them that fit |
| Utf8Text.CutKeepsCharacters | internal/worker/setupprogress.go:506-515 | the byte cut and the longest character prefix that fits are the same bytes |
| Utf8Text.EncodedNumber | internal/worker/setupprogress.go:506-515 | a character is encoded in octets of the length its number needs that stand for it, by the table of section 3 of RFC 3629 |
| Utf8Text.BoundedTextIsFixed | internal/worker/setupprogress.go:485-515 | trimming and clipping a text that was trimmed and clipped changes nothing |
| SetupTracker.BoundedStageIsFixed | internal/worker/setupprogress.go:485-503 | holding a stage to the engine's bounds twice is holding it once |
| SetupTracker.StageIsDrawnIn | internal/worker/setupprogress.go:485-515 | a stage keeps its name and state, its sentence trimmed and cut to the characters that fit 512 bytes, and figures only if it is the models stage |
| SetupTracker.FiguresAreDrawnIn | internal/worker/setupprogress.go:490-502 | figures within the bounds are kept as they are, and each one outside them is drawn in on its own |
| SetupTracker.StandingExactly | internal/worker/setupprogress.go:459-480 | a setup is stopped if and only if it is not finished, some stage waits or runs, and nothing was heard for more than two minutes; it is finished exactly when the installer said so or no stage is left to run |
| SetupTracker.ApplyKeepsOk | internal/worker/setupprogress.go:269-373 | every report keeps stage names distinct and in the vocabulary, stages bounded, and nothing running once finished |
| SetupTracker.SilentReportChangesNoStep | internal/worker/setupprogress.go:286-373 | a report that announces no step changed no name, state, sentence, answer or end |
| SetupTracker.FinishEndsEverything | internal/worker/setupprogress.go:360-371 | once the installer is done nothing waits or runs: what ran failed with the stated sentence, what waited is skipped, the rest is as it was |
| SetupTracker.KeepaliveIsSilent | internal/worker/setupprogress.go:334-354 | a running stage re-sent announces no step, keeps its answer and refreshes the report |
| SetupReports.AcceptedExactlyWhen | internal/worker/setupprogress.go:145-189 | a report is accepted if and only if it has one of its five parts and that part is within the closed vocabularies |
| SetupReports.RefusedChangesNothing | internal/worker/setupprogress.go:269-296 | a report that is refused changes nothing and announces nothing |
| SetupReports.PlanBeginsAgain | internal/worker/setupprogress.go:318-330 | a plan leaves exactly its stages, all waiting, and no answers |
| SetupReports.StageIsTaken | internal/worker/setupprogress.go:331-359 | a stage's report records that stage and touches no other, a starting stage loses its answer, a running one reopens the report, and a step is announced exactly when the stage is new or its state or sentence is another |
| SetupReports.AnswerIsTaken | internal/worker/setupprogress.go:295-312 | an answer is taken if and only if its stage runs in a report that is not finished, and is then the one thing that changes |
| SetupReports.ResetClears | internal/worker/setupprogress.go:313-322 | a reset ends whatever is there and leaves nothing of it |
| SetupTracker.PlanProblem | internal/worker/setupprogress.go:165-174 | a plan is accepted if and only if its names are known and distinct |
| SetupTracker.CheckPlan | internal/worker/setupprogress.go:165-174 | the walk with its set of seen names finds the plan's first problem |
| SetupTracker.LiveTracker.TakeAnswer | internal/worker/setupprogress.go:295-312 | an answer is taken only for a stage running now |
| SetupTracker.LiveTracker.TakeStage | internal/worker/setupprogress.go:323-359 | a stage's report replaces or appends the stage, and a starting stage loses its answer |
| SetupTracker.LiveTracker.Finish | internal/worker/setupprogress.go:360-371 | the loop skips what waits and fails what runs |
| SetupTracker.LiveTracker.State | internal/worker/setupprogress.go:462-480 | the loop over the stages derives the report's state |
| SetupTracker.LiveTracker.ApplyReport | internal/worker/setupprogress.go:269-373 | the whole dispatch changes the report and answers as specified |
| SetupRuns.LoadOfSaved | internal/worker/setupprogress.go:223-249 | saving a reachable report and loading it gives the same report |
| SetupRuns.ReachableOk | internal/worker/setupprogress.go:223-373 | the invariant holds after every sequence of reports, lost saves and restarts |
| SetupRuns.SavedReportSurvives | internal/worker/setupprogress.go:378-404 | a report that was saved survives a restart unchanged |
| SetupRuns.WritesExactlyWhen | internal/worker/setupprogress.go:269-291 | the file changes if and only if a report is accepted, there is a place to keep it and the write succeeds, and then holds the report |
| SetupRuns.AnyFileLoads | internal/worker/setupprogress.go:223-249 | whatever a file holds, each stage of it in the vocabulary is loaded in its place within the bounds and any other is left out, and of its answers only the one the one question has |
| SetupRuns.AnswersBelongExactlyWhen | internal/worker/setupprogress.go:293-404 | over every history of reports, lost saves and restarts, every answer beside the running stage was given in that same run, at every point, if and only if no restart brings an answered stage back to a worker that held none |
| SetupRuns.SavedAnswersBelong | internal/worker/setupprogress.go:378-404 | whenever every save succeeds the rule holds at every point |
| SetupRuns.FileDecides | internal/worker/setupprogress.go:223-250 | after a restart from any state a stage starting again finds an answer if and only if the file has it running with one |
| SetupRuns.StaleExactlyWhenSaveIsLost | internal/worker/setupprogress.go:378-404 | from any state, after the stage ends, a restart and a new start of it, an old answer is there if and only if the end was not written and the file still has that run answered |
| SetupRuns.AnswerOutlivesItsRun | internal/worker/setupprogress.go:336-356 | a history of five events from a fresh worker whose last state has an answer beside the running stage that was not given in its run |
| SetupReporter.NeverStoppedWhileRunning | internal/worker/setupreport.go:59-150 | while a stage runs, with ticks two seconds apart and sends delivered, no thirty-two seconds pass without a send, and once sent, or two seconds on, the tracker never calls the setup stopped |
| SetupReporter.DeadInstallerIsStopped | internal/worker/setupprogress.go:459-480 | and after any history the tracker calls a setup that was last heard starting a stage running for two minutes, and stopped from then on |
| SetupReporter.RunKeepsOk | internal/worker/setupreport.go:59-150 | every sequence of calls, ticks and other reports keeps the running stage recently sent or about to be |
| SetupReporter.StageIsSentAsRecorded | internal/worker/setupreport.go:59-77 | a stage is sent as it was said with the figures recorded for it, a models stage that is done having done them all, and that is what is recorded |
| SetupReporter.PullIsRecorded | internal/worker/setupreport.go:80-95 | a download's figures are recorded on a running models stage and left for the tick |
| SetupReporter.FlushSendsExactly | internal/worker/setupreport.go:124-142 | a flush sends exactly the models stage with unsent figures and, unless it is the last, every running stage once nothing was sent for thirty seconds, in the order first reported |
| SetupReporter.LiveReporter.CallStage | internal/worker/setupreport.go:59-77 | a stage's state is recorded with its figures kept, and sent at once |
| SetupReporter.LiveReporter.CallPull | internal/worker/setupreport.go:80-95 | a download's figures are recorded and left for the next tick |
| SetupReporter.LiveReporter.Flush | internal/worker/setupreport.go:124-142 | the loop sends what is unsent and, once the keepalive is due, every running stage |
| SetupOrder.LastWordExactlyWhen | internal/worker/setupreport.go:59-150 | with the lock released between taking and sending, over every interleaving of calls and flushes, the worker's last word on a stage is the reporter's if and only if the last send of it was not a flush's that a call had overtaken |
| SetupOrder.KeepaliveIsLast | internal/worker/setupreport.go:124-150 | an interleaving that ends with the reporter's stage ended, nothing left to send, and the worker last told it runs |
| SetupOrder.DoneIsToldAsFailed | internal/worker/setupprogress.go:360-371 | a tracker told so ends the stage as failed without a result when the installer finishes |
| BatchScan.Scan | scripts/ci/gitleaks-history.py:196-264 | for every completion order: at most jobs in flight, incomplete if and only if the inventory or a batch cannot be believed, clean if and only if every batch was, and otherwise every commit covered once with the findings of all reports |
| BatchScan.ScanHistory | scripts/ci/gitleaks-history.py:82-147 | told from what the processes leave behind: incomplete if and only if the inventory or some report is not to be believed, clean if and only if every batch exited zero with an empty list, and otherwise its findings are every item of every report, as often as it was reported, beside a receipt of every batch with its exit |
| BatchScan.ScanBatches | scripts/ci/gitleaks-history.py:112-147 | the scheduler ends with everything acknowledged, or with a batch that was not believed |
| BatchScan.Submit | scripts/ci/gitleaks-history.py:125-129 | the pool is topped up to jobs, and falls short only when no batch is left |
| BatchScan.Drain | scripts/ci/gitleaks-history.py:132-141 | finished batches are acknowledged by offset until one cannot be believed |
| BatchScan.Acknowledge | scripts/ci/gitleaks-history.py:248-256 | one batch goes into the receipt, which stays exactly what was acknowledged |
| BatchScan.BelievedMeans | scripts/ci/gitleaks-history.py:98-108 | a report is believed if and only if it is an empty list beside exit 0 or findings of its own batch's commits beside the findings exit, and it is taken whole |
| BatchScan.NothingPendingCovers | scripts/ci/gitleaks-history.py:248-261 | with nothing pending the receipts spell out the submitted commits, once each and in order |
| BatchScan.InsertListed | scripts/ci/gitleaks-history.py:252-253 | the sorted receipt list does not depend on the order batches finished in |
| BatchScan.FindingsExactlyWhenDirty | scripts/ci/gitleaks-history.py:258-259 | the gathered findings are empty if and only if every report was |
| WrapText.Wrap | internal/worker/inference_cmd.go:884-900 | the words are kept exactly, a line is wider than the width only if it is one word that is, and no wrapping uses fewer lines |
| WrapText.GreedyUsesFewestLines | internal/worker/inference_cmd.go:884-900 | of all wrappings within a width greedy's has the fewest lines |
| WrapText.GreedyWraps | internal/worker/inference_cmd.go:884-900 | greedy keeps the word sequence |
| WrapText.FieldsOfJoined | internal/worker/inference_cmd.go:884-900 | a printed line reads back as the words it was made of |
| PullDisplay.CountsAreMaxima | internal/worker/inference_cmd.go:999-1013 | until the pull is stopped, the bytes shown are the sums over statuses of the most each reported, in 64 bits |
| PullDisplay.OrderAndRepetitionDoNotMatter | internal/worker/inference_cmd.go:999-1013 | two downloads that saw the same set of events show the same bytes |
| PullDisplay.ShownOverARun | internal/worker/inference_cmd.go:990-1109 | the percentage never falls and stays within one hundred, a log has at most eleven tenths, and once over nothing changes |
| PullDisplay.PercentIsFurthest | internal/worker/inference_cmd.go:1014-1016 | the percentage shown is the largest true percentage any prefix of the events has had |
| PullDisplay.PercentOfBytes | internal/worker/inference_cmd.go:1061-1070 | without overflow the true percentage is the whole percentage of the bytes, at most a hundred |
| PullDisplay.HandledKeepsShown | internal/worker/inference_cmd.go:990-1045 | the event that stops the pull draws nothing, and stop is called once |
| PullRoom.StopsExactlyWhen | internal/worker/inference_cmd.go:1031-1059 | a pull is stopped if and only if the free space is known and after some of its events the layers need more room than that, each its largest total less what its first event reported; the need it reports is the room at the first such moment |
| PullRoom.StopsByItsLastRoom | internal/worker/inference_cmd.go:1031-1059 | without overflow it is stopped if and only if the room its events leave it needing is more than is free |
| PullRoom.RoomFollowsFirsts | internal/worker/inference_cmd.go:1000-1004 | two runs of one set of events whose layers' first reports agree need the same room |
| PullRoom.OrderDecidesNothingExactlyWhen | internal/worker/inference_cmd.go:1000-1059 | without overflow, every order of the events needs the same room if and only if, layer by layer, each event with bytes would leave as much to fetch as any other, were it the first |
| PullDisplay.FirstReportDecides | internal/worker/inference_cmd.go:1000-1004 | two events of one layer in one order stop the download and in the other do not |
| PullDisplay.Display.StillToWrite | internal/worker/inference_cmd.go:1051-1059 | walking the layers in any order gives the same sum |
| PullDisplay.Display.Count | internal/worker/inference_cmd.go:999-1016 | one event changes the counts as specified |
| PullDisplay.Display.Handle | internal/worker/inference_cmd.go:990-1045 | one event changes the display as specified |
| DesktopExec.DesktopRunsThePath | internal/desktopmenu/lifecycle.go:43-55 | for every accepted path, unescaping the entry's value, splitting it into arguments and reducing percent signs gives that path and the two arguments (sections 4 and 7 of the Desktop Entry Specification) |
| DesktopExec.UnitRunsThePath | internal/desktopmenu/lifecycle.go:43-55 | the same for the user unit by systemd's quoting and specifiers |
| DesktopExec.QuotedExactlyWhen | internal/desktopmenu/lifecycle.go:43-46 | a path is quoted if and only if it is absolute and holds no line break, tab, null or equals sign |
| DesktopExec.ReadReplaced | internal/desktopmenu/lifecycle.go:47-53 | a reader that takes each character's replacement for the character takes the replaced text for the text |

## Left out

- ClusterUrl.SameTextSameHost: over ASCII folding and ASCII URL text only, as ClusterUrl.RuleIsEquivalence below.
- ClusterUrl.RuleIsKeyEquality: over ASCII folding and ASCII URL text only, as ClusterUrl.RuleIsEquivalence below.
- ClusterUrl.RuleIsEquivalence: over ASCII folding only; Unicode case folding, percent-escapes and zones inside hosts, and the inner validity of a bracketed IPv6 address are not modelled.
- EnrollmentRuns.UnpairedStaysUnpaired: excludes hand edits of the files and starts whose command line names a cluster or token, which connect to what they were told.
- EnrollmentStore.Store.Upsert: labels, state directory, log level and other fields the commands only copy are not modelled; nor are file modes and ownership.
- FleetProgress.EnabledHomeReachesItsStream: counts the supervisor's moves; that it is given them is the scheduler's fairness, and how long a timer or a build takes is not modelled.
- Fleet.StepKeepsOk: a whole control command is one step, since it runs under the fleet's mutex; a running process that still streams to a cluster unpaired meanwhile is not modelled.
- ControlFile.SaveHomeEnabled: works on the parsed tree; YAML syntax, comments and the atomic replacement of the file are not modelled, and the tree is a value rather than shared nodes.
- Reconnect.AttemptsBounded: jitter only adds to a wait, so a wait is a lower bound here; stopping the runner ends the history.
- ModelPull.AdmittedExactlyWhen: the refusals' sentences are shortened, without the policy's path.
- ModelPull.EveryStartHasOneEnd: counts Ends handed to the stream; a send that fails is not modelled, nor are progress frames and the half-second settle.
- PullWorker.ClosesOverARefusalExactlyWhen: an evaluation is one step, although the code does not make its busy check and its close atomic.
- SetupReporter.NeverStoppedWhileRunning: a flush and its sends are one step and every send is delivered at the time it is made, and the tracker does not restart meanwhile; SetupOrder has the sends apart.
- SetupReporter.LiveReporter.Flush: collects and sends in one step, where the code lets go of its lock between them; SetupOrder has the two apart.
- SetupOrder.LastWordExactlyWhen: for stages reported by Stage; figures that Pull records without sending are not modelled there.
- BatchScan.Scan: an error writing the archive or the summary, fetching history, the scanner's version check, the archive of batch logs and process-group cleanup are not modelled; a batch's process is the exit and report it leaves.
- PullDisplay.CountsAreMaxima: the printed sentences, the bar's cells and the closing of a drawn line are not modelled.
- DesktopExec.DesktopRunsThePath: Linux paths only; installing, starting and removing the files are not modelled.
- Strings that are not valid UTF-8, in any module.
- The set of running tool calls (`toolCallSet`), heartbeats, labels and the gRPC transport.
- Packages the worker calls (apps, models, inference, consent, backup, workbench): their answers are inputs.
