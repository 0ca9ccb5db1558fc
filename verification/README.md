# Kubernetes volume tracker: a verified model

The tracker watches three resources of a Kubernetes API server — pods, persistent volumes (PVs) and claims (PVCs) —
and folds their events into a relational database that says which pod used which storage. The three watches are not
synchronised, may be cut and resumed at any time, and pods refer to claims by name only. This project models that
state machine, its second in-memory implementation, the encoder of pod specifications that goes with it, and the
load generator that exercises the cluster, and proves what they promise.

Check it with `dafny verify dfyconfig.toml` (Dafny 4.11).

| file | content |
|---|---|
| `Tables` | rows and tables as values, `Filter` for DELETE |
| `Matching` | the nested MAX/MIN selects that match a mount with a claim, and what they mean |
| `Operations` | the eleven calls of the database manager as state changes: `Body`, `Apply`, `Run` |
| `Manager` | the manager as an object: statements on tables in place, faults, rollback, duplicate keys, retry |
| `Streams` | which tables depend on which stream; confluence |
| `History` | every row and column read off the history of calls, against the step-by-step tables |
| `Interleavings` | exactly when the interleaving does not matter outside the mounts |
| `Granularity` | where the several transactions of a volume event fall makes no difference |
| `Invariants` | conservation of containers and mounts, sound references, deleted pods |
| `Convergence` | eventual convergence of the mounts of pods that stay, with its exact condition |
| `DeletedPods` | what becomes of the mounts of pods that are deleted |
| `PodSpecs` | container descriptions to a pod specification and back |
| `Watcher` | events, handlers, and the watch loop as an object |
| `Recording` | what one event leaves in the tables |
| `Reconnect` | three watches over one database, cut and resumed: nothing of that is visible |
| `EndToEnd` | convergence for the whole system, from event logs to mounts |
| `Replay` | what inserting again leaves alone |
| `Restart` | an expired version after any schedule of the watches: the fresh list harms nothing |
| `Mock`, `Interning`, `Simulation` | the mock manager, backend ids, and the mock against the tables |
| `Queries` | the three volume reports |
| `LoadResources`, `Choices`, `LoadGenerator` | the load generator's objects, random choice and actions |

## How to read it

A call of the manager has one meaning, `Operations.Body`. The methods of `Manager.MySQLManager` run the statements one
by one on mutable tables, under injected faults, and are proved to leave exactly that; the theorems are then about
runs (`Operations.Run`) of such calls. In the same way the handlers and the loop of `Watcher.Watcher` are proved
against `Watcher.EventOps` and `Watcher.Watched`, and the mock against `Mock.MockApply`. The load generator is a heap
of objects with an invariant, `LoadGenerator.LoadGenerator.Valid`, that every method keeps.

Assumptions, all written as preconditions where they are used:

* All inserts of a claim uid carry one name and one create time; no two claims share both. For convergence also: a
  claim is inserted once, names are unique among the claims that exist, and a claim is deleted once, not before it
  was created.
* Versions increase along each stream. `LIKE` on names is equality. There is one namespace, as the matching does not
  look at it.
* No handler is stuck: a bind does not repeat the recorded one to the microsecond (`Watcher.Unblocked`). Distinct
  moments are enough (`Watcher.MomentsSuffice`, `Reconnect.OwnMomentsSuffice`).
* A PV has a backend; a deleted pod has its deletion time; a bound PV names its claim. The handlers panic otherwise.

## What the proofs found

* documentation/proposal.md:262-264 says that a new claim updates the mounts of pods created after it. The code
  (dbmanager/mysql/insert.go:130-132) updates those of all pods that are not deleted. Convergence rests on the latter:
  see `Convergence.NewestArrives`.
* documentation/proposal.md:266 says that the system converges, without a condition. There are two cases.
  For a pod that stays, `Convergence.ConvergesIff` gives the exact condition: a claim that existed when the pod was
  created only has to outlast that moment; for a claim created later, every earlier claim of the name must have been
  recorded deleted strictly before the pod's creation. `DeletedPods.UnsettledOccurs` is a legal input that fails it.
  For a pod that is deleted the order always matters if it uses a claim: by `DeletedPods.DeletedPodAgreesIff` its mounts
  are the same in all interleavings if and only if no claim is inserted under a name that its containers mount. Its deletion
  freezes its mounts, so claims that arrive afterwards come too late, even when the pod and its only claim overlap in
  time (`DeletedPods.MissedByDeletion`) or the mount is on a claim that was gone before the pod was made
  (`DeletedPods.StuckOnTheDead`). What it keeps is what it was settled on when the deletion was handled
  (`DeletedPods.SettledBeforeDeletion`).
* A bind that repeats the recorded volume and time affects no row, which dbmanager/mysql/bind.go:70-74 turns into an
  error (`Operations.BlockedIff`). The loop of dbmanager/mysql/mysql.go:135-150 tests an outer `err` that an inner one
  shadows, so it never gives up: by `Manager.MySQLManager.FirstPasses` the loop gets out, once the server stops failing
  attempts, if and only if the call is not such a bind. Every bind blocks its own repetition:
  `Operations.BindBlocksItself`.
* With two claims of the same name and create time, a mount can get one row for each, and the error that reports this
  is dropped at dbmanager/mysql/insert.go:252: `Matching.OneRowExactly` says for which tables, `Matching.TwoRowsForTwins`
  is one.
* Outside `pod_mount` the interleaving does not matter if and only if each claim that a volume event binds is deleted,
  if at all, after its insert too, and updated, if at all, only when it is inserted: `Interleavings.ConfluenceIff`. An
  early deletion of a bound claim is the smallest failure: `Streams.OrderMattersWithoutInserts`.
* An argument vector survives joining and splitting exactly when it is not empty and no argument holds a blank:
  `PodSpecs.SplitJoinExactly`.
* Once a version was refused the watch starts afresh whenever its stream ends: `Replay.AfreshForEver`.
* The load generator divides by zero when no pods are allowed and a claim exists: `Choices.CreateWeightIff`.
* `random.random < .75` (load_test/load_test.py:127) compares a function with a number, which is false in Python 2, so
  a new name is used exactly while the index is at most the maximum.

## Model

| member | source | states |
|---|---|---|
| Matching.EarlierMatchIsLatest | dbmanager/mysql/insert.go:87-93 | the nested MAX select picks a claim exactly when it is the latest of its name that was alive at the pod's creation |
| Matching.LaterMatchIsEarliest | dbmanager/mysql/insert.go:100-106 | the nested MIN select picks a claim exactly when it is the earliest of its name created at or after the pod and not deleted by then |
| Matching.MatchIsPreferred | dbmanager/mysql/insert.go:162-229 | the three tiers pick a claim, or none, exactly when it is the preferred one: latest alive, else earliest later, else NULL |
| Matching.OneRowPerMount | dbmanager/mysql/insert.go:162-229 | a mount adds exactly one row, with its container, name and flag, for the preferred claim |
| Matching.OneRowExactly | dbmanager/mysql/insert.go:87-122 | with ties allowed, a mount adds one row exactly when the create time that decides, of the youngest claim alive or else of the oldest later one, is not shared by another claim of the name |
| Matching.TwoRowsForTwins | dbmanager/mysql/insert.go:177-181 | a table with a tie, on which a mount adds two rows |
| Matching.StubsNeverMatch | dbmanager/mysql/insert.go:87-106 | a row that only a bind made, with NULL name and create time, is never matched |
| Operations.CleanMountsMeaning | dbmanager/mysql/delete.go:61-111 | the two-phase delete drops all rows of the pod if one of them is bad, none otherwise, and no row of another pod |
| Operations.DeletionDropsOrKeeps | dbmanager/mysql/delete.go:61-111 | on the columns: a deletion keeps all mounts when every recorded claim that a mount of the pod is on was made by then, whatever other claims there are; when one was made later all mounts of the pod go, and no other |
| Operations.VersionAfter | dbmanager/mysql/resource_version.go:56-76 | a call that is not refused stores its version under its own key and leaves every other key; a refused one stores nothing |
| Operations.FindAppended | dbmanager/mysql/existence.go:75-90 | after interning, the lookup finds the backend under the id that interning returned |
| Operations.BlockedIff | dbmanager/mysql/bind.go:64-74 | undisturbed, a call fails with an error that is not absorbed exactly when it is a bind that repeats the recorded volume and time |
| Operations.BindBlocksItself | dbmanager/mysql/bind.go:35-38 | a bind that was recorded is such a repetition from then on, until another bind of that claim |
| Manager.MySQLManager.InsertPodMount | dbmanager/mysql/insert.go:162-229 | appends the rows of the mount; reports an error exactly when more than one claim matches |
| Manager.MySQLManager.InsertMounts | dbmanager/mysql/insert.go:251-253 | the loop over a container's mounts appends the rows of all of them, in order |
| Manager.MySQLManager.InsertContainers | dbmanager/mysql/insert.go:245-254 | the loop over containers appends one row per container and the rows of all mounts |
| Manager.MySQLManager.ExecInsertPod | dbmanager/mysql/insert.go:239-261 | run statement by statement, the transaction ends as the one-step meaning of the call, or fails by a fault or a duplicate key |
| Manager.MySQLManager.ExecDeletePod | dbmanager/mysql/delete.go:78-112 | the same for the deletion of a pod with its mount clean-up |
| Manager.MySQLManager.ExecClaim | dbmanager/mysql/insert.go:311-330 | the same for the calls on claims: upsert with the late-claim repair, update, deletion |
| Manager.MySQLManager.ExecVolume | dbmanager/mysql/insert.go:278-296 | the same for the calls on PVs: insert, update, deletion |
| Manager.MySQLManager.ExecBind | dbmanager/mysql/bind.go:62-79 | the same for a bind, which fails when it affects no row; its version is stored with the PVs |
| Manager.MySQLManager.ExecInsertISCSI | dbmanager/mysql/insert.go:379-394 | the same for interning an iSCSI backend; a failed attempt can only use up ids |
| Manager.MySQLManager.UpdateRV | dbmanager/mysql/resource_version.go:56-76 | upserts the version of one resource and namespace |
| Manager.MySQLManager.GetRV | dbmanager/mysql/resource_version.go:78-91 | the stored version, or none |
| Manager.MySQLManager.Rollback | dbmanager/mysql/mysql.go:110-111 | puts every table back, but not the id counter |
| Manager.MySQLManager.ExecuteAndCommit | dbmanager/mysql/mysql.go:109-130 | an attempt that the server fails anywhere, the commit included, is an error |
| Manager.MySQLManager.RunTxActual | dbmanager/mysql/mysql.go:103-131 | one attempt commits the whole call or nothing, and fails if the server fails it; a duplicate key counts as success with nothing changed |
| Manager.MySQLManager.RunTx | dbmanager/mysql/mysql.go:135-150 | exactly once: however many attempts fail, the tables end as the call applied once to the tables before, or unchanged with their versions for a duplicate |
| Manager.MySQLManager.FirstPasses | dbmanager/mysql/mysql.go:135-150 | once the server stops failing attempts the loop ends if and only if the call does not repeat the recorded bind; such a bind never succeeds; until the end nothing but ids is lost |
| Manager.LostIdsAreSkipped | dbmanager/mysql/schema.sql:6-12 | a call after lost ids is the call that skips them |
| Manager.MySQLManager.InsertNFS | dbmanager/mysql/insert.go:338-371 | returns the id of the backend's row, making one if needed |
| Manager.MySQLManager.InsertISCSI | dbmanager/mysql/insert.go:373-399 | returns the id of the backend's row through the retried transaction, whatever ids that lost |
| Streams.SameBindOutcome | dbmanager/mysql/bind.go:64-74 | a bind is refused on the shared row exactly when it is refused on the volume stream's own stub |
| Streams.ClaimsStep | dbmanager/mysql/insert.go:50-53 | a claim event keeps the claim table the merge of the two folds: it writes only the claim's own columns |
| Streams.BindStep | dbmanager/mysql/bind.go:35-38 | a bind keeps it too: it writes only the bind columns |
| Streams.StreamsAreIndependent | dbmanager/mysql/bind.go:35-38 | after any interleaving every table but `pod_mount` is the merge of what each stream produces alone |
| Streams.Confluence | dbmanager/mysql/insert.go:47-53 | any two interleavings of the same streams, claims inserted first, agree on every table but `pod_mount` |
| Streams.OrderMattersWithoutInserts | dbmanager/mysql/delete.go:45-46 | two interleavings that disagree, when a bound claim is deleted that was not inserted |
| Interleavings.ClaimStandsApart | dbmanager/mysql/insert.go:50-53 | in any interleaving the row of a claim that is not bound, or is robust, is that of the claim stream and of the binds apart |
| Interleavings.BindDecides | dbmanager/mysql/bind.go:35-38 | an event that comes before the claim's insert counts when the bind came first and is lost otherwise |
| Interleavings.ConfluenceIff | dbmanager/mysql/bind.go:35-38 | all interleavings of three streams agree on every table but `pod_mount` if and only if each bound claim is deleted, if at all, after its insert too, and updated, if at all, only when it is inserted |
| Interleavings.LoneDeletionIsHarmless | dbmanager/mysql/delete.go:45-46 | a deletion without an insert breaks no order when nothing binds the claim |
| Granularity.MountsIgnoreVolumes | dbmanager/mysql/insert.go:87-132 | the mounts are those that pods and claims make, as if there were no volume events |
| Granularity.VolumesFallAnywhere | watcher.go:115-134 | runs that agree on the order of pod and claim calls and on the order of volume calls end in the same tables, wherever the transactions of a volume event fall |
| History.RefusedIff | dbmanager/mysql/mysql.go:112-124 | the tables refuse a call exactly when its history does: the object was inserted before, or the bind repeats the last one |
| History.TablesAreTheirHistory | dbmanager/mysql/insert.go:37-67 | after any calls, each pod, PV and claim row and each stored version is, column by column, that of the call that wrote it last |
| Convergence.ClaimStreamIsSerial | documentation/proposal.md:264-266 | along a legal claim stream the claims of a name follow one another and never overlap |
| Convergence.RowsForPodBelong | dbmanager/mysql/insert.go:245-254 | each row that a pod adds is its own, and names a match of its claim name whenever there is one |
| Convergence.RowsForPodCover | dbmanager/mysql/insert.go:245-254 | each mount of the description has a row |
| Convergence.SettledMatches | dbmanager/mysql/insert.go:87-112 | once the newest claim is recorded, a settled pod's mounts match it and nothing else, whatever binds came before |
| Convergence.UnsettledDiffers | dbmanager/mysql/insert.go:87-112 | with all claims recorded, an unsettled pod's mounts do not match the newest claim |
| Convergence.NewestArrives | dbmanager/mysql/insert.go:124-132 | the arrival of a claim puts all mounts of its name, of live pods, on it, whatever they were on |
| Convergence.OtherOpsKeep | dbmanager/mysql/insert.go:124-132 | no other event takes a mount off its claim |
| Convergence.SettledConverges | documentation/proposal.md:258-268 | every interleaving ends with the mounts of a settled pod that stays on the newest claim of the name |
| Convergence.UnsettledDiverges | documentation/proposal.md:258-268 | for an unsettled pod, delivering the claims before the pods leaves a mount off the newest claim |
| Convergence.ConvergesIff | documentation/proposal.md:258-268 | for a pod that stays, all interleavings of three streams converge if and only if pod and claims are settled, a condition on recorded times alone |
| Convergence.ConvergesWhenPredecessorsAreGone | dbmanager/mysql/insert.go:87-334 | the mounts converge when the newest claim exists and each earlier one was deleted strictly before the pod's creation |
| Convergence.WrongForAWhile | documentation/proposal.md:264-266 | a pod may be put on an old claim that was gone before it was made, until the deletion and the new claim arrive; then it is on the new one |
| DeletedPods.UnsettledOccurs | documentation/proposal.md:258-268 | a legal input that is not settled, and its interleaving that ends off the newest claim |
| DeletedPods.BlankMounts | dbmanager/mysql/insert.go:209-212 | while no claim of its names is inserted a pod's mounts are the unclaimed rows of its description, whatever else happens |
| DeletedPods.PodsFirst | dbmanager/mysql/insert.go:130-132 | when all pod events come first the mounts of a deleted pod stay without a claim for good |
| DeletedPods.ClaimsAfterInsert | dbmanager/mysql/insert.go:130-132 | when the claims come right after the pod's insert, no mount under one of their names is left without a claim |
| DeletedPods.DeletedPodAgreesIff | documentation/proposal.md:258-268 | the mounts of a pod that is deleted are the same in all interleavings if and only if no claim is inserted under a name that its containers mount |
| DeletedPods.SettledBeforeDeletion | dbmanager/mysql/delete.go:78-112 | a deleted pod's mounts are and stay on the newest claim that it was settled on when its deletion was handled |
| DeletedPods.MissedByDeletion | documentation/proposal.md:258-268 | a settled pod and its only claim, in the order that converges and in the one that leaves the mount without a claim for good |
| DeletedPods.StuckOnTheDead | documentation/proposal.md:270-272 | no claim is deleted in use, yet the mounts of a deleted pod end on a claim that was gone before the pod was made |
| Invariants.ClaimsComeFromLog | dbmanager/mysql/insert.go:50-53 | a claim row is a stub or has its identity from an insert in the log |
| Invariants.ReferencesAreGood | dbmanager/mysql/delete.go:61-111 | in every reachable state each mount's pod is recorded, its claim exists under that name, and a deleted pod's claim was made no later than the deletion |
| Invariants.DeadPodsAreFrozen | dbmanager/mysql/insert.go:124-132 | whatever arrives after a pod's deletion, claims included, its mounts stay as they are |
| Invariants.ShapesForPod | dbmanager/mysql/insert.go:245-254 | the rows of a pod are its description's mounts, in order, with container, claim name and flag |
| Invariants.MountsAreConserved | dbmanager/mysql/insert.go:239-261 | in every reachable state a pod has one container row per container and one mount row per mount of its first insert; only a deletion drops mounts, and then all |
| PodSpecs.JoinSplit | util.go:31-34 | joining what splitting gives returns the command |
| PodSpecs.SplitJoinExactly | util.go:31-34 | splitting what joining gives returns the arguments exactly when there are some and none holds a blank |
| PodSpecs.JoinLast | util.go:31-34 | joining one more argument, whatever the arguments hold, puts a blank and the argument behind the rest |
| PodSpecs.ReadPod | watcher.go:71-94 | the decoding loops compute the containers with the claim mounts of each |
| PodSpecs.ReadMeans | watcher.go:71-94 | for every specification: per container, in order, its name, image and joined command, and exactly the mounts that a claim backs, in order, each under the claim of the last such volume of its name and with its own flag |
| PodSpecs.ClaimNameIsRead | watcher.go:71-85 | a volume named differently from its claim is recorded under the claim's name |
| PodSpecs.WriteContainer | kubectl/resource_writer.go:142-166 | the encoding loop over mounts yields the container and adds a volume for each new claim name |
| PodSpecs.PathsAreNumbered | kubectl/resource_writer.go:155-159 | the j-th mount of a container is at the path that ends with j in decimal digits |
| PodSpecs.IterateVolumes | kubectl/resource_writer.go:168-173 | the map's volumes in some order, each once |
| PodSpecs.WritePod | kubectl/resource_writer.go:136-187 | the encoder yields a pod for the descriptions, with one volume per claim mentioned |
| PodSpecs.RoundTrip | kubectl/resource_writer.go:136-187 | decoding any pod written for some descriptions returns them, for every order of the volumes and after volumes without a claim and mounts of them were injected |
| PodSpecs.PlainRoundTrip | watcher.go:71-94 | the same with nothing injected |
| Watcher.Watcher.GetRV | watcher.go:48-63 | the version to resume from: none when starting afresh, the stored one otherwise, PVs under a name of their own |
| Watcher.Watcher.HandlePods | watcher.go:66-105 | the pod handler runs the calls of its event, the containers decoded from the specification |
| Watcher.Watcher.InsertBackend | watcher.go:119-126 | interns the backend of a PV, NFS first |
| Watcher.Watcher.Bind | watcher.go:131-134 | records the bind of a PV that names a claim, unless it repeats the recorded one, which never ends |
| Watcher.Watcher.HandlePVs | watcher.go:108-175 | the PV handler: interning, insert and bind; bind or update by phase; deletion |
| Watcher.Watcher.HandlePVCs | watcher.go:178-209 | the claim handler, with the handling time when the event has no deletion time |
| Watcher.HandleUnused | watcher.go:132-145 | handling an event uses up only the moment that it is handled at |
| Watcher.MomentsSuffice | watcher.go:132-145 | inputs handled at moments of their own never repeat a recorded bind, so no handler is stuck |
| Watcher.Watcher.Receive | watcher.go:253-290 | one pass of the inner loop: end of stream, expired version, skipped version, or an event handled |
| Watcher.Watcher.WatchLoop | watcher.go:248-293 | the nested loops, variables and all, do what the inputs do one by one |
| Watcher.Watcher.Watch | watcher.go:231-294 | a resource that is watched already is left alone; otherwise it is watched from the stored version |
| Recording.PodIsRecorded | watcher.go:95-96 | an Added pod event leaves the pod's columns, a row per container read from its specification, and its version |
| Recording.BackendRecorded | watcher.go:119-126 | interning leaves a row with the PV's backend under the id it gives, and changes nothing else |
| Recording.PVIsRecorded | watcher.go:115-134 | an Added PV event leaves the PV's columns with the one backend id of its row, its bind if it names a claim, and its version |
| Recording.PVIsUpdated | watcher.go:146-162 | a PV that becomes available has its backend and columns recorded afresh |
| Recording.ClaimIsRecorded | watcher.go:182-187 | an Added claim event leaves the claim's columns, keeps its bind, and moves all mounts of live pods under its name |
| Recording.ClaimIsUpdated | watcher.go:188-195 | a Modified event of a pending claim writes storage, access modes and JSON of its row, if there is one, and nothing else but the version |
| Recording.BoundIsRecorded | watcher.go:135-145 | a PV that becomes bound writes volume and moment into its claim's row, made if need be, and nothing else but the version |
| Recording.UpdateKeepsIdentity | watcher.go:146-162 | a PV that is updated keeps its name, create time and delete time |
| Recording.DeletionIsRecorded | watcher.go:166-173 | a deletion stamps the row of the object, if there is one, and changes no other row of the three tables |
| Recording.EventTouchesItsOwn | watcher.go:66-209 | an event writes no row but those of its object and of the claim that it binds; only pod events and new claims touch mounts |
| Recording.SkippedExactly | watcher.go:282-287 | a new claim is recorded unless its event has the very version of the connection, whether the version is newer or older |
| Reconnect.QuietChangesNothing | watcher.go:97-100 | events that ask for nothing, or for rows that exist, leave the database as it was |
| Reconnect.HandleRecords | watcher.go:66-209 | every event either stores its own version under the key that resuming reads, or is quiet from then on |
| Reconnect.HandleRemembers | watcher.go:66-209 | an event never makes another one loud again and writes no version but that of its own resource |
| Reconnect.ResumesWell | watcher.go:250-252 | resuming after, or at, the stored version resends quiet events only, and perhaps the one whose version is skipped |
| Reconnect.RepeatedDelivery | watcher.go:280-287 | delivering an event again changes nothing |
| Reconnect.FirstDelivery | watcher.go:280-287 | a new event is never skipped, and keeps the invariant of all three streams |
| Reconnect.OwnMomentsSuffice | watcher.go:132-145 | steps at moments of their own never repeat a recorded bind |
| Reconnect.ReconnectsAreInvisible | watcher.go:231-294 | after any deliveries, ends of streams and resumptions of three watches, the database is that of one uninterrupted processing of each log up to the furthest position |
| EndToEnd.TraceIsARun | watcher.go:66-209 | processing events is running their calls |
| EndToEnd.PodsOfTrace | watcher.go:66-105 | the pod calls of any schedule are those of the pod log alone |
| EndToEnd.ClaimsOfTrace | watcher.go:178-209 | the claim calls of any schedule are those of the claim log alone |
| EndToEnd.HandlersMayInterleave | watcher.go:66-209 | the calls of the handled events may interleave, each stream in its order, and leave the same tables |
| EndToEnd.TrackerConverges | documentation/proposal.md:258-268 | however the three watches are scheduled, cut and resumed, once all pod and claim events are handled the mounts of a settled pod that stays are on the newest claim |
| EndToEnd.TrackerDiverges | documentation/proposal.md:258-268 | for an unsettled pod, the schedule that delivers all claims first leaves a mount off the newest claim |
| EndToEnd.TrackerConvergesIff | documentation/proposal.md:258-268 | all schedules that handle everything converge if and only if the pod is settled |
| Replay.ClaimReplayIff | dbmanager/mysql/insert.go:130-132 | inserting a claim again leaves the mounts as they are exactly when they had converged on it |
| Replay.RepeatsAreHarmless | dbmanager/mysql/mysql.go:112-124 | calls that repeat what is recorded keep pods, containers, mounts, PVs and backends, and each claim's identity, delete time and volume |
| Replay.ReinitialisationIsHarmless | watcher.go:261-273 | fresh Added events for recorded objects, in any order and interleaving, do the same |
| Replay.AfreshForEver | watcher.go:265-271 | after an expired version no stored version is used again |
| Restart.LivePodsConverged | dbmanager/mysql/insert.go:124-132 | after any run, all mounts of live pods under a name are on its newest claim when the pods that stay are settled on it |
| Restart.BinderOfTrace | watcher.go:131-145 | a claim's recorded volume is the one whose event bound it last, in any schedule |
| Restart.ListedIsRecorded | watcher.go:261-273 | an object of the logs that the server lists afresh, after all events were handled in any schedule, is recorded, with its backend, bind, identity and mounts |
| Restart.RelistIsHandled | watcher.go:261-289 | after an expired version the watch handles all that is listed, in order, and skips nothing |
| Restart.RestartIsHarmless | watcher.go:261-273 | after any schedule that handled all events, an expired version and a fresh list keep pods, containers, mounts, PVs, backends, and each claim's identity, delete time and volume |
| Mock.MockManager.InsertPod | dbmanager/mock/mock.go:102-109 | records the pod's attributes, over those it had |
| Mock.MockManager.InsertPV | dbmanager/mock/mock.go:111-129 | records the PV with its backend id on the right side |
| Mock.MockManager.InsertPVC | dbmanager/mock/mock.go:131-137 | records the claim's attributes |
| Mock.MockManager.InsertNFS | dbmanager/mock/mock.go:139-147 | the id of the map, or the next of the counter |
| Mock.MockManager.InsertISCSI | dbmanager/mock/mock.go:149-159 | the same for iSCSI |
| Mock.BindsAreForgotten | dbmanager/mock/mock.go:161-164 | a run of the mock is the same without its binds, wherever they come |
| Mock.MockManager.DeletePod | dbmanager/mock/mock.go:166-170 | erases the pod and counts the deletion |
| Mock.MockManager.DeletePV | dbmanager/mock/mock.go:171-175 | erases the PV and counts the deletion |
| Mock.MockManager.DeletePVC | dbmanager/mock/mock.go:176-180 | erases the claim and counts the deletion |
| Mock.MockManager.UpdatePV | dbmanager/mock/mock.go:182-201 | changes the backend ids and the storage of a PV that must be there |
| Mock.MockManager.UpdatePVC | dbmanager/mock/mock.go:203-208 | changes the storage of a claim that must be there |
| Interning.FindMeans | dbmanager/mysql/existence.go:58-90 | the lookup returns the first row of the backend, or says that there is none |
| Interning.InternKeepsNumbering | dbmanager/mysql/schema.sql:1-12 | ids stay positive, increasing and below the counter, keys distinct, and rows are only appended |
| Interning.AnswerIsKept | dbmanager/mysql/insert.go:356-370 | the id of a request is positive and stays in the table, under its backend, for good |
| Interning.SameIdIffSameBackend | dbmanager/mysql/insert.go:338-399 | over any requests, two get the same id exactly when they are for the same backend, lost ids or not |
| Interning.InternSimulates | dbmanager/mock/mock.go:139-159 | map-plus-counter gives the ids of scan-plus-counter and stays in step with it |
| Simulation.SimDeletionStep | dbmanager/mock/mock.go:166-180 | the mock's count goes up exactly when a row of the tables gets its delete time |
| Simulation.SimStep | dbmanager/mock/mock.go:102-208 | a well-formed call does not panic in the mock and keeps it in step with the tables |
| Simulation.MockSimulatesTables | dbmanager/mock/mock.go:102-208 | after any well-formed calls the mock's maps are exactly the live rows of the tables, with their attributes, containers and backend ids |
| Queries.BackendsAreOk | dbmanager/mysql/insert.go:278-296 | in every state that events lead to each PV has exactly one nonzero backend id, and it is that of a row |
| Queries.NFSScan | queries/nfs_volumes_for_pods.sql:7-9 | joining with the backend table adds one row if the id is there and none otherwise |
| Queries.OneReport | queries/volumes_for_pods.sql:5-6 | a joined row is in exactly one of the two special reports, under the kind that the general one gives it |
| Queries.ReportsPartition | queries/volumes_for_pods.sql:1-8 | the general report is, as a bag, the disjoint union of the NFS and iSCSI reports, and nothing is of unknown kind |
| Queries.VolumesReport | queries/volumes_for_pods.sql:1-8 | the general report has one row for each mount whose pod, claim and volume are recorded, deleted or not, in order, with their names, and no other |
| Queries.BackendReports | queries/nfs_volumes_for_pods.sql:1-9 | the special reports have one row for each such mount whose volume has a backend of that kind, in order, with the names and that very backend |
| LoadResources.PV.Bind | load_test/resources.py:205-207 | claim and volume point to each other |
| LoadResources.PV.Unbind | load_test/resources.py:210-211 | the volume forgets its claim |
| LoadResources.PVC.Mount | load_test/resources.py:166-167 | one more mounter |
| LoadResources.PVC.Unmount | load_test/resources.py:170-171 | one mounter less |
| LoadResources.PVC.Delete | load_test/resources.py:181-184 | unbinds the volume of a claim, which every caller shows to be bound |
| LoadResources.Pod.constructor | load_test/resources.py:116-120 | the loop counts the new pod on each of its claims, once |
| LoadResources.Pod.Delete | load_test/resources.py:148-151 | the loop takes the pod off each of its claims, once |
| LoadResources.ReusableExists | load_test/load_test.py:121-137 | when no new name is wanted, a name that was issued is free, so the drawing loop can end |
| LoadResources.RecordedOrderly | load_test/load_test.py:129-146 | recording a new object never overwrites one in use and keeps names, histories and counts in order |
| LoadResources.DroppedOrderly | load_test/load_test.py:208-209 | so does dropping one |
| Choices.RecalculateProbabilities | load_test/load_test.py:53-56 | the weights are scaled to a sum of one, in proportion |
| Choices.Pick | load_test/load_test.py:298-306 | for any draw the scan picks a choice of positive weight, the one whose interval holds the draw |
| Choices.PickIsUnique | load_test/load_test.py:298-306 | only one choice fits a draw |
| Choices.CreateWeightIff | load_test/load_test.py:231-243 | the creation weights have a positive sum exactly unless no pods are allowed and there are claims |
| Choices.TakenOffers | load_test/load_test.py:295-306 | taking out another choice leaves the sure one, with a positive weight |
| Choices.DeletionsOffered | load_test/load_test.py:278-282 | the delete mode starts with a type that can certainly be deleted among its choices |
| Choices.DeletesOffered | load_test/load_test.py:268-282 | it offers each type that there is, once |
| Choices.DeleteShares | load_test/load_test.py:249-253 | each type at the share of its objects among all |
| Choices.CreateShares | load_test/load_test.py:231-243 | what the create mode offers, exactly, and at what odds: a pod by the number of claims, a claim by that of pods |
| Choices.ChanceMeans | load_test/load_test.py:276-278 | a draw deletes exactly when, as a share of the capacity, it is below the number of objects |
| Choices.FullerDeletesMore | load_test/load_test.py:276-278 | a full cluster deletes at every draw, and a draw that deletes still does with one more object |
| Choices.SomeDrawDecides | load_test/load_test.py:276-278 | and some draw does then that did not before |
| Choices.CreationsOffered | load_test/load_test.py:289-293 | the create mode offers only what there is room for |
| LoadGenerator.BoundVolumes | load_test/load_test.py:168-174 | volumes bound to different claims are no more than the claims |
| LoadGenerator.UnboundExists | load_test/load_test.py:168-174 | with fewer claims than volumes some volume can be deleted |
| LoadGenerator.BoundToOne | load_test/resources.py:181-183 | a current claim is bound, to a current volume that no other claim points to |
| LoadGenerator.FreeClaims | load_test/resources.py:178-179 | without pods every claim can be deleted |
| LoadGenerator.FreeVolumes | load_test/resources.py:214-215 | without claims every volume can be deleted |
| LoadGenerator.LoadGenerator.constructor | load_test/load_test.py:73-90 | an empty cluster satisfies the invariant |
| LoadGenerator.LoadGenerator.PickName | load_test/load_test.py:127-137 | a new name exactly while the index is at most the maximum, otherwise one that was issued and is free |
| LoadGenerator.LoadGenerator.CreatePV | load_test/load_test.py:149-155 | adds a fresh unbound volume, or nothing exactly when there is no room |
| LoadGenerator.LoadGenerator.CreatePVC | load_test/load_test.py:157-162 | adds a fresh claim no larger than its volume |
| LoadGenerator.LoadGenerator.CreatePVWithRoom | load_test/load_test.py:168-174 | the loop ends with a volume made, after at most one deletion |
| LoadGenerator.LoadGenerator.CreateVol | load_test/load_test.py:167-177 | always one claim more, bound to a volume made for it and no smaller than it |
| LoadGenerator.LoadGenerator.SampleClaims | load_test/load_test.py:180-185 | as many current claims as are wanted, up to five and to what there is, none twice |
| LoadGenerator.LoadGenerator.AddPod | load_test/load_test.py:186-187 | the new pod is counted on the claims of its sample |
| LoadGenerator.LoadGenerator.CreatePod | load_test/load_test.py:179-189 | one pod more, under a free name, with as many claims as are wanted and possible, unless there is no room |
| LoadGenerator.LoadGenerator.DeletePV | load_test/load_test.py:195-212 | removes a volume that is not bound, exactly when there is one |
| LoadGenerator.LoadGenerator.DeletePVC | load_test/load_test.py:195-212 | removes a claim that no pod holds and unbinds its volume, exactly when there is one |
| LoadGenerator.LoadGenerator.DeletePod | load_test/load_test.py:195-212 | removes a pod and releases its claims, exactly when there is one |
| LoadGenerator.LoadGenerator.Draw | load_test/load_test.py:297-306 | takes out the choice of positive weight whose share holds the draw, and leaves the others in proportion |
| LoadGenerator.LoadGenerator.Delete | load_test/load_test.py:307 | one object less, or nothing changed, which the sure type rules out |
| LoadGenerator.LoadGenerator.DeleteSomething | load_test/load_test.py:295-307 | retrying across types always ends with exactly one object less |
| LoadGenerator.LoadGenerator.CreateSomething | load_test/load_test.py:295-307 | the first draw creates a pod, or a volume with its claim |
| LoadGenerator.LoadGenerator.Decide | load_test/load_test.py:276-278 | deletes exactly when the draw is below the share of the capacity that all objects take up, which an empty cluster never is |
| LoadGenerator.LoadGenerator.DoAction | load_test/load_test.py:261-307 | every action keeps the invariant; it deletes by how full the cluster was; then exactly one object goes, otherwise something is made unless pods and claims are at their maximum |

## Left out

- Manager.MySQLManager.ExecInsertPod: statements for single mounts do not fail, and a failing version update is one more failed attempt, where dbmanager/mysql/insert.go:255-259 ends the process.
- Manager.MySQLManager.InsertNFS: no faults; its own transaction ends the process on an error (dbmanager/mysql/insert.go:345-355) and a failed id read is not modelled.
- Manager.MySQLManager.RunTx: needs a call that does not repeat the recorded bind, because the source's loop does not end for one; FirstPasses covers all calls, for any number of attempts.
- Watcher.Watcher.Bind: needs, for the same reason, that no bind repeats the recorded one.
- Watcher.Watcher.HandlePVs: needs, for the same reason, that no bind repeats the recorded one.
- Watcher.Watcher.Receive: needs, for the same reason, that no bind repeats the recorded one.
- Watcher.Watcher.WatchLoop: needs, for the same reason, that no bind repeats the recorded one.
- Recording.PVIsRecorded: needs, for the same reason, that no bind repeats the recorded one.
- Reconnect.HandleRecords: needs, for the same reason, that no bind repeats the recorded one.
- Reconnect.FirstDelivery: needs, for the same reason, that no bind repeats the recorded one.
- Convergence.ConvergesIff: about pods that are never deleted after their first insert; DeletedPods is about the others.
- Watcher.Watcher.Watch: needs that too; runs the loop in the calling thread, with the inputs as a parameter, instead of in a goroutine on channels; stop channels are a set of resources.
- Reconnect.ReconnectsAreInvisible: the handler of one event is one step; EndToEnd.HandlersMayInterleave says that its transactions may fall between others. Streams end between events; the expired version is in Watcher, Replay and Restart.
- EndToEnd.TrackerConvergesIff: deletions of claims carry their time, so that the streams do not depend on the clock; pods that are deleted are in DeletedPods.
- Replay.ReinitialisationIsHarmless: claims get the descriptive columns of the new events, bound claims a new bind time; deletions missed meanwhile stay missing, as TODO.md:17-19 says.
- Simulation.MockSimulatesTables: on calls that lose no ids; access modes, texts and times of deletion are not kept by the mock; its attribute objects are values in its maps.
- Choices.RecalculateProbabilities: returns a scaled list instead of changing the objects of the list, over the reals instead of floating point.
- LoadGenerator.LoadGenerator.SampleClaims: any number of claims up to the maximum may be drawn, instead of an exponentially distributed one.
- LoadGenerator.LoadGenerator.CreateVol: sizes may be any in their range; how often each is drawn is not modelled.
- LoadResources.PVC.Delete: needs a bound claim, which the source asserts at that point.
- HTTP, JSON, URLs, channels, prepared statements, connections, logging and `log.Fatal` around calls: input, output and wiring.
- SQL as a language: each statement is its effect on rows. Collation, `LIKE` patterns, TIMESTAMP precision, `inet_aton` and column lengths are the database's; names are compared as strings, values are unbounded.
- Ids of `container` and `resource_version` rows, which nothing reads.
- Several namespaces in one database: the matching does not look at the namespace.
- Crashes in the middle of a handler, clocks that go back, and lost events: the code disclaims them.
- kubectl, templates, files and directories of the load generator and the resource writer; names of load-test resources are the indices in them.
- The other reports under queries/, which select or group the rows of the same join.
