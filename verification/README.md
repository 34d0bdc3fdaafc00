# Migration engine: models and proofs

A Dafny model of the parts of the migration engine (`internal/migration`) whose correctness spans many
steps: the durable writer-fence broker, the acceptance of signed envelopes, the crash-safe replacement of a
directory, the resumable chunk download, the validation of transferred manifests, the repair of a MongoDB
dump by a bounded oplog delta, the Redis archive, the MySQL dump transformer and row digest, and the
finalisation of PostgreSQL logical replication.

`dafny verify dfyconfig.toml` verifies everything.

## How the model is built

State that the source updates in place is a class: `FenceBroker`, `Gate`, `SwapHost`, `Download`,
`RowDigestWriter`, `TargetHost`. The durable ones keep a `log` with the state after every single file
operation or command. A crash truncates that log anywhere and reloads memory from disk, so what holds of every
log entry holds of every point at which the process or the machine can stop. Each such class has a method
`AnyRun` that performs arbitrary operations with arbitrary failures, crashes and outside activity and is proved
to end in a valid state; the lemmas over runs then speak about every log that can arise. Failures are
nondeterministic choices; a parameter `reliable` switches them off where convergence is stated, and activation
takes the outcome of each of its steps as a parameter (`Luck`). A `hosted` broker lets the host start and stop
services between any two steps; the contracts about running services are those of a broker that is not.

| module | subject |
|---|---|
| `FenceState`, `FenceSteps` | fences, markers, running services; the invariant of every moment and the rule of every step |
| `FenceRules`, `WriterFence` | the checks and records of the broker's operations; the operations |
| `FenceTheorems`, `FenceCounters`, `FenceRestart` | safety over whole runs; what becomes of the counts; a release cut short and the next start-up |
| `EnvelopeGate` | signed envelopes, consumed nonces, fencing tokens |
| `FileSwap` | the target / apply / backup renames and their recovery |
| `Manifest`, `Transfer` | manifest validation; chunk arithmetic and resumed download |
| `MongoDelta` | fuzzy dump plus oplog delta |
| `RedisRecords`, `RedisArchive`, `RedisScan` | record encodings, archive format, scan, writer and reader |
| `MysqlLexer`, `MysqlLaws`, `MysqlEdits`, `MysqlDump`, `RowDigest` | the byte automaton, the lexical rules said on the text, the edits of whole lines, the transformer, the row digest |
| `PostgresFinalize`, `PostgresTarget` | the final-state contract and step rule; the finalisation as it runs |
| `Bytes`, `Int64`, `Wrappers` | byte strings and their order; 64-bit integers; small shared concepts |

## Where the code bounds what is true

Each of these is modelled as the code stands, with the exact condition proved.

- The watchdog without a service controller counts without the lock of fence operations
  (`internal/migration/broker.go:994-1007`). A save of an operation takes back exactly what was counted since the
  operation copied the fence (`CommitTakesBack`). What was ever saved is remembered exactly when no save overwrites
  a saved count (`SavedCountsKeptIff`), and zero counts in a quiescence proof mean no saved violation exactly then
  (`QuiescenceIff`); `LostCountRun` is a run in which a saved violation disappears.
- A rollback discards the error of reinstalling markers (`internal/migration/broker.go:768`). All markers are
  back exactly when every service past the fault was still marked or is named before it
  (`RestoreActive`, `InstallCompletesIff`). Over every run a service of a durable fence lacks its marker exactly when
  such a rollback, or the start, left it without one and nothing marked it since (`UnmarkedIffLapsed`);
  `LapsedRun` is such a run.
- Activation compares only active fences (`internal/migration/broker.go:530`). That is enough because no request is
  served while a release is authorized in memory; without that, its comparison admits a clash (`ActivationNeedsServing`).
- A failed second save rebuilds the record without its run identity (`internal/migration/broker.go:602-608`). A retry
  is refused exactly then (`RetryActivation`, `FailedConfirmStrands`), a fence in force refuses every activation
  exactly when it is in that state (`RefusedIffStranded`), and once saved it stays so (`StrandedForever`).
- A first activation whose intent could not be saved still stops services
  (`internal/migration/broker.go:573-575`). The retry records the writers that ran before exactly when the first
  try did not stop one of them that way (`RetryActivation`, `FailedSaveForgets`).
- A stop between marking and saving leaves an orphaned marker (`internal/migration/broker.go:556-561`); the next
  start-up refuses it. Without failures start-up succeeds exactly when no marker is orphaned and no unrecorded service
  of an authorized fence runs (`Serve`, `OrphanedMarkerBlocks`).
- A save that reports an error may have replaced the file. When that save is the one that records a finished release
  (`internal/migration/broker.go:752-762`), the rollback marks the services again while the file no longer names them. A
  release cut short at any step is followed by a start-up that serves requests exactly when the file at that moment
  still holds the fence or none of its services is marked; that is always so unless such a save was lost
  (`ReleaseCutShort`); `LostReleaseRun` is the failure.
- A stop before the swapping marker leaves an apply directory that later runs report as a collision
  (`internal/migration/files.go:827-828`); `ApplyFileTree` succeeds without failures exactly when `Converges` holds.
- Transferred sizes are summed in 64 bits (`internal/migration/files.go:222-225`). The accepted total is exact
  and within the limit exactly when no single file exceeds the limit (`TotalExactIff`, `HugeFileIsAccepted`).
- The oplog is capped and each query sees only what it still holds: the window is read after the roll-over check
  (`internal/migration/mongodb.go:980-984`), and what followed it is looked for later
  (`internal/migration/mongodb.go:1014-1018` and `1049-1069`). Every dump is the source as it stands exactly when each
  document changed by an entry lost before the query is written again in the window and each changed by an entry
  unseen by the last check has its value back (`EveryDumpRepairedIff`, `DumpAndRestore`); `LostEntryDump`,
  `LostCommandRun` and `UnseenWriteRun` are the failures.
- A chunk index is multiplied in 64 bits (`internal/migration/dataplane.go:328`). An index the client asks for is
  served its own chunk, 2^42 is served the first one (`RequestedIndexServed`, `HugeIndexServesFirst`).
- The MySQL transformer drops every line that mentions the sandbox mode, rows included, and removes a mode from
  SQL-mode statements between engines (`internal/migration/mysql.go:1176-1183`). With code left alone a dump comes out
  as it was read exactly when no line is touched so (`DumpKeptIff`); `LostRow` and `LoseRow` are the failures.
- PostgreSQL recovery compares the target before it stops the worker
  (`internal/migration/postgres_logical.go:1580-1597`). Every worker leaves the target matching exactly when none runs
  or it is in step with a source whose remaining positions all hold the captured rows (`MatchKeptIff`); in every other
  announced state some worker spoils it unnoticed (`DriftDuringRecovery`).
- A target marked finalised reports success without looking at the subscription
  (`internal/migration/postgres_logical.go:1562-1572`); `FinalizeTarget` says so: such a call changes nothing.
- Recovery of a directory swap restores the old tree from the backup when neither target nor apply directory
  exists (`internal/migration/files.go:757-765`). That state is unreachable; `RecoverFileSwap` proves it.
- The release handler's branch for an authorized fence (`internal/migration/broker.go:661-674`) is dead while
  requests are served; `ReleaseWriterFence` is stated for that state.

## Model

| member | source | states |
|---|---|---|
| FenceSteps.SavedSound | internal/migration/broker.go:527-571 | Writing an admissible record keeps all held fences disjoint, guarded and well formed. |
| FenceSteps.SaveLegal | internal/migration/broker.go:270-311 | A successful save keeps the invariant and obeys the step rule. |
| FenceSteps.FailedSaveLegal | internal/migration/broker.go:565-576 | A failed save, whichever file content it leaves, followed by its undo in memory, keeps the invariant. |
| FenceSteps.MarkerRemovedLegal | internal/migration/writer_fence_inhibitor.go:180-196 | Removing the marker of a durably authorized service uncovers no active fence. |
| FenceSteps.MarkerWrittenLegal | internal/migration/writer_fence_inhibitor.go:136-178 | Writing a marker keeps the invariant and obeys the step rule. |
| FenceSteps.StillGuarded | internal/migration/writer_fence_inhibitor.go:180-196 | An authorized fence excludes every active fence from its services, so their markers remain. |
| FenceRules.IntentFits | internal/migration/broker.go:527-577 | With no authorized fence in memory, activation's own checks make the intent safe to save and to undo, whatever was counted since they were made. |
| FenceRules.ConfirmFits | internal/migration/broker.go:594-611 | The confirmed record, and the one rebuilt without run identity, may both stand. |
| FenceRules.ReinstatedFits | internal/migration/broker.go:767-782 | A fence whose release failed may be put back in force. |
| FenceRules.AuthorizeFits | internal/migration/broker.go:700-714 | An authorization built from an older copy of the fence may be saved and undone. |
| FenceRules.CompletableKept | internal/migration/broker.go:988-1085 | A watchdog pass does not decide whether authorized releases can be completed. |
| FenceRules.InstallCompletesIff | internal/migration/writer_fence_inhibitor.go:136-178 | A partial installation leaves every service marked exactly under the stated condition on the fault. |
| FenceRules.OtherFenceUntouched | internal/migration/broker.go:1024-1048 | Enforcing one fence stops no service of another. |
| FenceRules.PassAdvances | internal/migration/broker.go:1024-1080 | A watchdog pass counts each violated fence once, whatever the order of the fences, on top of what others count beside it. |
| FenceRules.ReleaseLeavesForce | internal/migration/broker.go:965-986 | Completing an authorized release unmarks and starts nothing of a fence in force. |
| FenceSteps.BumpLegal | internal/migration/broker.go:994-1007 | Counting on every active fence at any point, saved or not, keeps everything but other operations' counts. |
| FenceSteps.RewriteLegal | internal/migration/broker.go:1050-1079 | A record rewritten from its present value keeps the invariant and takes no count back. |
| WriterFence.FenceBroker.constructor | internal/migration/broker.go:228-264 | Any state file loads: a record with a phase as it is; the start is sound exactly when no service is held twice; nothing has lapsed when its fences are marked. |
| FenceRules.LoadedRecord | internal/migration/broker.go:247-262 | A record with a phase loads unchanged; a legacy one in force stays in force and restarts every service unless it recorded some, else it is released. |
| FenceRules.SavedLoadsUnchanged | internal/migration/broker.go:228-264 | What the broker saved loads as it was saved. |
| WriterFence.FenceBroker.Commit | internal/migration/broker.go:564-577 | One critical section over a record built from an earlier copy: saved in memory and on disk, or undone in memory with either file content. |
| WriterFence.FenceBroker.Rewrite | internal/migration/broker.go:1050-1079 | One critical section that rereads the record: memory keeps the change, the file may not. |
| WriterFence.FenceBroker.Meanwhile | internal/migration/broker.go:994-1007 | Between two steps others may save, another pass may count without the lock any number of times, and in a hosted broker services start and stop; nothing else changes, and nothing at all in memory when nobody counted. |
| WriterFence.FenceBroker.HostActs | internal/migration/broker.go:1467-1510 | The host stops any service and starts unmarked ones only, between any two steps. |
| WriterFence.FenceBroker.ActivateInhibitors | internal/migration/writer_fence_inhibitor.go:136-178 | Exactly the markers up to the fault are added; success means every service is marked. |
| WriterFence.FenceBroker.ReleaseInhibitors | internal/migration/writer_fence_inhibitor.go:180-196 | Only the authorized fence's markers go; success removes all of them. |
| WriterFence.FenceBroker.IntersectsServices | internal/migration/writer_fence_inhibitor.go:198-207 | True exactly when two names agree up to case. |
| WriterFence.FenceBroker.FencedElsewhere | internal/migration/broker.go:529-534 | True exactly when another active fence shares a service. |
| WriterFence.FenceBroker.VerifyServicesInactive | internal/migration/broker.go:828-839 | Succeeds exactly when every query is answered and no listed service runs. |
| WriterFence.FenceBroker.VerifyExpectedServiceStates | internal/migration/broker.go:798-814 | Succeeds exactly when every query is answered and exactly the expected services run. |
| WriterFence.FenceBroker.PreviouslyActiveServices | internal/migration/broker.go:784-796 | The listed services that run, in order, exactly when every query is answered. |
| WriterFence.FenceBroker.ActivateWriterFence | internal/migration/broker.go:522-618 | Succeeds exactly when run identity, scope and clash checks hold and every step goes well; states the fence, the file, the running services and the record for every way it can go, the lost run identity included; no other service is marked. |
| WriterFence.FenceBroker.RestoreActive | internal/migration/broker.go:767-782 | The fence is back in memory; all markers are back exactly when the reinstall completes. |
| WriterFence.FenceBroker.CompleteAuthorizedRelease | internal/migration/broker.go:728-765 | Success: durable, unmarked, exactly the recorded writers running; failure reinstates the fence; without failures it completes exactly when no unrecorded service of the fence runs. |
| WriterFence.FenceBroker.ConfirmRelease | internal/migration/broker.go:750-764 | The finished release is durable, or the fence is put back in force; without failures it is durable. |
| WriterFence.FenceBroker.ReleaseWriterFence | internal/migration/broker.go:620-726 | Succeeds only if, and without failures exactly if, identity, scope, phase and service states are as it checks; ends with exactly the recorded writers running, all other services as they were; a failed release leaves the fence in force; without failures it fails only before its first step. |
| WriterFence.FenceBroker.VerifyWriterFence | internal/migration/broker.go:841-914 | Success: the fence is durable, in force, stopped, and the reported counts are its own; without failures it succeeds exactly when scope and idleness hold. |
| WriterFence.FenceBroker.ReconcileFence | internal/migration/broker.go:1024-1080 | One fence of a pass: enforced, and a violation counted exactly once on the record as it is reread, whatever others counted meanwhile; a fence short of force counts one error, one in force has an activating or releasing phase confirmed; scope and recorded writers kept. |
| WriterFence.FenceBroker.ValidateMarkers | internal/migration/writer_fence_inhibitor.go:35-113 | A marker is accepted exactly when some record that is active or whose release is authorized names it; without failures nothing else is refused. |
| FenceRules.ExpectedIffNoOrphan | internal/migration/writer_fence_inhibitor.go:35-56 | The expected markers cover all markers exactly when each is named by an active or release-authorized record. |
| WriterFence.FenceBroker.WatchdogUnavailable | internal/migration/broker.go:992-1012 | Every active fence counts a violation and an error, at any point of another operation; nothing else changes. |
| WriterFence.FenceBroker.ReconcileWriterFences | internal/migration/broker.go:988-1085 | A completed pass leaves every active fence marked and stopped and has counted every violated one at least once, and exactly once when nobody counted beside it; without failures it completes exactly when every marker is named by an active or release-authorized record. |
| WriterFence.FenceBroker.AttestWriterFences | internal/migration/broker.go:1419-1440 | An attestation runs a pass beside the monitor and reports exactly the fences in force, with every writer that ran under one of them counted. |
| WriterFence.FenceBroker.ResumeAuthorizedReleases | internal/migration/broker.go:965-986 | Success leaves no authorized fence, and every fence in force as it was; without failures it succeeds exactly when no unrecorded service of an authorized fence runs; while serving there is nothing to do. |
| WriterFence.FenceBroker.Monitor | internal/migration/broker.go:946-963 | A monitor round, with an attestation counting beside it, keeps the serving state and changes only phases and counters. |
| WriterFence.FenceBroker.Serve | internal/migration/broker.go:1467-1515 | From any crash state, reaching the accept loop means every active fence is marked and stopped, no authorized fence remains, the file is what memory holds and every marker is named; without failures it is reached exactly when every marker is named by an active or release-authorized record and every authorized release can be completed. |
| WriterFence.FenceBroker.CrashAt | internal/migration/broker.go:228-264 | Stopping at any logged moment and reloading gives a valid state whose memory is the loaded file. |
| WriterFence.FenceBroker.AnyRun | internal/migration/broker.go:1385-1531 | Requests, attestations and monitor rounds with unlocked counting beside them, crashes and boots anywhere, and the host at work between any two steps, in any order, keep the invariant at every moment. |
| FenceTheorems.DurableFencesAreMarked | internal/migration/broker.go:556-578 | Over every run without a lapsed rollback, each service of a fence active on disk has its marker on disk. |
| FenceTheorems.UnmarkedIffLapsed | internal/migration/broker.go:767-782 | Over every run, a service of a durable active fence has no marker exactly when some rollback went on without it, or the run started without it, and nothing marked it since. |
| FenceTheorems.LapseOrigin | internal/migration/broker.go:767-782 | Traces a missing marker back to the rollback, or the start, that left it missing. |
| FenceTheorems.LapsedRun | internal/migration/broker.go:728-782 | A run that ends with a durable active fence whose marker is missing. |
| FenceTheorems.FencedWriterNeverStarts | internal/migration/broker.go:556-578 | No step by anyone, boots included, starts a writer whose fence is active on disk. |
| FenceTheorems.StoppedWriterStaysStopped | internal/migration/broker.go:943-963 | A stopped writer stays stopped as long as its fence is active on disk, through any crashes and boots. |
| FenceTheorems.MarkerRemovedOnlyWhenAuthorized | internal/migration/broker.go:700-765 | A marker disappears only in a broker step while the disk authorizes its release and no active fence holds it. |
| FenceTheorems.HeldFencesAreDisjoint | internal/migration/broker.go:527-538 | Distinct active or authorized fences share no service, in memory and on disk, at every moment. |
| FenceTheorems.RecordedWritersAreKept | internal/migration/broker.go:540-554 | While a fence stays held its services and recorded writers never change, nor its run identity unless it is lost, and the recorded writers are among the services. |
| FenceTheorems.StrandedForever | internal/migration/broker.go:602-608 | A fence saved without run identity stays active and without it for the rest of the run. |
| FenceTheorems.RefusedIffStranded | internal/migration/broker.go:536-538 | A fence in force refuses every activation exactly when it is stranded, and every release and verification exactly then unless an old release is half-way. |
| FenceTheorems.FailedConfirmStrands | internal/migration/broker.go:599-611 | The failing input: an activation whose last save fails is followed by refusals only. |
| FenceTheorems.ActivationNeedsServing | internal/migration/broker.go:529-534 | Activation's checks pass on a service that an authorized fence still holds, so serving must exclude that. |
| FenceTheorems.RetryRecordsIff | internal/migration/broker.go:573-575 | A later observation records the same writers exactly when none of them was stopped in between. |
| FenceTheorems.RetryOutcome | internal/migration/broker.go:522-618 | What two activations in a row leave, over their tables and running services. |
| FenceTheorems.RetryActivation | internal/migration/broker.go:522-618 | A second try that goes well is refused exactly when the first failed in its last save; one that succeeds records the writers that ran exactly when the first did not stop one after failing to save its intent. |
| FenceTheorems.FailedSaveForgets | internal/migration/broker.go:566-577 | The failing input: after a failed first save the retry records no writer. |
| FenceTheorems.OrphanedMarkerBlocks | internal/migration/broker.go:556-561 | After a stop between marker and intent the broker does not reach its accept loop. |
| FenceTheorems.FenceAndRelease | internal/migration/broker.go:522-726 | A fence put in force and released without failures: every service runs exactly as before, none of its own is marked, other fences changed in their counters at most. |
| FenceRestart.NamedIffHeld | internal/migration/writer_fence_inhibitor.go:35-113 | In the middle of a release the file names every marker exactly when it still holds the fence or none of its services is marked. |
| FenceRestart.StartsKeepCompletable | internal/migration/broker.go:736-746 | A release starts recorded writers only, so whatever is authorized stays completable. |
| FenceRestart.ReleaseMoments | internal/migration/broker.go:700-782 | Every step of a release, its failures and its rollback included, keeps the scope, the other fences' markers and completability. |
| FenceRestart.HeldMoments | internal/migration/broker.go:700-765 | The file holds the fence at every step until the finished release is saved, or such a save is lost. |
| FenceRestart.ReleaseExplained | internal/migration/broker.go:620-782 | What a stop at any step of the release of a fence in force leaves: exactly when the markers are named, and the lost save behind every marker that is not. |
| FenceRestart.ReleaseCutShort | internal/migration/broker.go:620-782 | A release cut short at any step, then a start-up without failures: requests are served exactly when the file still holds the fence or none of its services is marked; always after a release that succeeds or whose steps do not fail, and otherwise unless the save of the release was lost. |
| FenceRestart.ServeFenceRelease | internal/migration/broker.go:522-782 | Start-up, activation, release cut short, start-up: the last one succeeds whenever the release succeeds or its steps do not fail. |
| FenceRestart.LostReleaseRun | internal/migration/broker.go:750-764 | For every fence in force that is alone, a run in which the release's save is lost and a marker is left that no held record names. |
| FenceCounters.WindowCounts | internal/migration/broker.go:994-1007 | Between an operation's copy and its save, memory counts exactly what the unlocked watchdog adds. |
| FenceCounters.CommitTakesBack | internal/migration/broker.go:527-577 | A save of a fence operation takes back exactly what was counted since its copy, so counts are kept exactly when that is nothing. |
| FenceCounters.SavedCountsKeptIff | internal/migration/broker.go:994-1007 | Over every run, what was ever saved is remembered at every later moment exactly when no save overwrites a saved count made since its copy. |
| FenceCounters.QuiescenceIff | internal/migration/quiescence.go:351-356 | Counts reported as zero were zero in every earlier state file exactly when no save has overwritten a saved count. |
| FenceCounters.LostCountRun | internal/migration/broker.go:522-577 | A run in which a saved violation is gone again from memory and file. |
| EnvelopeGate.FreshEnvelope | internal/migration/broker.go:324-343 | An envelope that passes was never accepted before, nor its nonce while that was valid, and its token is not below an accepted one. |
| EnvelopeGate.PruningKeeps | internal/migration/broker.go:329-334 | Pruning at any later time forgets no envelope that could still pass. |
| EnvelopeGate.ConsumingKeeps | internal/migration/broker.go:343-350 | Recording an envelope keeps what is known of all accepted ones. |
| EnvelopeGate.Gate.PruneSeen | internal/migration/broker.go:329-334 | Exactly the expired nonces go. |
| EnvelopeGate.DomainsIff | internal/migration/broker.go:360-371 | Two primitives share a domain exactly when both act on host writers, both on the composed runtime, or they are the same. |
| EnvelopeGate.AscendTogether | internal/migration/broker.go:360-371 | An accepted unfence never carries a token below an accepted fence or quiescence check of the same migration, and likewise within the other kinds. |
| EnvelopeGate.TokensThatCount | internal/migration/broker.go:337-345 | An accepted envelope shuts out exactly the lower tokens of its own migration and kind; a compose task does not depend on fence tokens. |
| EnvelopeGate.Gate.AcceptFence | internal/migration/broker.go:313-351 | Accepts exactly when every check passes and the save succeeds; the accepted log stays free of repetition. |
| EnvelopeGate.Gate.AnyRun | internal/migration/broker.go:313-351 | Over any run with crashes and failed saves no envelope is accepted twice, none late or under a legacy nonce, no nonce again before its envelope expired, and tokens of one migration and kind never decrease. |
| FileSwap.OldOrNewAtEveryMoment | internal/migration/files.go:852-885 | During a replacement the target is the old or the new tree, or is absent with both held whole aside. |
| FileSwap.SettledLineage | internal/migration/files.go:721-766 | A settled marker names the target's tree, which is the last settled one or a pending one started since. |
| FileSwap.SwappingLineage | internal/migration/files.go:846-861 | The old tree of a replacement under way is the last settled tree or an earlier pending one. |
| FileSwap.UnclaimedTreeStands | internal/migration/files.go:803-806 | Over any run, a non-empty tree that was there before any marker is the target at every moment, and no marker is written for it. |
| FileSwap.SwapHost.RecoverFileSwap | internal/migration/files.go:721-766 | Success leaves exactly the old or the new tree with the marker naming it; failure keeps the marker; it calls itself at most once. |
| FileSwap.SwapHost.CopyTree | internal/migration/files.go:837-845 | Success leaves the complete new tree in the apply directory and nothing else changed. |
| FileSwap.SwapHost.Exchange | internal/migration/files.go:862-885 | Every rename keeps the history safe; success means new tree, settled marker and nothing left over. |
| FileSwap.SwapHost.ApplyFileTree | internal/migration/files.go:768-886 | Success means target and marker are the manifest's; a non-empty target without a marker, and left-over directories of the manifest without an interrupted swap, are refused with nothing changed; without failures it succeeds exactly when `Converges`, and a new or empty unmarked target is applied; a tree in place is a replay that changes nothing. |
| FileSwap.SwapHost.AnyRun | internal/migration/files.go:721-886 | Any sequence of applies, failures and stops, also inside recovery, keeps every moment safe, and never replaces a non-empty tree that was there unmarked. |
| FileSwap.SwapHost.RerunAfterCrash | internal/migration/files.go:778-886 | After a stop anywhere behind the swapping marker, one run without failures converges and the next is a replay. |
| Manifest.EarlierFilesSuffice | internal/migration/files.go:198-210 | Checking an entry against earlier files is checking it against all. |
| Manifest.LookupMeansBelow | internal/migration/files.go:206-210 | Finding a file among the parents means lying below a listed file. |
| Manifest.PlacedBelowFile | internal/migration/files.go:206-210 | The walk up the parents finds a file exactly when one is there. |
| Manifest.CheckEntry | internal/migration/files.go:198-230 | One entry passes exactly when it fits the accepted ones before it. |
| Manifest.ValidateTransferredManifest | internal/migration/files.go:191-238 | Accepts exactly the manifests that are acceptable as a whole: ordered, nothing below a file anywhere, bounded; reports how many entries are files and how many directories. |
| Manifest.TotalExactIff | internal/migration/files.go:217-225 | The accepted total is the exact sum within the limit exactly when no file exceeds the limit. |
| Manifest.HugeFileIsAccepted | internal/migration/files.go:217-225 | A file of 2^63-1 bytes after one of a byte is accepted with a negative total. |
| Manifest.FindManifestEntry | internal/migration/dataplane.go:307-313 | The search finds an entry exactly when the path is listed. |
| Bytes.LessIff | internal/migration/files.go:198-205 | The order of paths and keys: one is less exactly when it ends, or has the smaller byte, where the two first differ. |
| Wrappers.LowerIff | internal/migration/writer_fence_inhibitor.go:198-207 | Names fold to the same exactly when they agree letter by letter up to ASCII case. |
| Transfer.ChunksTile | internal/migration/dataplane.go:326-354 | The chunks, in order, are the file: no byte missing or repeated. |
| Transfer.RequestedIndexFits | internal/migration/dataplane.go:326-354 | For every index the client asks, no 64-bit product or sum overflows. |
| Transfer.HandleChunk | internal/migration/dataplane.go:316-354 | Serves exactly the indexes whose wrapped 64-bit product falls in the file, with the chunk at that place. |
| Transfer.RequestedIndexServed | internal/migration/dataplane.go:328-345 | For every index of a file the product does not wrap: the chunk served is the one asked for. |
| Transfer.HugeIndexServesFirst | internal/migration/dataplane.go:328-345 | The index 2^42 is served the first chunk. |
| Transfer.AskChunk | internal/migration/files.go:567-572 | The client receives exactly the chunk it asks for. |
| Transfer.LaterPathsDiffer | internal/migration/files.go:527-545 | A later entry, or its partial file, is never a finished entry's path. |
| Transfer.StillToFetch | internal/migration/files.go:507-619 | Working on an entry takes no later entry off the list of those to fetch. |
| Transfer.PartialIsPending | internal/migration/files.go:537-545 | A partial file always belongs to an entry that a later run will fetch. |
| Transfer.Download.FetchChunk | internal/migration/files.go:552-601 | A chunk is kept only if it hashes to its record; success makes that span the source's. |
| Transfer.Download.FetchChunks | internal/migration/files.go:546-601 | From any partial file and any honest checkpoint the loop ends with the source's bytes. |
| Transfer.Download.DownloadManifestTree | internal/migration/files.go:495-639 | Success leaves the cache equal to the source with the manifest's total; interruption leaves a resumable cache. |
| Transfer.Download.Resume | internal/migration/files.go:495-639 | After any number of interrupted runs one run without failures completes. |
| MongoDelta.DumpPlusDeltaIsSource | internal/migration/mongodb.go:974-1025 | Whatever moment each document was read at, and in whatever order mutations apply, dump plus delta is the source at the end. |
| MongoDelta.ApplyAllAt | internal/migration/mongodb.go:1236-1246 | Distinct mutations act independently of their order. |
| MongoDelta.CaptureDelta | internal/migration/mongodb.go:963-1047 | Succeeds exactly when the window is complete when checked, small, supported, followed by nothing the capped oplog still holds, and its documents validate; the delta holds each document as it was read. |
| MongoDelta.StableAfterIff | internal/migration/mongodb.go:1049-1069 | With the stability check passed, the source stands as at the end of the window exactly when what entries fallen off had changed is restored. |
| MongoDelta.EveryDumpRepairedIff | internal/migration/mongodb.go:974-1069 | Every dump with the delta is the source as it stands exactly when each document changed by an entry lost before the query is written again in the window, and each changed by an entry unseen by the last check has its value back. |
| MongoDelta.RestoredIff | internal/migration/mongodb.go:1049-1069 | The later entries restore everything exactly when each document stands as it was taken. |
| MongoDelta.ReadsRepair | internal/migration/mongodb.go:1008-1018 | While nothing after the window has fallen off before the final check, the documents read are those at its end. |
| MongoDelta.UnrestoredDump | internal/migration/mongodb.go:1049-1069 | Otherwise a dump taken at the end of the window stays wrong. |
| MongoDelta.LostEntryDump | internal/migration/mongodb.go:980-984 | A lost entry whose change is not written again spoils some dump, whatever the database is to be. |
| MongoDelta.LostCommandRun | internal/migration/mongodb.go:980-1007 | The failing input: a lost command leaves an accepted empty delta and an unrepaired dump. |
| MongoDelta.ValidIffWindowValid | internal/migration/mongodb.go:1071-1112 | The captured delta validates exactly when the window's documents are in valid collections and under their own identity. |
| MongoDelta.ValidateDelta | internal/migration/mongodb.go:1071-1112 | Accepts exactly bounded deltas with valid collections and distinct documents. |
| MongoDelta.ApplyDelta | internal/migration/mongodb.go:1236-1246 | The loop performs exactly the mutations. |
| MongoDelta.DumpAndRestore | internal/migration/mongodb.go:1327-1392 | Start, dump, delta, inspection, stability check and restore give the source as it stands for every dump exactly under that condition; nothing falling off before the query and the last check is enough. |
| MongoDelta.UnseenWriteRun | internal/migration/mongodb.go:1014-1069 | The failing input: a write after the window falls off before the checks look, and a wrong result is accepted. |
| RedisRecords.DecodeEncode | internal/migration/redis.go:737-759 | Decoding an encoded record gives it back, whatever follows. |
| RedisRecords.EncodeDecode | internal/migration/redis.go:880-903 | What decodes is the encoding of what it decodes to. |
| RedisRecords.HeaderFields | internal/migration/redis.go:737-759 | Where each field of an encoded record stands. |
| RedisRecords.BigEndianDigit | internal/migration/redis.go:485-494 | Byte i of a number is the digit of its place, the highest first. |
| RedisRecords.HashInputInjective | internal/migration/redis.go:485-494 | The hashed byte string determines the list of records. |
| RedisArchive.ReadBack | internal/migration/redis.go:869-926 | Reading the written records gives the same records in order. |
| RedisArchive.WriteBack | internal/migration/redis.go:869-926 | Re-encoding the records read reproduces the bytes. |
| RedisArchive.ArchiveFits | internal/migration/redis.go:969-982 | Every written archive fits the reader's limit and the capacity computed from its own count and bytes. |
| RedisArchive.RoundTrip | internal/migration/redis.go:761-967 | A written archive is accepted and yields the same records and the same trailer. |
| RedisArchive.AcceptedIsCanonical | internal/migration/redis.go:850-967 | Any accepted archive is the encoding of its records, which are ordered and within limits. |
| RedisArchive.SameDigestSameRecords | internal/migration/redis.go:485-494 | Accepted archives with equal digests carry equal records. |
| RedisArchive.PersistentExactly | internal/migration/redis.go:585-593 | The persistent records are exactly those with expiry -1, as many as there are such places, in their order. |
| RedisArchive.FitsInOrder | internal/migration/redis.go:895-912 | Accepted records ascend by database and key, so none is repeated. |
| RedisScan.CanonicalKeys | internal/migration/redis.go:500-509 | The loop computes the ascending list of the same keys without repetition. |
| RedisScan.DistinctNoLonger | internal/migration/redis.go:543-555 | Distinct keys are together no longer than the collected list, so the index limit covers them. |
| RedisScan.CollectKeys | internal/migration/redis.go:530-554 | Succeeds exactly when the key-count and index limits leave room, with all keys of all batches. |
| RedisScan.ScanRedisRecords | internal/migration/redis.go:511-611 | Succeeds exactly on databases within the key-count, index, size, type and expiry limits; then a record is returned exactly when some database holds that value with that expiry under a returned key; ascending, all within the reader's limits. |
| RedisScan.ScanHolds | internal/migration/redis.go:511-611 | A record is scanned exactly when a database of its index holds its value and expiry under its key and the cursor returned that key. |
| RedisScan.ScanDatabase | internal/migration/redis.go:556-605 | Succeeds exactly when every key is within the single-record limits and the data total within its own; then appends exactly what the database holds under those keys. |
| RedisScan.ScanIsDetermined | internal/migration/redis.go:511-611 | A scan of the same keys and values visits the same records, whatever batches the cursor returned. |
| RedisScan.WriteRedisArchive | internal/migration/redis.go:761-848 | Writes exactly the archive; the size check inside the loop never fires on a fitting scan. |
| RedisScan.ReadRedisArchive | internal/migration/redis.go:850-967 | The reader's loop is the reading function of the format. |
| RedisScan.DumpAndRead | internal/migration/redis.go:511-967 | Exactly on scannable databases, scan, write and read visit exactly what the databases hold under the returned keys, in order, and return the trailer, which counts the records without expiry. |
| MysqlLexer.VerbatimSpan | internal/migration/mysql.go:1086-1118 | A span of strings and comments is copied byte by byte. |
| MysqlLexer.CodeSpan | internal/migration/mysql.go:1073-1083 | A maximal run of code is rewritten as a whole. |
| MysqlLexer.IdentityRendersText | internal/migration/mysql.go:1070-1166 | No byte is lost or repeated. |
| MysqlLexer.LexIsCarried | internal/migration/mysql.go:1070-1166 | The automaton over a line with carried state is where it is over the whole text. |
| MysqlLaws.LiteralLaw | internal/migration/mysql.go:1098-1135 | From code, a quote, any body of ordinary bytes, backslash pairs and doubled quotes, and the quote again are copied whole, and code goes on. |
| MysqlLaws.CommentLaw | internal/migration/mysql.go:1086-1148 | From code, a comment is copied from its slash to the first closing pair after it, slash-star-slash being one, and code goes on. |
| MysqlLaws.LineNoteLaw | internal/migration/mysql.go:1149-1156 | From code, a hash, or two dashes and a blank, and all up to and with the newline are copied. |
| MysqlLaws.OpenLaw | internal/migration/mysql.go:1136-1142 | The opening of an executable comment, in either spelling, is code and starts one. |
| MysqlLaws.CloseLaw | internal/migration/mysql.go:1122-1126 | The closing pair of an executable comment is code and ends it. |
| MysqlLaws.ByteLaw | internal/migration/mysql.go:1120-1158 | A byte that opens and closes none of these is code; inside an executable comment only quotes and the closing pair are special. |
| MysqlLaws.AllPieces | internal/migration/mysql.go:1070-1166 | A text laid out in such pieces is classified piece by piece. |
| MysqlLaws.OutsideIffMadeOfPieces | internal/migration/mysql.go:1196-1200 | A text ends outside strings and comments exactly when it consists of such pieces with every executable comment closed. |
| MysqlLaws.LinesFollowPieces | internal/migration/mysql.go:1070-1206 | In every line, the bytes taken for code and the bytes copied are those of the pieces of the whole text. |
| MysqlLaws.TransformPieces | internal/migration/mysql.go:1168-1206 | The transformer succeeds exactly when lines are short, code is rewritten, and the text consists of pieces. |
| MysqlDump.CopyBlock | internal/migration/mysql.go:1086-1097 | Finds the end the automaton finds, slash-star-slash being a whole comment. |
| MysqlDump.CopyString | internal/migration/mysql.go:1098-1118 | Finds the closing quote the automaton finds, past backslash pairs and doubled quotes, as `LiteralLaw` says on the text. |
| MysqlDump.ScanCode | internal/migration/mysql.go:1120-1158 | Stops exactly where the automaton leaves code. |
| MysqlDump.TransformLine | internal/migration/mysql.go:1070-1166 | The jumping loop terminates with exactly the rendering of the byte automaton, which `LinesFollowPieces` ties to the pieces of the text, and the state it carries. |
| MysqlDump.LinesAgreeWithText | internal/migration/mysql.go:1070-1166 | Each byte is classified as one automaton over the whole text classifies it. |
| MysqlDump.TransformDump | internal/migration/mysql.go:1168-1206 | Succeeds exactly on short lines, successful rewriting and a text ending outside strings and comments, that is, made of pieces (`TransformPieces`); then renders the text. |
| MysqlDump.IdentityKeepsDump | internal/migration/mysql.go:1184-1194 | With code left as it is, the lines that reach the lexer come out as they are. |
| MysqlDump.DumpKeptIff | internal/migration/mysql.go:1168-1206 | With code left as it is, a dump comes out as it was read exactly when no line mentions the sandbox mode and none is a cross-engine mode statement naming the removed mode. |
| MysqlDump.LostRow | internal/migration/mysql.go:1176-1178 | Any row holding the phrase, in any case, is dropped without an error. |
| MysqlDump.LoseRow | internal/migration/mysql.go:1168-1206 | The failing input: the transformer succeeds on such a row and writes nothing. |
| MysqlEdits.WithoutModeShorter | internal/migration/mysql.go:1179-1183 | Removing the mode changes a line, and shortens it, exactly when the mode occurs. |
| MysqlEdits.CutFirst | internal/migration/mysql.go:1180-1182 | Removal keeps what stands before the first occurrence, drops the occurrence, and goes on after it. |
| MysqlEdits.SetsSqlModeIff | internal/migration/mysql.go:41 | The greedy scan recognises a mode statement exactly when the line matches the expression span by span. |
| MysqlEdits.EditedShorter | internal/migration/mysql.go:1176-1183 | The edits change exactly the touched lines. |
| MysqlEdits.EditedKeepsLine | internal/migration/mysql.go:1176-1183 | An edited line is a line and keeps its newline unless it is dropped. |
| RowDigest.FeedSplits | internal/migration/mysql.go:439-459 | Feeding bytes in two parts is feeding them at once, errors included. |
| RowDigest.TallyOfOneRow | internal/migration/mysql.go:427-437 | One row alone: the xor is the hash of the row without one trailing return, the sums its four words, the count one. |
| RowDigest.WordIsNumber | internal/migration/mysql.go:433-435 | A word is the big-endian number of its eight bytes. |
| RowDigest.TallyOfRows | internal/migration/mysql.go:427-437 | Many rows: their number, and each sum the wrapping sum of the words of their hashes. |
| RowDigest.PlusAllTotal | internal/migration/mysql.go:433-435 | Wrapping sums are sums modulo 2^64. |
| RowDigest.AddedCommutes | internal/migration/mysql.go:427-437 | Adding two row digests by xor and wrapping sums commutes. |
| RowDigest.OrderIrrelevant | internal/migration/mysql.go:427-437 | Any permutation of the rows gives the same tally. |
| RowDigest.TextIsFolded | internal/migration/mysql.go:439-475 | A text of newline-terminated rows is digested row by row and fails exactly on a row that is too long. |
| RowDigest.PermutedRowsSameDigest | internal/migration/mysql.go:420-475 | Permuting rows changes neither the digest nor whether it can be computed. |
| RowDigest.RowDigestWriter.AddRow | internal/migration/mysql.go:427-437 | The in-place update is the addition of the row's digest. |
| RowDigest.RowDigestWriter.Write | internal/migration/mysql.go:439-459 | One call feeds exactly its bytes; it errs exactly when a row passes the limit. |
| RowDigest.RowDigestWriter.WriteAll | internal/migration/mysql.go:439-459 | Any split of the same bytes gives the same outcome and state. |
| RowDigest.RowDigestWriter.Finish | internal/migration/mysql.go:461-475 | A last row without newline counts like any other. |
| PostgresFinalize.ValidateFinalState | internal/migration/postgres_logical.go:1312-1332 | Accepts exactly contracts with well-formed sequences in strictly ascending order. |
| PostgresFinalize.IdentityInjective | internal/migration/postgres_logical.go:1322-1325 | The joined name determines schema and name. |
| PostgresFinalize.SortedCaptureAccepted | internal/migration/postgres_logical.go:1380-1391 | The sorted list that the source captures is accepted. |
| PostgresFinalize.ListedOnce | internal/migration/postgres_logical.go:1320-1330 | An accepted contract names each sequence once. |
| PostgresFinalize.SetOneAgain | internal/migration/postgres_logical.go:1657-1663 | Setting some sequences before a stop makes no difference to the counters after a retry. |
| PostgresFinalize.DecimalParses | internal/migration/postgres_logical.go:1326-1328 | Every 64-bit integer is read back as it was printed in decimal, any other is refused. |
| PostgresFinalize.ParsedIsPrinted | internal/migration/postgres_logical.go:1326-1328 | An accepted numeral is an optional sign, zeros and the printed magnitude of the integer it denotes. |
| PostgresFinalize.AllSetAsListed | internal/migration/postgres_logical.go:1657-1663 | Each listed sequence ends with its listed number and called flag, every other one as it was. |
| PostgresFinalize.ManifestIsSet | internal/migration/postgres_logical.go:1380-1391 | Setting a list that prints the manifest's sequences gives the manifest's sequences. |
| PostgresFinalize.PendingOrigin | internal/migration/postgres_logical.go:1664-1672 | A cleanup announcement was written by the finaliser over a matching idle target and has stood since. |
| PostgresFinalize.DropsAreSafe | internal/migration/postgres_logical.go:1673-1680 | The subscription is dropped only detached, idle, and after a durable announcement written over a matching target. |
| PostgresFinalize.DetachesAreSafe | internal/migration/postgres_logical.go:1673-1676 | The slot is given up only after such an announcement, with no worker running. |
| PostgresFinalize.FinalOrigin | internal/migration/postgres_logical.go:1681-1684 | A finalised marker was written over an absent subscription after an announcement for the same final state. |
| PostgresTarget.TargetHost.CatchUp | internal/migration/postgres_logical.go:1637-1656 | Success leaves the subscription idle at or past the captured position; every step stays restartable. |
| PostgresTarget.TargetHost.SetSequences | internal/migration/postgres_logical.go:1657-1663 | Success leaves each listed sequence with the number its numeral denotes and its called flag, and every other one as it was; without failures it succeeds exactly when all exist. |
| PostgresTarget.TargetHost.Recover | internal/migration/postgres_logical.go:1578-1621 | Finishes an announced cleanup exactly when the target matches and the slot is the plan's or gone. |
| PostgresTarget.TargetHost.FinalizeTarget | internal/migration/postgres_logical.go:1515-1693 | Success means a final marker, otherwise unchanged, and no subscription, from a marker, final state, subscription and publication that are the task's; the target matches, except that recovery leaves what the worker leaves; without failures it succeeds exactly when `Finalizable`; every step is restartable. |
| PostgresTarget.CapturedStateFinalizes | internal/migration/postgres_logical.go:1380-1693 | A final state as the source captures it, never-called sequences included, finalises a replicating target in step with the fenced source. |
| PostgresTarget.TargetHost.AnyRun | internal/migration/postgres_logical.go:1515-1693 | Every interleaving with stops, the worker, other tasks and administrators obeys the step rule. |
| PostgresTarget.TargetHost.RetryAfterCrashes | internal/migration/postgres_logical.go:1562-1684 | After any number of attempts stopped anywhere, one attempt without failures finalises. |
| PostgresTarget.DriftDuringRecovery | internal/migration/postgres_logical.go:1580-1597 | From every announced state that is not undisturbed some worker changes the target after the comparison, and the call still succeeds. |
| PostgresFinalize.MatchKeptIff | internal/migration/postgres_logical.go:1580-1597 | From a matching announced state every worker leaves the target matching exactly when it is idle, or in step with a source whose remaining positions all hold the captured rows. |
| PostgresFinalize.TailsAreStreams | internal/migration/postgres_logical.go:1595-1597 | The outcomes considered are exactly what the step rule lets a worker do. |
| PostgresFinalize.CaughtUpIsUndisturbed | internal/migration/postgres_logical.go:1646-1649 | A worker in step with a fenced source at or past the captured position is harmless. |
| PostgresFinalize.UnfencedSourceDisturbs | internal/migration/postgres_logical.go:1580-1597 | A failing class: in step with a source that went on. |
| PostgresFinalize.FencedSourceDisturbs | internal/migration/postgres_logical.go:1580-1597 | A failing class: in step with a fenced source, behind the captured position. |

## Left out

- Cryptography and encodings: SHA-256, JSON and manifest digests are injective functions; signatures, TLS and, but for the SQL-mode statement, regular expressions are not modelled.
- External programs and servers (systemctl, docker, psql, mongosh, Redis, HTTP): operations that succeed, fail, or fail after taking effect.
- Fence timestamps (`ActivatedAt`, `LastVerifiedAt`, last violation) carry no decision and are not modelled; counters are unbounded integers.
- The time-out loop of fence verification is one observation; the service list's format, allow-list and sorting are checked before the modelled part.
- Service names fold case as ASCII, which the service name pattern guarantees; the key of a fencing token is a pair and not a joined string.
- Legacy state files: an absent and an empty list of previously active services are not told apart.
- FileSwap: trees are identified with their manifests; edits of the target by others, a target that is not a directory and markers of another migration are not modelled.
- Transfer: files within one chunk of 2^63 bytes are not modelled, nor are file modes, times and directories, rate limits and free-space checks; a complete cached file that cannot be read for a moment is not modelled.
- Manifest: whether a path is clean is an abstract predicate, as is the comparison with the expected digest.
- MysqlDump: the rewriting of a run of code is an abstract function; definer replacement is not modelled. Characters outside ASCII matter to the line edits only through the case folding of regular expressions.
- MongoDelta: the oplog is a sequence of entries; index and collection metadata and the restore tool are not modelled.
- RedisScan: in cache mode only the empty archive is modelled, not the counting of excluded keys; sorting is an insertion sort and not the library's.
- PostgresFinalize: regular expressions for digests and positions and the artifact's file are checked before the modelled part; the polling loops are single waits; the retained WAL ceiling and slot activity are failures.
- The target cleanup of PostgreSQL replication (`internal/migration/postgres_logical.go:1695-1769`) always errs in its drop branch and is not modelled.
- Compose policy, binding parsers, configuration, audit text, telemetry, CLI, gateway, scheduler and low-level file safety would add long check lists and no harder property.
